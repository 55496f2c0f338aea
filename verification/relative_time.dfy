/** The relative-time label of the home page (`formatDate`): elapsed
    milliseconds become "Just now", a count of minutes, hours or days, or —
    from one week on — the locale date, which stays an input here. */
module RelativeTime {
  import opened Text

  const MinuteMs: int := 60000
  const HourMs: int := 3600000
  const DayMs: int := 86400000
  const WeekMs: int := 604800000

  datatype Unit = Minute | Hour | Day

  /** The length of one unit, in milliseconds. */
  function UnitMs(u: Unit): int {
    match u
    case Minute => MinuteMs
    case Hour => HourMs
    case Day => DayMs
  }

  /** The first elapsed time no longer counted in this unit. */
  function BucketEndMs(u: Unit): int {
    match u
    case Minute => HourMs
    case Hour => DayMs
    case Day => WeekMs
  }

  function UnitName(u: Unit): string {
    match u
    case Minute => "minute"
    case Hour => "hour"
    case Day => "day"
  }

  /** The label chosen for an elapsed time, before rendering. */
  datatype Relative = JustNow | Ago(count: nat, unit: Unit) | LocaleDate

  /** The buckets of `formatDate`: below a minute (negative times included) is
      "just now"; below an hour, a day and a week the elapsed time is counted
      in whole minutes, hours and days; from a week on the locale date is used. */
  function Bucket(diff: int): (r: Relative)
    ensures r.JustNow? <==> diff < MinuteMs
    ensures r.LocaleDate? <==> diff >= WeekMs
    ensures r.Ago? ==> UnitMs(r.unit) <= diff < BucketEndMs(r.unit)
    ensures r.Ago? ==> r.count * UnitMs(r.unit) <= diff < (r.count + 1) * UnitMs(r.unit)
    ensures r.Ago? ==> 1 <= r.count && r.count * UnitMs(r.unit) < BucketEndMs(r.unit)
  {
    if diff < MinuteMs then JustNow
    else if diff < HourMs then Ago(diff / MinuteMs, Minute)
    else if diff < DayMs then Ago(diff / HourMs, Hour)
    else if diff < WeekMs then Ago(diff / DayMs, Day)
    else LocaleDate
  }

  /** The counts stay within their bucket: 1..59 minutes, 1..23 hours, 1..6 days. */
  lemma CountRanges(diff: int)
    ensures var r := Bucket(diff);
      && (MinuteMs <= diff < HourMs ==> r.Ago? && r.unit == Minute && 1 <= r.count <= 59)
      && (HourMs <= diff < DayMs ==> r.Ago? && r.unit == Hour && 1 <= r.count <= 23)
      && (DayMs <= diff < WeekMs ==> r.Ago? && r.unit == Day && 1 <= r.count <= 6)
  {
  }

  /** `formatDate` as text, with the locale date supplied by the caller. The
      unit takes an "s" when the count is above one. */
  function FormatDate(diff: int, localeDate: string): (r: string)
    ensures diff < MinuteMs ==> r == "Just now"
    ensures WeekMs <= diff ==> r == localeDate
    ensures MinuteMs <= diff < WeekMs ==> |r| >= 5 && r[|r| - 4..] == " ago" && '1' <= r[0] <= '9'
  {
    match Bucket(diff)
    case JustNow => "Just now"
    case Ago(n, u) => NatToString(n) + " " + UnitName(u) + (if n > 1 then "s" else "") + " ago"
    case LocaleDate => localeDate
  }

  predicate EndsWith(s: string, suffix: string) {
    |suffix| <= |s| && s[|s| - |suffix|..] == suffix
  }

  /** A counted label reads exactly "<count> <unit> ago" or "<count> <unit>s ago",
      the count in decimal, with the "s" exactly when the count is not one. */
  lemma CountedLabel(diff: int, localeDate: string)
    requires Bucket(diff).Ago?
    ensures var r := Bucket(diff); var text := FormatDate(diff, localeDate);
      && IsPrefix(NatToString(r.count) + " " + UnitName(r.unit), text)
      && DigitsValue(NatToString(r.count)) == r.count
      && (EndsWith(text, "s ago") <==> r.count != 1)
      && |text| == |NatToString(r.count) + " " + UnitName(r.unit)| + (if r.count == 1 then 4 else 5)
  {
    var r := Bucket(diff);
    var head := NatToString(r.count) + " " + UnitName(r.unit);
    var text := FormatDate(diff, localeDate);
    NatToStringRoundTrip(r.count);
    if r.count > 1 {
      assert text == head + "s ago";
    } else {
      assert text == head + " ago";
      assert text[|text| - 5] == head[|head| - 1];
      assert head[|head| - 1] == UnitName(r.unit)[|UnitName(r.unit)| - 1];
    }
    assert text[..|head|] == head;
  }

  /** The order of the labels, from "Just now" to the locale date. */
  function Rank(r: Relative): nat {
    match r
    case JustNow => 0
    case Ago(_, u) => (match u case Minute => 1 case Hour => 2 case Day => 3)
    case LocaleDate => 4
  }

  /** A longer elapsed time never gets an earlier label, nor a smaller count
      within the same unit. */
  lemma BucketMonotone(d1: int, d2: int)
    requires d1 <= d2
    ensures Rank(Bucket(d1)) <= Rank(Bucket(d2))
    ensures Bucket(d1).Ago? && Bucket(d2).Ago? && Bucket(d1).unit == Bucket(d2).unit ==>
              Bucket(d1).count <= Bucket(d2).count
  {
  }
}
