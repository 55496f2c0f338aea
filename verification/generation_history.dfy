/** The recent-generations log kept next to the templates: a most-recent-first
    list of generation records, capped at twenty. The clock reading is a
    parameter; the payload of a record is left generic. */
module GenerationHistory {
  import opened Wrappers
  import opened RecordStore

  /** The number of records the log keeps. */
  const Capacity: nat := 20

  /** A generation record: the caller's payload stamped with the save time. */
  datatype Generation<P> = Generation(data: P, timestamp: int)

  /** `getRecentGenerations()`: newest first, empty when nothing is stored. */
  function GetRecent<P>(slot: Slot<Generation<P>>): (r: seq<Generation<P>>)
    ensures slot.None? ==> r == []
  {
    Read(slot)
  }

  /** `saveRecentGeneration(data)` at time `now`: the stamped record goes in
      front, every earlier record moves back one place, and only the first
      twenty are kept. */
  function SaveRecent<P>(slot: Slot<Generation<P>>, data: P, now: int): (r: Slot<Generation<P>>)
    ensures |GetRecent(r)| == Min(|GetRecent(slot)| + 1, Capacity)
    ensures GetRecent(r)[0] == Generation(data, now)
    ensures forall i :: 1 <= i < |GetRecent(r)| ==> GetRecent(r)[i] == GetRecent(slot)[i - 1]
  {
    var recent := [Generation(data, now)] + GetRecent(slot);
    Write(recent[..Min(|recent|, Capacity)])
  }

  /** `clearRecentGenerations()`. */
  function ClearRecent<P>(): (r: Slot<Generation<P>>)
    ensures GetRecent(r) == []
  {
    Remove()
  }

  /** Saving each payload of `batch` in turn, with its clock reading. */
  function SaveAll<P>(slot: Slot<Generation<P>>, batch: seq<(P, int)>): Slot<Generation<P>>
    decreases |batch|
  {
    if batch == [] then slot
    else SaveAll(SaveRecent(slot, batch[0].0, batch[0].1), batch[1..])
  }

  /** The records of `batch`, stamped, the last saved first. */
  function NewestFirst<P>(batch: seq<(P, int)>): (r: seq<Generation<P>>)
    ensures |r| == |batch|
    decreases |batch|
  {
    if batch == [] then []
    else NewestFirst(batch[1..]) + [Generation(batch[0].0, batch[0].1)]
  }

  /** Truncating the tail first to the capacity does not change the kept prefix. */
  lemma TakeAfterTruncatedTail<T>(front: seq<T>, tail: seq<T>)
    ensures (front + tail[..Min(|tail|, Capacity)])[..Min(|front| + Min(|tail|, Capacity), Capacity)]
         == (front + tail)[..Min(|front| + |tail|, Capacity)]
  {
  }

  /** After any non-empty series of saves the log holds the newest records of
      the series, newest first, followed by the older records, cut at twenty. */
  lemma {:induction false} SaveAllContents<P>(slot: Slot<Generation<P>>, batch: seq<(P, int)>)
    requires batch != []
    ensures GetRecent(SaveAll(slot, batch))
         == (NewestFirst(batch) + GetRecent(slot))[..Min(|batch| + |GetRecent(slot)|, Capacity)]
    decreases |batch|
  {
    var g := Generation(batch[0].0, batch[0].1);
    var old_ := GetRecent(slot);
    var slot1 := SaveRecent(slot, batch[0].0, batch[0].1);
    var x := [g] + old_;
    assert GetRecent(slot1) == x[..Min(|x|, Capacity)];
    if batch[1..] == [] {
      assert NewestFirst(batch) == [g] by {
        assert NewestFirst(batch[1..]) == [];
      }
      assert |batch| == 1;
    } else {
      SaveAllContents(slot1, batch[1..]);
      var front := NewestFirst(batch[1..]);
      TakeAfterTruncatedTail(front, x);
      assert front + x == NewestFirst(batch) + old_;
    }
  }

  /** However many records are saved, the log never exceeds twenty entries and
      the most recent save is at its head. */
  lemma HistoryBoundedNewestFirst<P>(slot: Slot<Generation<P>>, batch: seq<(P, int)>)
    requires batch != []
    ensures 1 <= |GetRecent(SaveAll(slot, batch))| <= Capacity
    ensures GetRecent(SaveAll(slot, batch))[0] == Generation(batch[|batch| - 1].0, batch[|batch| - 1].1)
  {
    SaveAllContents(slot, batch);
    NewestHead(batch);
  }

  lemma {:induction false} NewestHead<P>(batch: seq<(P, int)>)
    requires batch != []
    ensures NewestFirst(batch)[0] == Generation(batch[|batch| - 1].0, batch[|batch| - 1].1)
    decreases |batch|
  {
    if |batch| > 1 {
      NewestHead(batch[1..]);
    }
  }
}
