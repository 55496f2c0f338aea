/** The template repository of the client (`TemplateStorage`): create, update,
    delete, list, search, export, import and statistics over one stored
    sequence of template records. Generated ids and clock readings are
    parameters; the store is the key that holds the collection. */
module TemplateStorage {
  import opened Wrappers
  import opened Text
  import opened Seqs
  import opened RecordStore

  /** One field descriptor of a template; its order within a template matters. */
  datatype Field = Field(name: string, kind: string)

  /** A stored template record. An `id` of "" is a missing (falsy) id and a
      `description` of "" a missing description; `fields` is `None` when the
      record has no `fields` property. Timestamps are milliseconds. */
  datatype Template = Template(
    id: string,
    name: string,
    description: string,
    fields: Option<seq<Field>>,
    createdAt: Option<int>,
    updatedAt: Option<int>,
    importedAt: Option<int>)

  // ---------------------------------------------------------------------------
  // Invariants of the collection

  /** No two stored records share an id. */
  predicate UniqueIds(s: seq<Template>) {
    forall i, j :: 0 <= i < j < |s| ==> s[i].id != s[j].id
  }

  /** Every stored record has an id. */
  predicate IdsAssigned(s: seq<Template>) {
    forall i :: 0 <= i < |s| ==> s[i].id != ""
  }

  /** Every record carrying both timestamps was created no later than updated. */
  predicate StampsOrdered(s: seq<Template>) {
    forall i :: 0 <= i < |s| && s[i].createdAt.Some? && s[i].updatedAt.Some? ==>
      s[i].createdAt.value <= s[i].updatedAt.value
  }

  predicate Valid(s: seq<Template>) {
    UniqueIds(s) && IdsAssigned(s) && StampsOrdered(s)
  }

  /** Some stored record carries `id`. */
  predicate HasId(s: seq<Template>, id: string) {
    exists i :: 0 <= i < |s| && s[i].id == id
  }

  /** `id` is a usable new id for `s`: non-empty and carried by no record.
      This is what the id generator is assumed to deliver. */
  predicate Fresh(id: string, s: seq<Template>) {
    id != "" && !HasId(s, id)
  }

  /** `k` is the first index of a record carrying `id`. */
  predicate FirstWithId(s: seq<Template>, id: string, k: int) {
    0 <= k < |s| && s[k].id == id && forall j :: 0 <= j < k ==> s[j].id != id
  }

  // ---------------------------------------------------------------------------
  // Queries

  /** `getAll`: the stored collection, empty when nothing is stored. */
  function GetAll(slot: Slot<Template>): (r: seq<Template>)
    ensures slot.None? ==> r == []
  {
    Read(slot)
  }

  /** `findIndex(t => t.id === id)`, with `None` for -1. */
  function FindIndex(s: seq<Template>, id: string): (r: Option<nat>)
    ensures r.Some? ==> FirstWithId(s, id, r.value)
    ensures r.None? ==> !HasId(s, id)
  {
    if s == [] then None
    else if s[0].id == id then Some(0)
    else
      match FindIndex(s[1..], id)
      case None =>
        assert forall i :: 1 <= i < |s| ==> s[i].id == s[1..][i - 1].id;
        None
      case Some(k) =>
        assert forall j :: 1 <= j <= k ==> s[j].id == s[1..][j - 1].id;
        Some(k + 1)
  }

  /** `getById`: the first record carrying `id`, or `None` for `null`. */
  function GetById(slot: Slot<Template>, id: string): (r: Option<Template>)
    ensures r.None? <==> !HasId(GetAll(slot), id)
    ensures r.Some? ==> exists k :: FirstWithId(GetAll(slot), id, k) && r.value == GetAll(slot)[k]
  {
    match FindIndex(GetAll(slot), id)
    case None => None
    case Some(k) => Some(GetAll(slot)[k])
  }

  // ---------------------------------------------------------------------------
  // save

  datatype Saved = Saved(slot: Slot<Template>, template: Template)

  /** `save(template)`. A template without an id takes `freshId` and is
      created at `createdClock`; every save is stamped with `updatedClock`.
      The record then replaces the first stored record with its id, or is
      appended when there is none. */
  function Save(slot: Slot<Template>, t: Template, freshId: string, createdClock: int, updatedClock: int): (r: Saved)
    ensures t.id == "" ==> r.template.id == freshId && r.template.createdAt == Some(createdClock)
    ensures t.id != "" ==> r.template.id == t.id && r.template.createdAt == t.createdAt
    ensures r.template.updatedAt == Some(updatedClock)
    ensures r.template.name == t.name && r.template.description == t.description
    ensures r.template.fields == t.fields && r.template.importedAt == t.importedAt
    ensures r.slot.Some?
    ensures forall k :: FirstWithId(GetAll(slot), r.template.id, k) ==>
              GetAll(r.slot) == GetAll(slot)[k := r.template]
    ensures !HasId(GetAll(slot), r.template.id) ==> GetAll(r.slot) == GetAll(slot) + [r.template]
  {
    var s := GetAll(slot);
    var named := if t.id == "" then t.(id := freshId, createdAt := Some(createdClock)) else t;
    var stamped := named.(updatedAt := Some(updatedClock));
    match FindIndex(s, stamped.id)
    case Some(k) => Saved(Write(s[k := stamped]), stamped)
    case None => Saved(Write(s + [stamped]), stamped)
  }

  /** Saving a template without an id appends one record under an id not in
      the store, created no later than updated when the clock does not run
      backwards; the records already stored are untouched. */
  lemma SaveNewRecord(slot: Slot<Template>, t: Template, freshId: string, createdClock: int, updatedClock: int)
    requires t.id == "" && Fresh(freshId, GetAll(slot))
    requires createdClock <= updatedClock
    ensures var r := Save(slot, t, freshId, createdClock, updatedClock);
      && !HasId(GetAll(slot), r.template.id)
      && |GetAll(r.slot)| == |GetAll(slot)| + 1
      && GetAll(r.slot)[..|GetAll(slot)|] == GetAll(slot)
      && GetAll(r.slot)[|GetAll(slot)|] == r.template
      && r.template.createdAt.value <= r.template.updatedAt.value
  {
  }

  /** Saving a template whose id is stored replaces that record in place:
      the count and every other record stay as they were. */
  lemma SaveExistingRecord(slot: Slot<Template>, t: Template, freshId: string, createdClock: int, updatedClock: int)
    requires t.id != "" && HasId(GetAll(slot), t.id)
    ensures var r := Save(slot, t, freshId, createdClock, updatedClock);
      && |GetAll(r.slot)| == |GetAll(slot)|
      && exists k :: 0 <= k < |GetAll(slot)| && GetAll(slot)[k].id == t.id
           && GetAll(r.slot)[k] == r.template
           && forall j :: 0 <= j < |GetAll(slot)| && j != k ==> GetAll(r.slot)[j] == GetAll(slot)[j]
  {
  }

  /** Reading back the id a save returned yields exactly the saved record. */
  lemma SaveThenGetById(slot: Slot<Template>, t: Template, freshId: string, createdClock: int, updatedClock: int)
    ensures var r := Save(slot, t, freshId, createdClock, updatedClock);
      GetById(r.slot, r.template.id) == Some(r.template)
  {
    var s := GetAll(slot);
    var r := Save(slot, t, freshId, createdClock, updatedClock);
    var id := r.template.id;
    var s' := GetAll(r.slot);
    match FindIndex(s, id)
    case Some(k) =>
      assert s' == s[k := r.template];
      assert FirstWithId(s', id, k);
    case None =>
      assert s' == s + [r.template];
      assert FirstWithId(s', id, |s|);
  }

  /** Saves keep the collection valid: unique, assigned ids and ordered
      timestamps, given a fresh generated id, a clock that does not run
      backwards, and a caller-supplied creation time not after the save. */
  lemma SavePreservesValid(slot: Slot<Template>, t: Template, freshId: string, createdClock: int, updatedClock: int)
    requires Valid(GetAll(slot))
    requires t.id == "" ==> Fresh(freshId, GetAll(slot)) && createdClock <= updatedClock
    requires t.id != "" && t.createdAt.Some? ==> t.createdAt.value <= updatedClock
    ensures Valid(GetAll(Save(slot, t, freshId, createdClock, updatedClock).slot))
  {
  }

  // ---------------------------------------------------------------------------
  // delete and clear

  datatype Deleted = Deleted(slot: Slot<Template>, removed: bool)

  /** The filter predicate of `delete(id)`: keep records with another id. */
  function OtherId(id: string): Template -> bool {
    (t: Template) => t.id != id
  }

  /** `delete(id)`: every record carrying `id` is dropped, the rest kept in
      order, and the result tells whether the collection shrank. */
  function Delete(slot: Slot<Template>, id: string): (r: Deleted)
    ensures r.removed <==> HasId(GetAll(slot), id)
    ensures forall i :: 0 <= i < |GetAll(r.slot)| ==>
              GetAll(r.slot)[i] in GetAll(slot) && GetAll(r.slot)[i].id != id
    ensures forall i :: 0 <= i < |GetAll(slot)| && GetAll(slot)[i].id != id ==> GetAll(slot)[i] in GetAll(r.slot)
    ensures !r.removed ==> GetAll(r.slot) == GetAll(slot)
  {
    var s := GetAll(slot);
    var kept := Filter(s, OtherId(id));
    FilterShrinks(s, OtherId(id));
    assert !HasId(s, id) ==> kept == s by {
      if !HasId(s, id) {
        FilterKeepsAll(s, OtherId(id));
      }
    }
    Deleted(Write(kept), |kept| < |s|)
  }

  /** Deleting within a concatenation deletes within each part: the records
      that remain keep their relative order. */
  lemma DeleteKeepsOrder(a: seq<Template>, b: seq<Template>, id: string)
    ensures GetAll(Delete(Some(a + b), id).slot)
         == GetAll(Delete(Some(a), id).slot) + GetAll(Delete(Some(b), id).slot)
  {
    FilterAppend(a, b, OtherId(id));
  }

  /** After a delete no record carries the deleted id. */
  lemma DeleteThenGetById(slot: Slot<Template>, id: string)
    ensures GetById(Delete(slot, id).slot, id) == None
  {
  }

  /** Filtering keeps the collection invariant: the kept records are stored
      records, and they keep their order, so no two of them share an id. */
  lemma {:induction false} FilterKeepsValid(s: seq<Template>, p: Template -> bool)
    requires Valid(s)
    ensures Valid(Filter(s, p))
    decreases |s|
  {
    if s != [] {
      var t := s[1..];
      assert Valid(t) by {
        forall i, j | 0 <= i < j < |t| ensures t[i].id != t[j].id {
          assert t[i] == s[i + 1] && t[j] == s[j + 1];
        }
      }
      FilterKeepsValid(t, p);
      var rest := Filter(t, p);
      forall i | 0 <= i < |rest| ensures rest[i].id != s[0].id {
        var k :| 0 <= k < |t| && t[k] == rest[i];
        assert t[k] == s[k + 1];
      }
    }
  }

  /** A delete keeps ids unique and assigned and timestamps ordered. */
  lemma DeleteKeepsValid(slot: Slot<Template>, id: string)
    requires Valid(GetAll(slot))
    ensures Valid(GetAll(Delete(slot, id).slot))
  {
    FilterKeepsValid(GetAll(slot), OtherId(id));
  }

  /** `clear()`: the key is removed and the collection reads as empty. */
  function Clear(): (slot: Slot<Template>)
    ensures GetAll(slot) == []
  {
    Remove()
  }

  // ---------------------------------------------------------------------------
  // export and import

  /** One element of a parsed import payload: `null`, a value that is not an
      object (a number, string, boolean or array, whose `name` reads as
      `undefined`), or an object read as a template record. */
  datatype Entry = NullEntry | NonRecord | Record(t: Template)

  /** The parsed import payload: the top level is an array or it is not. */
  datatype ImportInput = NotArray | Array(entries: seq<Entry>)

  datatype ImportPolicy = Merge | Replace

  /** `InvalidFormat` is the "expected array of templates" error; `NullTemplate`
      the `TypeError` of reading `name` from a `null` element. */
  datatype ImportError = InvalidFormat | NullTemplate

  datatype Imported = Imported(slot: Slot<Template>, count: nat)

  /** `export()`: the whole collection, each record as an import entry. */
  function Export(slot: Slot<Template>): (r: seq<Entry>)
    ensures |r| == |GetAll(slot)|
    ensures forall i :: 0 <= i < |r| ==> r[i].Record? && r[i].t == GetAll(slot)[i]
  {
    seq(|GetAll(slot)|, i requires 0 <= i < |GetAll(slot)| => Record(GetAll(slot)[i]))
  }

  /** The import check `template.name && template.fields`. */
  predicate Importable(t: Template) {
    t.name != "" && t.fields.Some?
  }

  /** The records an import accepts, in input order: the object entries that
      pass the import check. */
  function Candidates(entries: seq<Entry>): seq<Template> {
    if entries == [] then []
    else (if entries[0].Record? && Importable(entries[0].t) then [entries[0].t] else []) + Candidates(entries[1..])
  }

  predicate HasNull(entries: seq<Entry>) {
    exists i :: 0 <= i < |entries| && entries[i].NullEntry?
  }

  /** The `j`-th accepted record as stored: a new id and an import time. */
  function Reissue(t: Template, j: nat, ids: nat -> string, clock: nat -> int): Template {
    t.(id := ids(j), importedAt := Some(clock(j)))
  }

  /** The candidates `c`, numbered from `k`, as they are stored. */
  function Reissued(c: seq<Template>, k: nat, ids: nat -> string, clock: nat -> int): seq<Template> {
    seq(|c|, j requires 0 <= j < |c| => Reissue(c[j], k + j, ids, clock))
  }

  lemma HasNullCons(entries: seq<Entry>)
    requires entries != []
    ensures HasNull(entries) <==> entries[0].NullEntry? || HasNull(entries[1..])
  {
  }

  lemma ReissuedCons(t: Template, c: seq<Template>, k: nat, ids: nat -> string, clock: nat -> int)
    ensures Reissued([t] + c, k, ids, clock) == [Reissue(t, k, ids, clock)] + Reissued(c, k + 1, ids, clock)
  {
  }

  /** The `forEach` of `import`: entries are taken in order, accepted ones are
      reissued (the `k`-th accepted one with `ids(k)` and `clock(k)`), others
      skipped, and a `null` entry aborts the whole import. */
  function Admit(entries: seq<Entry>, k: nat, ids: nat -> string, clock: nat -> int): (r: Result<seq<Template>, ImportError>)
    ensures r.Failure? <==> HasNull(entries)
    ensures r.Success? ==> r.value == Reissued(Candidates(entries), k, ids, clock)
    decreases |entries|
  {
    if entries == [] then Success([])
    else
      HasNullCons(entries);
      match entries[0]
      case NullEntry => Failure(NullTemplate)
      case NonRecord => Admit(entries[1..], k, ids, clock)
      case Record(t) =>
        if Importable(t) then
          match Admit(entries[1..], k + 1, ids, clock)
          case Failure(e) => Failure(e)
          case Success(rest) =>
            ReissuedCons(t, Candidates(entries[1..]), k, ids, clock);
            Success([Reissue(t, k, ids, clock)] + rest)
        else
          Admit(entries[1..], k, ids, clock)
  }

  /** `import(json, merge)`. A payload that is not an array fails, and so does
      one with a `null` element; otherwise the accepted records, each with a
      new id and import time, are appended to the stored collection (merge) or
      replace it, and the result is the length of the whole parsed array. */
  function Import(slot: Slot<Template>, input: ImportInput, policy: ImportPolicy,
                  ids: nat -> string, clock: nat -> int): (r: Result<Imported, ImportError>)
    ensures input.NotArray? ==> r == Failure(InvalidFormat)
    ensures input.Array? ==> (r.Failure? <==> HasNull(input.entries))
    ensures r.Success? ==> r.value.count == |input.entries|
    ensures r.Success? ==>
              GetAll(r.value.slot) == (if policy == Merge then GetAll(slot) else []) + Reissued(Candidates(input.entries), 0, ids, clock)
  {
    match input
    case NotArray => Failure(InvalidFormat)
    case Array(entries) =>
      var base := if policy == Merge then GetAll(slot) else [];
      var added :- Admit(entries, 0, ids, clock);
      Success(Imported(Write(base + added), |entries|))
  }

  /** The returned count is the parsed array's length, not the number of
      records added: importing one valid record and one object without a
      name into an empty store returns 2 but stores 1 record. */
  lemma ImportCountCanExceedAdded(ids: nat -> string, clock: nat -> int)
    ensures var good := Template("", "A", "", Some([]), None, None, None);
      var bad := Template("", "", "", None, None, None, None);
      var r := Import(None, Array([Record(good), Record(bad)]), Merge, ids, clock);
      && r.Success? && r.value.count == 2
      && GetAll(r.value.slot) == [good.(id := ids(0), importedAt := Some(clock(0)))]
  {
  }

  /** With a generator whose ids are distinct, non-empty and not already
      stored, an import keeps the collection free of duplicate ids. */
  lemma ImportPreservesUniqueIds(slot: Slot<Template>, input: ImportInput, policy: ImportPolicy,
                                 ids: nat -> string, clock: nat -> int)
    requires UniqueIds(GetAll(slot)) && IdsAssigned(GetAll(slot))
    requires forall j, j' :: j != j' ==> ids(j) != ids(j')
    requires forall j :: Fresh(ids(j), GetAll(slot))
    ensures var r := Import(slot, input, policy, ids, clock);
      r.Success? ==> UniqueIds(GetAll(r.value.slot)) && IdsAssigned(GetAll(r.value.slot))
  {
  }

  /** Export entries of records that all pass the import check are all accepted. */
  lemma {:induction false} CandidatesOfRecords(s: seq<Template>)
    requires forall i :: 0 <= i < |s| ==> Importable(s[i])
    ensures Candidates(seq(|s|, i requires 0 <= i < |s| => Record(s[i]))) == s
  {
    var e := seq(|s|, i requires 0 <= i < |s| => Record(s[i]));
    if s != [] {
      assert e[1..] == seq(|s[1..]|, i requires 0 <= i < |s[1..]| => Record(s[1..][i]));
      CandidatesOfRecords(s[1..]);
    }
  }

  /** Replacing the store with its own export keeps the count and, record by
      record, the name, description and field order; only ids and import
      times are new. */
  lemma ExportImportRoundTrip(slot: Slot<Template>, ids: nat -> string, clock: nat -> int)
    requires forall i :: 0 <= i < |GetAll(slot)| ==> Importable(GetAll(slot)[i])
    ensures var r := Import(slot, Array(Export(slot)), Replace, ids, clock);
      && r.Success?
      && r.value.count == |GetAll(slot)|
      && |GetAll(r.value.slot)| == |GetAll(slot)|
      && forall i :: 0 <= i < |GetAll(slot)| ==>
           && GetAll(r.value.slot)[i].name == GetAll(slot)[i].name
           && GetAll(r.value.slot)[i].description == GetAll(slot)[i].description
           && GetAll(r.value.slot)[i].fields == GetAll(slot)[i].fields
  {
    var s := GetAll(slot);
    CandidatesOfRecords(s);
    assert Export(slot) == seq(|s|, i requires 0 <= i < |s| => Record(s[i]));
    assert !HasNull(Export(slot));
    var added := Reissued(Candidates(Export(slot)), 0, ids, clock);
    var r := Import(slot, Array(Export(slot)), Replace, ids, clock);
    assert GetAll(r.value.slot) == [] + added;
    assert |added| == |s|;
  }

  // ---------------------------------------------------------------------------
  // search

  /** The search filter: the lower-cased query occurs in the lower-cased name,
      or in the lower-cased description when there is one. */
  predicate Matches(t: Template, lowerQuery: string) {
    || Contains(Lower(t.name), lowerQuery)
    || (t.description != "" && Contains(Lower(t.description), lowerQuery))
  }

  function MatchesQuery(lowerQuery: string): Template -> bool {
    (t: Template) => Matches(t, lowerQuery)
  }

  /** `search(query)`: the stored records matching the query case-insensitively,
      in stored order; the empty query returns everything. */
  function Search(slot: Slot<Template>, query: string): (r: seq<Template>)
    ensures forall i :: 0 <= i < |r| ==> r[i] in GetAll(slot) && Matches(r[i], Lower(query))
    ensures forall i :: 0 <= i < |GetAll(slot)| && Matches(GetAll(slot)[i], Lower(query)) ==> GetAll(slot)[i] in r
    ensures query == "" ==> r == GetAll(slot)
  {
    var s := GetAll(slot);
    assert query == "" ==> Filter(s, MatchesQuery(Lower(query))) == s by {
      if query == "" {
        forall i | 0 <= i < |s|
          ensures MatchesQuery(Lower(query))(s[i])
        {
          ContainsEmpty(Lower(s[i].name));
        }
        FilterKeepsAll(s, MatchesQuery(Lower(query)));
      }
    }
    Filter(s, MatchesQuery(Lower(query)))
  }

  /** The search filter is substring occurrence: a record matches exactly when
      the lower-cased query occurs at some index of its lower-cased name or of
      its lower-cased, present description. */
  lemma MatchesIffOccurs(t: Template, query: string)
    ensures Matches(t, Lower(query)) <==>
      || (exists i :: OccursAt(Lower(t.name), Lower(query), i))
      || (t.description != "" && exists i :: OccursAt(Lower(t.description), Lower(query), i))
  {
    ContainsIffOccurs(Lower(t.name), Lower(query));
    ContainsIffOccurs(Lower(t.description), Lower(query));
  }

  /** On a single record, search keeps it exactly when it matches (or the
      query is empty); with `SearchKeepsOrder` this fixes every result,
      multiplicities included. */
  lemma SearchSingle(t: Template, query: string)
    ensures Search(Some([t]), query) == if query == "" || Matches(t, Lower(query)) then [t] else []
  {
  }

  /** The case of the query does not matter. */
  lemma SearchIgnoresQueryCase(slot: Slot<Template>, query: string)
    ensures Search(slot, Lower(query)) == Search(slot, query)
  {
    LowerIdempotent(query);
    if query != "" && Lower(query) == "" {
      assert |Lower(query)| == |query|;
    }
  }

  /** Searching within a concatenation searches within each part, so results
      come back in stored order. */
  lemma SearchKeepsOrder(a: seq<Template>, b: seq<Template>, query: string)
    ensures Search(Some(a + b), query) == Search(Some(a), query) + Search(Some(b), query)
  {
    FilterAppend(a, b, MatchesQuery(Lower(query)));
  }

  // ---------------------------------------------------------------------------
  // getStats

  /** `t.updatedAt || t.createdAt`. */
  function StampOf(t: Template): Option<int> {
    if t.updatedAt.Some? then t.updatedAt else t.createdAt
  }

  /** One step of the `reduce`: a record replaces the latest time only when its
      time is strictly later. A missing time compares false either way, so a
      missing latest time is never replaced. */
  function Later(latest: Option<int>, t: Template): Option<int> {
    var st := StampOf(t);
    if st.Some? && latest.Some? && st.value > latest.value then st else latest
  }

  /** The `reduce` of `getStats` from the seed `acc`. */
  function Latest(s: seq<Template>, acc: Option<int>): Option<int>
    decreases |s|
  {
    if s == [] then acc else Latest(s[1..], Later(acc, s[0]))
  }

  datatype Stats = Stats(count: nat, lastUpdated: Option<int>)

  /** `getStats()` without the serialized sizes: the count, and the latest
      record time seeded with the first record's time (`null` when empty). */
  function GetStats(slot: Slot<Template>): (r: Stats)
    ensures r.count == |GetAll(slot)|
    ensures |GetAll(slot)| == 0 ==> r.lastUpdated.None?
  {
    var s := GetAll(slot);
    Stats(|s|, if |s| > 0 then Latest(s, StampOf(s[0])) else None)
  }

  /** The fold yields the maximum of the seed and the times of the timed
      records (untimed records are skipped), attained either by the seed or by
      the earliest record reaching it. */
  lemma {:induction false} LatestIsEarliestMaximum(s: seq<Template>, a: int)
    ensures var r := Latest(s, Some(a));
      && r.Some? && a <= r.value
      && (forall i :: 0 <= i < |s| && StampOf(s[i]).Some? ==> StampOf(s[i]).value <= r.value)
      && (r.value == a || exists k :: 0 <= k < |s| && StampOf(s[k]) == r
                                     && forall j :: 0 <= j < k && StampOf(s[j]).Some? ==> StampOf(s[j]).value < r.value)
    decreases |s|
  {
    if s != [] {
      var a' := Later(Some(a), s[0]).value;
      LatestIsEarliestMaximum(s[1..], a');
      var r := Latest(s, Some(a));
      assert r == Latest(s[1..], Some(a'));
      forall i | 0 <= i < |s| && StampOf(s[i]).Some? ensures StampOf(s[i]).value <= r.value {
        if i > 0 {
          assert s[i] == s[1..][i - 1];
        }
      }
      if r.value != a {
        if r.value == a' {
          assert StampOf(s[0]) == r;
        } else {
          var k :| 0 <= k < |s[1..]| && StampOf(s[1..][k]) == r
                   && forall j :: 0 <= j < k && StampOf(s[1..][j]).Some? ==> StampOf(s[1..][j]).value < r.value;
          assert StampOf(s[k + 1]) == r;
          forall j | 0 <= j < k + 1 && StampOf(s[j]).Some? ensures StampOf(s[j]).value < r.value {
            if j > 0 {
              assert s[j] == s[1..][j - 1];
            }
          }
        }
      }
    }
  }

  /** `lastUpdated` is absent exactly for the empty store or an untimed first
      record; otherwise it is the latest time among the timed records, taken
      from the earliest record that reaches it. */
  lemma StatsLastUpdated(slot: Slot<Template>)
    ensures var s := GetAll(slot); var r := GetStats(slot);
      && (r.lastUpdated.None? <==> s == [] || StampOf(s[0]).None?)
      && (r.lastUpdated.Some? ==>
            && (forall i :: 0 <= i < |s| && StampOf(s[i]).Some? ==> StampOf(s[i]).value <= r.lastUpdated.value)
            && exists k :: 0 <= k < |s| && StampOf(s[k]) == r.lastUpdated
                         && forall j :: 0 <= j < k && StampOf(s[j]).Some? ==> StampOf(s[j]).value < r.lastUpdated.value)
  {
    var s := GetAll(slot);
    if s != [] {
      if StampOf(s[0]).Some? {
        LatestIsEarliestMaximum(s, StampOf(s[0]).value);
        var r := GetStats(slot);
        if r.lastUpdated.value == StampOf(s[0]).value {
          assert StampOf(s[0]) == r.lastUpdated;
        }
      } else {
        LatestFromMissing(s);
      }
    }
  }

  /** A missing seed time never gets replaced. */
  lemma {:induction false} LatestFromMissing(s: seq<Template>)
    ensures Latest(s, None) == None
    decreases |s|
  {
    if s != [] {
      LatestFromMissing(s[1..]);
    }
  }

  /** When the first record has neither timestamp, `lastUpdated` is missing
      however the other records are timed. */
  lemma StatsUntimedFirstRecord(slot: Slot<Template>)
    requires GetAll(slot) != [] && StampOf(GetAll(slot)[0]).None?
    ensures GetStats(slot).lastUpdated.None?
  {
    LatestFromMissing(GetAll(slot));
  }
}
