/** The worksheet store (src/lib/storage.ts). The browser's local storage and
    its JSON encoding are replaced by a sequence of records held in a `Store`
    object; fresh ids and the current time are parameters. */
module Storage {
  import opened Types

  /** A question field as a stored record may hold it: a list (the current
      format), a single string (the legacy format), or nothing at all. */
  datatype RawField = List(items: seq<string>) | Text(s: string) | Absent

  /** A record as read back from storage, before migration. */
  datatype RawWorksheet = RawWorksheet(
    id: string,
    createdAt: string,
    updatedAt: string,
    status: Status,
    question1: RawField,
    question2: RawField,
    question3: RawField,
    question4: RawField,
    question5: RawField,
    question6: RawField,
    sentences: seq<SentenceInquiry>)
  {
    function Field(k: int): RawField
      requires 1 <= k <= 6
    {
      if k == 1 then question1 else if k == 2 then question2 else if k == 3 then question3
      else if k == 4 then question4 else if k == 5 then question5 else question6
    }
  }

  /** `Array.isArray(v) ? v : [v || '']` */
  function MigrateField(f: RawField): seq<string>
  {
    match f
    case List(items) => items
    case Text(s) => [s]
    case Absent => [""]
  }

  /** `migrateWorksheet`: every question field becomes a list; a list is kept
      as it is, a legacy string `v` becomes `[v]` and a missing field `['']`;
      every other field is carried over. */
  function MigrateWorksheet(raw: RawWorksheet): (r: Worksheet)
    ensures forall k :: 1 <= k <= 6 && raw.Field(k).List? ==> r.Question(k) == raw.Field(k).items
    ensures forall k :: 1 <= k <= 6 && raw.Field(k).Text? ==> r.Question(k) == [raw.Field(k).s]
    ensures forall k :: 1 <= k <= 6 && raw.Field(k).Absent? ==> r.Question(k) == [""]
    ensures r.id == raw.id && r.createdAt == raw.createdAt && r.updatedAt == raw.updatedAt
    ensures r.status == raw.status && r.sentences == raw.sentences
  {
    Worksheet(raw.id, raw.createdAt, raw.updatedAt, raw.status,
      MigrateField(raw.question1), MigrateField(raw.question2), MigrateField(raw.question3),
      MigrateField(raw.question4), MigrateField(raw.question5), MigrateField(raw.question6),
      raw.sentences)
  }

  /** A current-format record as it is written to storage. */
  function ToRaw(w: Worksheet): RawWorksheet
  {
    RawWorksheet(w.id, w.createdAt, w.updatedAt, w.status,
      List(w.question1), List(w.question2), List(w.question3),
      List(w.question4), List(w.question5), List(w.question6), w.sentences)
  }

  /** Migration leaves a record already in the current format unchanged, so
      reading back what was written gives the record itself. */
  lemma MigrateRoundTrip(w: Worksheet)
    ensures MigrateWorksheet(ToRaw(w)) == w
  {
  }

  /** After migration a field is a non-empty list unless it was stored as an
      empty list. */
  lemma MigratedFieldsNonEmpty(raw: RawWorksheet, k: int)
    requires 1 <= k <= 6
    requires raw.Field(k) != List([])
    ensures |MigrateWorksheet(raw).Question(k)| >= 1
  {
  }

  /** `all.findIndex(w => w.id === id)` */
  function FindIndex(all: seq<Worksheet>, id: string): (r: int)
    ensures -1 <= r < |all|
    ensures r >= 0 ==> all[r].id == id && forall j :: 0 <= j < r ==> all[j].id != id
    ensures r == -1 ==> forall j :: 0 <= j < |all| ==> all[j].id != id
  {
    if all == [] then -1
    else if all[0].id == id then 0
    else
      var k := FindIndex(all[1..], id);
      if k < 0 then -1 else k + 1
  }

  /** `getById`: `all.find(w => w.id === id) || null` */
  function GetById(all: seq<Worksheet>, id: string): (r: Option<Worksheet>)
    ensures FindIndex(all, id) < 0 ==> r == None
    ensures FindIndex(all, id) >= 0 ==> r == Some(all[FindIndex(all, id)])
  {
    if all == [] then None
    else if all[0].id == id then Some(all[0])
    else GetById(all[1..], id)
  }

  /** The sequence `save` writes back: the record stamped with `now` replaces
      the first record with its id, or is appended when there is none. */
  function Saved(all: seq<Worksheet>, w: Worksheet, now: string): (r: seq<Worksheet>)
    ensures |r| == |all| || |r| == |all| + 1
    ensures w.(updatedAt := now) in r
    ensures forall j :: 0 <= j < |all| && all[j].id != w.id ==> r[j] == all[j]
    ensures FindIndex(all, w.id) >= 0 ==> |r| == |all| && r[FindIndex(all, w.id)] == w.(updatedAt := now)
    ensures FindIndex(all, w.id) < 0 ==> r == all + [w.(updatedAt := now)]
    ensures forall j :: 0 <= j < |all| && j != FindIndex(all, w.id) ==> r[j] == all[j]
  {
    var index := FindIndex(all, w.id);
    var stamped := w.(updatedAt := now);
    if index >= 0 then
      var r := all[index := stamped];
      assert r[index] == stamped;
      r
    else all + [stamped]
  }

  /** The sequence `delete` writes back: every record with that id is dropped. */
  function Deleted(all: seq<Worksheet>, id: string): (r: seq<Worksheet>)
    ensures forall x :: x in r ==> x in all && x.id != id
    ensures forall x :: x in all && x.id != id ==> x in r
  {
    Filter(all, (w: Worksheet) => w.id != id)
  }

  /** `create`: a blank in-progress record whose six lists each hold one empty
      entry and which has no sentences. */
  function Create(id: string, createdAt: string, updatedAt: string): (r: Worksheet)
    ensures r.id == id && r.createdAt == createdAt && r.updatedAt == updatedAt
    ensures r.status == InProgress
    ensures forall k :: 1 <= k <= 6 ==> r.Question(k) == [""]
    ensures r.sentences == []
  {
    Worksheet(id, createdAt, updatedAt, InProgress, [""], [""], [""], [""], [""], [""], [])
  }

  /** Round trip: after `save(w)`, `getById(w.id)` returns `w` carrying the new
      timestamp. */
  lemma SaveThenGet(all: seq<Worksheet>, w: Worksheet, now: string)
    ensures GetById(Saved(all, w, now), w.id) == Some(w.(updatedAt := now))
  {
    var r := Saved(all, w, now);
    var i := FindIndex(all, w.id);
    var target := if i >= 0 then i else |all|;
    assert r[target] == w.(updatedAt := now);
    assert forall j :: 0 <= j < target ==> r[j] == all[j];
    assert FindIndex(r, w.id) == target;
  }

  /** `save(w)` leaves what `getById` returns for every other id unchanged. */
  lemma SaveKeepsOthers(all: seq<Worksheet>, w: Worksheet, now: string, id: string)
    requires id != w.id
    ensures GetById(Saved(all, w, now), id) == GetById(all, id)
  {
    var r := Saved(all, w, now);
    var i := FindIndex(all, w.id);
    var k := FindIndex(all, id);
    if k >= 0 {
      assert r[k] == all[k];
      assert FindIndex(r, id) == k;
    } else {
      assert forall j :: 0 <= j < |r| ==> r[j].id != id by {
        forall j | 0 <= j < |r| ensures r[j].id != id {
          if j < |all| && all[j].id != w.id {
            assert r[j] == all[j];
          }
        }
      }
    }
  }

  /** After `delete(id)`, `getById(id)` finds nothing, and every other id is
      found exactly as before. */
  lemma {:induction false} DeleteThenGet(all: seq<Worksheet>, id: string, other: string)
    ensures GetById(Deleted(all, id), id) == None
    ensures other != id ==> GetById(Deleted(all, id), other) == GetById(all, other)
  {
    if all != [] {
      DeleteThenGet(all[1..], id, other);
      var rest := Deleted(all[1..], id);
      if all[0].id == id {
        assert Deleted(all, id) == rest;
      } else {
        var d := [all[0]] + rest;
        assert Deleted(all, id) == d;
        assert d[1..] == rest;
      }
    }
  }

  /** `delete` keeps the remaining records in their order. */
  lemma DeleteKeepsOrder(all: seq<Worksheet>, id: string)
    ensures IsSubsequence(Deleted(all, id), all)
    ensures forall w :: w in all && w.id != id ==> w in Deleted(all, id)
    ensures forall w :: multiset(Deleted(all, id))[w] == if w.id != id then multiset(all)[w] else 0
  {
    FilterIsSubsequence(all, (w: Worksheet) => w.id != id);
    FilterMultiplicity(all, (w: Worksheet) => w.id != id);
  }

  /** The persisted records. `save` stamps the record it is given; in the
      source that stamp is written into the caller's own object, here it is
      returned. */
  class Store {
    var records: seq<Worksheet>

    constructor (initial: seq<Worksheet>)
      ensures records == initial
    {
      records := initial;
    }

    /** `save` */
    method Save(w: Worksheet, now: string) returns (stamped: Worksheet)
      modifies this
      ensures stamped == w.(updatedAt := now)
      ensures records == Saved(old(records), w, now)
    {
      var index := FindIndex(records, w.id);
      stamped := w.(updatedAt := now);
      if index >= 0 {
        records := records[index := stamped];
      } else {
        records := records + [stamped];
      }
    }

    /** `delete` */
    method Delete(id: string)
      modifies this
      ensures records == Deleted(old(records), id)
    {
      records := Filter(records, (w: Worksheet) => w.id != id);
    }
  }
}
