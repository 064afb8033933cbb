/**
  What one pass of `runProblemsIndexer` over the fetched records does,
  stated without the loop: which ids enter the membership map and which
  records are handed to the index, in which order.
 */
module Refresh {

  /** A problem record as the store returns it; `name` stands for every field passed through to the index. */
  datatype Record = Record(id: string, name: string, imported: bool)

  /** The ids of the imported records of `rs`. */
  function ImportedIds(rs: seq<Record>): set<string>
  {
    set r | r in rs && r.imported :: r.id
  }

  /** The ids of `rs`. */
  function Ids(rs: seq<Record>): set<string>
  {
    set r | r in rs :: r.id
  }

  /** No two records of `rs` share an id. */
  predicate DistinctIds(rs: seq<Record>)
  {
    forall a, b :: 0 <= a < b < |rs| ==> rs[a].id != rs[b].id
  }

  /**
    Record `i` of `rs` is indexed by a pass that starts from the membership
    set `known`: it is imported, its id is not known yet, and it is the first
    imported record of `rs` with that id.
   */
  predicate IsFirstNew(known: set<string>, rs: seq<Record>, i: nat)
    requires i < |rs|
  {
    rs[i].imported && rs[i].id !in known &&
    forall j :: 0 <= j < i ==> !(rs[j].imported && rs[j].id == rs[i].id)
  }

  /** The positions of `rs` that a pass starting from `known` hands to the index, in ascending order. */
  function NewPositions(known: set<string>, rs: seq<Record>): (p: seq<nat>)
    ensures forall k :: 0 <= k < |p| ==> p[k] < |rs|
  {
    if rs == [] then []
    else
      var n := |rs| - 1;
      NewPositions(known, rs[..n]) + (if IsFirstNew(known, rs, n) then [n] else [])
  }

  /** The records a pass starting from `known` hands to the index, in the order it hands them. */
  function NewEntries(known: set<string>, rs: seq<Record>): (e: seq<Record>)
  {
    var p := NewPositions(known, rs);
    seq(|p|, k requires 0 <= k < |p| => rs[p[k]])
  }

  lemma FirstNewOfPrefix(known: set<string>, rs: seq<Record>, n: nat, i: nat)
    requires i < n <= |rs|
    ensures IsFirstNew(known, rs[..n], i) == IsFirstNew(known, rs, i)
  {
  }

  /**
    The positions a pass indexes are strictly ascending, and position `i` is
    among them exactly when record `i` is the first imported, not yet known
    occurrence of its id.
   */
  lemma {:induction false} NewPositionsSpec(known: set<string>, rs: seq<Record>)
    ensures var p := NewPositions(known, rs);
      (forall a, b :: 0 <= a < b < |p| ==> p[a] < p[b]) &&
      (forall i :: 0 <= i < |rs| ==> (i in p <==> IsFirstNew(known, rs, i)))
  {
    if rs != [] {
      var n := |rs| - 1;
      NewPositionsSpec(known, rs[..n]);
      forall i | 0 <= i < n {
        FirstNewOfPrefix(known, rs, n, i);
      }
    }
  }

  /** The k-th record handed to the index is the record at the k-th new position. */
  lemma NewEntriesAt(known: set<string>, rs: seq<Record>, k: nat)
    requires k < |NewPositions(known, rs)|
    ensures |NewEntries(known, rs)| == |NewPositions(known, rs)|
    ensures NewEntries(known, rs)[k] == rs[NewPositions(known, rs)[k]]
  {
  }

  /** One more record at the end of the fetched sequence: the pass indexes it or not, and the rest is unchanged. */
  lemma {:induction false} NewEntriesStep(known: set<string>, rs: seq<Record>, i: nat)
    requires i < |rs|
    ensures NewPositions(known, rs[..i + 1]) ==
            NewPositions(known, rs[..i]) + (if IsFirstNew(known, rs, i) then [i] else [])
    ensures NewEntries(known, rs[..i + 1]) ==
            NewEntries(known, rs[..i]) + (if IsFirstNew(known, rs, i) then [rs[i]] else [])
  {
    var next := rs[..i + 1];
    assert next[..i] == rs[..i];
    FirstNewOfPrefix(known, rs, i + 1, i);
    var p := NewPositions(known, rs[..i]);
    var p' := NewPositions(known, next);
    assert p' == p + (if IsFirstNew(known, rs, i) then [i] else []);
    var e, e' := NewEntries(known, rs[..i]), NewEntries(known, next);
    var tail := if IsFirstNew(known, rs, i) then [rs[i]] else [];
    assert |e'| == |e + tail|;
    forall k | 0 <= k < |e'|
      ensures e'[k] == (e + tail)[k]
    {
      if k < |p| {
        assert p[k] < i;
      }
    }
  }

  /** Record `i` is indexed exactly when it is imported and its id is neither known nor indexed earlier in the pass. */
  lemma FirstNewIffUnseen(known: set<string>, rs: seq<Record>, i: nat)
    requires i < |rs|
    ensures IsFirstNew(known, rs, i) <==>
            rs[i].imported && rs[i].id !in known + ImportedIds(rs[..i])
  {
    if rs[i].id in ImportedIds(rs[..i]) {
      var r :| r in rs[..i] && r.imported && r.id == rs[i].id;
      var j :| 0 <= j < i && rs[..i][j] == r;
      assert rs[j] == r;
    }
  }

  lemma ImportedIdsStep(rs: seq<Record>, i: nat)
    requires i < |rs|
    ensures ImportedIds(rs[..i + 1]) ==
            ImportedIds(rs[..i]) + (if rs[i].imported then {rs[i].id} else {})
  {
    assert rs[..i + 1] == rs[..i] + [rs[i]];
  }

  /** Every record a pass hands to the index is imported and one of the fetched records. */
  lemma NewEntriesFromImported(known: set<string>, rs: seq<Record>)
    ensures forall e :: e in NewEntries(known, rs) ==> e.imported && e in rs
  {
    NewPositionsSpec(known, rs);
    var p := NewPositions(known, rs);
    forall e | e in NewEntries(known, rs)
      ensures e.imported && e in rs
    {
      var k :| 0 <= k < |p| && NewEntries(known, rs)[k] == e;
      assert p[k] in p;
    }
  }

  /**
    A pass hands each id to the index at most once, never an id that was
    known before, and exactly the imported ids that were not known.
   */
  lemma NewEntriesIds(known: set<string>, rs: seq<Record>)
    ensures DistinctIds(NewEntries(known, rs))
    ensures Ids(NewEntries(known, rs)) == ImportedIds(rs) - known
  {
    NewPositionsSpec(known, rs);
    var p := NewPositions(known, rs);
    var e := NewEntries(known, rs);
    forall a, b | 0 <= a < b < |e|
      ensures e[a].id != e[b].id
    {
      assert p[a] in p && p[b] in p;
      assert IsFirstNew(known, rs, p[b]);
    }
    forall id | id in Ids(e)
      ensures id in ImportedIds(rs) - known
    {
      var r :| r in e && r.id == id;
      var k :| 0 <= k < |e| && e[k] == r;
      assert p[k] in p;
    }
    forall id | id in ImportedIds(rs) - known
      ensures id in Ids(e)
    {
      var i := FirstImported(rs, id);
      assert IsFirstNew(known, rs, i);
      var k :| 0 <= k < |p| && p[k] == i;
      assert e[k] == rs[i];
    }
  }

  /** The position of the first imported record of `rs` with id `id`. */
  lemma FirstImported(rs: seq<Record>, id: string) returns (i: nat)
    requires id in ImportedIds(rs)
    ensures i < |rs| && rs[i].imported && rs[i].id == id
    ensures forall j :: 0 <= j < i ==> !(rs[j].imported && rs[j].id == id)
  {
    var r :| r in rs && r.imported && r.id == id;
    var w :| 0 <= w < |rs| && rs[w] == r;
    i := 0;
    while !(rs[i].imported && rs[i].id == id)
      invariant i <= w
      invariant forall j :: 0 <= j < i ==> !(rs[j].imported && rs[j].id == id)
      decreases w - i
    {
      i := i + 1;
    }
  }

  /** A pass over records none of which is a first new occurrence hands nothing to the index. */
  lemma {:induction false} NothingNewNoPositions(known: set<string>, rs: seq<Record>)
    requires forall i :: 0 <= i < |rs| ==> !IsFirstNew(known, rs, i)
    ensures NewPositions(known, rs) == []
  {
    if rs != [] {
      var n := |rs| - 1;
      forall i | 0 <= i < n
        ensures !IsFirstNew(known, rs[..n], i)
      {
        FirstNewOfPrefix(known, rs, n, i);
      }
      NothingNewNoPositions(known, rs[..n]);
    }
  }

  /** Once the imported ids of `rs` are known, another pass over `rs` hands nothing to the index. */
  lemma SecondPassIndexesNothing(known: set<string>, rs: seq<Record>)
    ensures NewPositions(known + ImportedIds(rs), rs) == []
    ensures NewEntries(known + ImportedIds(rs), rs) == []
  {
    var k2 := known + ImportedIds(rs);
    NewPositionsSpec(k2, rs);
    forall i | 0 <= i < |rs|
      ensures !IsFirstNew(k2, rs, i)
    {
      assert rs[i] in rs;
    }
    NothingNewNoPositions(k2, rs);
  }

  /** The fetched sequence of the scenarios below. */
  function ScenarioRecords(): seq<Record>
  {
    [Record("1", "Two Sum", true), Record("2", "Two Pointers", true),
     Record("3", "Graph BFS", false), Record("1", "Two Sum (copy)", true)]
  }

  /**
    Two imported records, one that is not, and a later duplicate of the first
    id: a first pass indexes records 0 and 1, in fetched order, and skips the
    duplicate although it carries a different record.
   */
  lemma PassScenario()
    ensures NewPositions({}, ScenarioRecords()) == [0, 1]
    ensures NewEntries({}, ScenarioRecords()) == [ScenarioRecords()[0], ScenarioRecords()[1]]
  {
    var rs := ScenarioRecords();
    ScenarioPositions(rs);
    NewEntriesAt({}, rs, 0);
    NewEntriesAt({}, rs, 1);
  }

  lemma ScenarioPositions(rs: seq<Record>)
    requires rs == ScenarioRecords()
    ensures NewPositions({}, rs) == [0, 1]
  {
    assert rs[..0] == [] && rs[..4] == rs;
    assert NewPositions({}, rs[..1]) == [0] by {
      NewEntriesStep({}, rs, 0);
    }
    assert NewPositions({}, rs[..2]) == [0, 1] by {
      NewEntriesStep({}, rs, 1);
    }
    assert NewPositions({}, rs[..3]) == [0, 1] by {
      NewEntriesStep({}, rs, 2);
    }
    assert !IsFirstNew({}, rs, 3) by {
      assert rs[0].imported && rs[0].id == rs[3].id;
    }
    NewEntriesStep({}, rs, 3);
  }

  /** The imported ids of the scenario are 1 and 2; record 3 is not imported. */
  lemma ScenarioMembership()
    ensures ImportedIds(ScenarioRecords()) == {"1", "2"}
  {
    var rs := ScenarioRecords();
    assert rs[0] in rs && rs[1] in rs;
    assert forall r :: r in rs && r.imported ==> r.id == "1" || r.id == "2";
  }
}
