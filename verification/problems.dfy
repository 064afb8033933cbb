/**
  The controller's state: the `problems` membership map, filled by
  `runProblemsIndexer`, and the records it has handed to the search index
  with `addProblem`. The index library itself is abstract: `entries` is the
  sequence of `addProblem` calls made so far.
 */
module Problems {
  import opened JsValues
  import opened Refresh

  /** Outcome of the store's `Problem.find({})`. */
  datatype Fetch = Fetched(records: seq<Record>) | FetchFailed

  /** `problems[id]` holds a truthy own value: the id is in the membership map. */
  predicate Member(problems: map<string, bool>, id: string)
  {
    id in problems && problems[id]
  }

  /**
    What `isIndexed(input)` promises: the input is an array and each of its
    string elements is a member; elements of other types are not looked at.
   */
  predicate AllIndexed(problems: map<string, bool>, input: JsValue)
  {
    input.Arr? &&
    forall i :: 0 <= i < |input.elems| && input.elems[i].Str? ==> Member(problems, input.elems[i].s)
  }

  /**
    The names an object literal inherits from Object.prototype. Reading any
    of them from `problems` yields a function or an object, which is truthy.
   */
  const ObjectPrototypeMembers: set<string> := {
    "constructor", "hasOwnProperty", "isPrototypeOf", "propertyIsEnumerable",
    "toLocaleString", "toString", "valueOf", "__proto__",
    "__defineGetter__", "__defineSetter__", "__lookupGetter__", "__lookupSetter__"
  }

  /** The truthiness of `problems[key]` on a plain object: the own value if there is one, else the inherited member. */
  predicate PlainObjectTruthy(problems: map<string, bool>, key: string)
  {
    if key in problems then problems[key] else key in ObjectPrototypeMembers
  }

  /** What `isIndexed` computes as written, with the inherited members of `problems` in play. */
  predicate AllIndexedAsWritten(problems: map<string, bool>, input: JsValue)
  {
    input.Arr? &&
    forall i :: 0 <= i < |input.elems| && input.elems[i].Str? ==> PlainObjectTruthy(problems, input.elems[i].s)
  }

  /**
    The map only ever holds `true`; its keys are exactly the ids handed to
    the index; every record handed over was imported; no id was handed over twice.
   */
  ghost predicate Consistent(problems: map<string, bool>, entries: seq<Record>)
  {
    (forall id :: id in problems ==> problems[id]) &&
    problems.Keys == Ids(entries) &&
    (forall k :: 0 <= k < |entries| ==> entries[k].imported) &&
    DistinctIds(entries)
  }

  /** Adding an imported record whose id is not a member keeps the map and the index consistent. */
  lemma AddKeepsConsistent(problems: map<string, bool>, entries: seq<Record>, item: Record)
    requires Consistent(problems, entries)
    requires item.imported && item.id !in problems
    ensures Consistent(problems[item.id := true], entries + [item])
  {
    var e := entries + [item];
    assert Ids(e) == Ids(entries) + {item.id} by {
      assert forall r :: r in e <==> r in entries || r == item;
    }
    forall a, b | 0 <= a < b < |e|
      ensures e[a].id != e[b].id
    {
      if b == |entries| {
        assert e[a] in entries;
      }
    }
  }

  class ProblemIndex {
    var problems: map<string, bool>
    var entries: seq<Record>

    /** The state invariant, `Consistent`, of this index. */
    ghost predicate Valid()
      reads this
    {
      Consistent(problems, entries)
    }

    /** `let problems = {}` at module load, with an empty index. */
    constructor ()
      ensures Valid()
      ensures problems == map[] && entries == []
    {
      problems := map[];
      entries := [];
    }

    /** One run of the cron job: a failed fetch ends the run and changes nothing. */
    method RunProblemsIndexer(fetch: Fetch)
      requires Valid()
      modifies this
      ensures Valid()
      ensures fetch.FetchFailed? ==> problems == old(problems) && entries == old(entries)
      ensures fetch.Fetched? ==>
        problems.Keys == old(problems.Keys) + ImportedIds(fetch.records) &&
        entries == old(entries) + NewEntries(old(problems.Keys), fetch.records)
    {
      match fetch
      case FetchFailed =>
      case Fetched(records) => IndexRecords(records);
    }

    /**
      The `eachSeries` loop: each imported record whose id is not yet in the
      map enters the map and is handed to the index.
     */
    method IndexRecords(fetched: seq<Record>)
      requires Valid()
      modifies this
      ensures Valid()
      ensures old(problems.Keys) <= problems.Keys
      ensures problems.Keys == old(problems.Keys) + ImportedIds(fetched)
      ensures forall r :: r in fetched && r.imported ==> r.id in problems
      ensures entries == old(entries) + NewEntries(old(problems.Keys), fetched)
    {
      ghost var known := problems.Keys;
      ghost var before := entries;
      for i := 0 to |fetched|
        invariant Valid()
        invariant problems.Keys == known + ImportedIds(fetched[..i])
        invariant entries == before + NewEntries(known, fetched[..i])
      {
        var item := fetched[i];
        FirstNewIffUnseen(known, fetched, i);
        NewEntriesStep(known, fetched, i);
        ImportedIdsStep(fetched, i);
        if !Member(problems, item.id) && item.imported {
          AddKeepsConsistent(problems, entries, item);
          problems := problems[item.id := true];
          entries := entries + [item];
        }
      }
      assert fetched[..|fetched|] == fetched;
    }

    /** `isIndexed`: false for a non-array, false at the first string id missing from the map, true otherwise. */
    method IsIndexed(input: JsValue) returns (r: bool)
      ensures r == AllIndexed(problems, input)
    {
      if !input.Arr? {
        return false;
      }
      var a := input.elems;
      for i := 0 to |a|
        invariant forall j :: 0 <= j < i && a[j].Str? ==> Member(problems, a[j].s)
      {
        var id := a[i];
        if id.Str? && !Member(problems, id.s) {
          return false;
        }
      }
      return true;
    }

    /** `isIndexed` exactly as written: `!problems[id]` also consults what the object inherits. */
    method IsIndexedAsWritten(input: JsValue) returns (r: bool)
      ensures r == AllIndexedAsWritten(problems, input)
    {
      if !input.Arr? {
        return false;
      }
      var a := input.elems;
      for i := 0 to |a|
        invariant forall j :: 0 <= j < i && a[j].Str? ==> PlainObjectTruthy(problems, a[j].s)
      {
        var id := a[i];
        if id.Str? && !PlainObjectTruthy(problems, id.s) {
          return false;
        }
      }
      return true;
    }
  }

  /** On an empty index, the code as written accepts ["toString"], which names no indexed problem. */
  lemma InheritedNameCounterexample()
    ensures AllIndexedAsWritten(map[], Arr([Str("toString")]))
    ensures !AllIndexed(map[], Arr([Str("toString")]))
  {
    assert Arr([Str("toString")]).elems[0] == Str("toString");
  }

  /**
    The as-written check and the intended one differ only on string elements
    that name an inherited member and are not keys of the map.
   */
  lemma AsWrittenAgreesOffPrototype(problems: map<string, bool>, input: JsValue)
    requires input.Arr?
    requires forall i :: 0 <= i < |input.elems| && input.elems[i].Str? ==>
               input.elems[i].s in problems || input.elems[i].s !in ObjectPrototypeMembers
    ensures AllIndexedAsWritten(problems, input) == AllIndexed(problems, input)
  {
  }

  /** In a valid state an id is a member exactly when a record with that id was handed to the index. */
  lemma MemberIffEntry(idx: ProblemIndex, id: string)
    requires idx.Valid()
    ensures Member(idx.problems, id) <==> exists k :: 0 <= k < |idx.entries| && idx.entries[k].id == id
  {
    if Member(idx.problems, id) {
      var r :| r in idx.entries && r.id == id;
      var k :| 0 <= k < |idx.entries| && idx.entries[k] == r;
    }
    if exists k :: 0 <= k < |idx.entries| && idx.entries[k].id == id {
      var k :| 0 <= k < |idx.entries| && idx.entries[k].id == id;
      assert idx.entries[k] in idx.entries;
    }
  }

  /** `isIndexed` answers false for anything that is not an array. */
  lemma NonArrayNotIndexed(problems: map<string, bool>, input: JsValue)
    requires !input.Arr?
    ensures !AllIndexed(problems, input)
  {
  }

  /** Elements that are not strings do not affect `isIndexed`; [] and all-non-string arrays pass. */
  lemma {:induction false} NonStringsIgnored(problems: map<string, bool>, xs: seq<JsValue>, ys: seq<JsValue>)
    requires forall i :: 0 <= i < |ys| ==> !ys[i].Str?
    ensures AllIndexed(problems, Arr(xs + ys)) == AllIndexed(problems, Arr(xs))
    ensures AllIndexed(problems, Arr(ys + xs)) == AllIndexed(problems, Arr(xs))
    ensures AllIndexed(problems, Arr(ys))
  {
    var l, r := xs + ys, ys + xs;
    assert forall i :: 0 <= i < |xs| ==> l[i] == xs[i] && r[|ys| + i] == xs[i];
    assert forall i :: |xs| <= i < |l| ==> l[i] == ys[i - |xs|];
    assert forall i :: 0 <= i < |ys| ==> r[i] == ys[i];
  }

  /**
    Two passes over the same fetched records leave the map and the index as
    the first left them.
   */
  method RefreshTwice(idx: ProblemIndex, fetched: seq<Record>)
    requires idx.Valid()
    modifies idx
    ensures idx.Valid()
    ensures idx.problems.Keys == old(idx.problems.Keys) + ImportedIds(fetched)
    ensures idx.entries == old(idx.entries) + NewEntries(old(idx.problems.Keys), fetched)
  {
    idx.IndexRecords(fetched);
    ghost var log := idx.entries;
    idx.IndexRecords(fetched);
    SecondPassIndexesNothing(old(idx.problems.Keys), fetched);
    assert idx.entries == log;
  }

  /**
    The scenario of `Refresh.PassScenario` run on a fresh index: afterwards
    ids 1 and 2 are members, id 3 (not imported) is not, and `addProblem`
    was called for records 0 and 1 only, in that order.
   */
  method ScenarioFromEmpty() returns (keys: set<string>, log: seq<Record>)
    ensures keys == {"1", "2"}
    ensures log == [ScenarioRecords()[0], ScenarioRecords()[1]]
  {
    var idx := new ProblemIndex();
    assert idx.problems.Keys == {};
    idx.IndexRecords(ScenarioRecords());
    PassScenario();
    ScenarioMembership();
    assert idx.entries == [] + NewEntries({}, ScenarioRecords());
    keys, log := idx.problems.Keys, idx.entries;
  }
}
