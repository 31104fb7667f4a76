/**
  The registry of live engines: an insertion-ordered map from session id to engine, guarded by
  engine identity. What it is for is proved over traces: whatever the operations on all sessions
  do, each session behaves as a cell of its own, and a superseded engine can no longer touch the
  cell of its session.
 */
module EngineRegistries {
  import opened Options
  import opened OrderedSets

  // ---------------------------------------------------------------- the map

  /** A JavaScript `Map`: its entries in insertion order. */
  type Entries<E> = seq<(string, E)>

  ghost predicate Unique<E>(entries: Entries<E>) {
    forall i, j :: 0 <= i < j < |entries| ==> entries[i].0 != entries[j].0
  }

  /** Position of an id; the number of entries when it is absent. */
  function Find<E>(entries: Entries<E>, id: string): (i: nat)
    ensures i <= |entries|
    ensures i < |entries| ==> entries[i].0 == id
    ensures forall j :: 0 <= j < i ==> entries[j].0 != id
  {
    if entries == [] || entries[0].0 == id then 0 else 1 + Find(entries[1..], id)
  }

  function Lookup<E>(entries: Entries<E>, id: string): Option<E> {
    var i := Find(entries, id);
    if i < |entries| then Some(entries[i].1) else None
  }

  /** `Map.set`: a new id goes last, a known one keeps its place. */
  function Put<E>(entries: Entries<E>, id: string, engine: E): Entries<E> {
    var i := Find(entries, id);
    if i < |entries| then entries[i := (id, engine)] else entries + [(id, engine)]
  }

  /** `Map.delete` */
  function Remove<E>(entries: Entries<E>, id: string): Entries<E> {
    var i := Find(entries, id);
    if i < |entries| then entries[..i] + entries[i + 1..] else entries
  }

  predicate IsLive<E(==)>(entries: Entries<E>, id: string, engine: E) {
    Lookup(entries, id) == Some(engine)
  }

  lemma LookupIs<E>(entries: Entries<E>, i: nat)
    requires Unique(entries) && i < |entries|
    ensures Lookup(entries, entries[i].0) == Some(entries[i].1)
  {
    var j := Find(entries, entries[i].0);
    assert j <= i;
  }

  lemma LookupAfterPut<E>(entries: Entries<E>, id: string, engine: E, other: string)
    requires Unique(entries)
    ensures Unique(Put(entries, id, engine))
    ensures Lookup(Put(entries, id, engine), other) == if other == id then Some(engine) else Lookup(entries, other)
  {
    var after := Put(entries, id, engine);
    var i, k := Find(entries, id), Find(entries, other);
    assert after[i] == (id, engine);
    if other == id {
      LookupIs(after, i);
    } else if k < |entries| {
      assert after[k] == entries[k];
      LookupIs(after, k);
    }
  }

  lemma LookupAfterRemove<E>(entries: Entries<E>, id: string, other: string)
    requires Unique(entries)
    ensures Unique(Remove(entries, id))
    ensures Lookup(Remove(entries, id), other) == if other == id then None else Lookup(entries, other)
  {
    var after := Remove(entries, id);
    var i, k := Find(entries, id), Find(entries, other);
    assert forall j :: 0 <= j < |after| ==> after[j] == entries[if j < i then j else j + 1];
    if other != id && k < |entries| {
      var k' := if k < i then k else k - 1;
      assert after[k'] == entries[k];
      LookupIs(after, k');
    }
  }

  // ---------------------------------------------------------------- traces

  datatype Op<E> =
    | Set(id: string, engine: E)
    | Delete(id: string)
    | Clear
    | DeleteIfLive(id: string, engine: E)

  function Apply<E(==)>(entries: Entries<E>, op: Op<E>): Entries<E> {
    match op
    case Set(id, engine) => Put(entries, id, engine)
    case Delete(id) => Remove(entries, id)
    case Clear => []
    case DeleteIfLive(id, engine) => if IsLive(entries, id, engine) then Remove(entries, id) else entries
  }

  function ApplyAll<E(==)>(entries: Entries<E>, ops: seq<Op<E>>): Entries<E>
    decreases |ops|
  {
    if ops == [] then entries else ApplyAll(Apply(entries, ops[0]), ops[1..])
  }

  lemma {:induction false} ApplyAllConcat<E>(entries: Entries<E>, a: seq<Op<E>>, b: seq<Op<E>>)
    ensures ApplyAll(entries, a + b) == ApplyAll(ApplyAll(entries, a), b)
    decreases |a|
  {
    if a == [] {
      assert a + b == b;
    } else {
      assert (a + b)[1..] == a[1..] + b;
      ApplyAllConcat(Apply(entries, a[0]), a[1..], b);
    }
  }

  lemma ApplyAllStep<E>(entries: Entries<E>, ops: seq<Op<E>>, i: nat)
    requires i < |ops|
    ensures ApplyAll(entries, ops[..i + 1]) == Apply(ApplyAll(entries, ops[..i]), ops[i])
  {
    assert ops[..i + 1] == ops[..i] + [ops[i]];
    ApplyAllConcat(entries, ops[..i], [ops[i]]);
  }

  /** One session on its own: a cell that holds its engine, or nothing. */
  function CellStep<E(==)>(cell: Option<E>, id: string, op: Op<E>): Option<E> {
    match op
    case Set(i, engine) => if i == id then Some(engine) else cell
    case Delete(i) => if i == id then None else cell
    case Clear => None
    case DeleteIfLive(i, engine) => if i == id && cell == Some(engine) then None else cell
  }

  function CellAfter<E(==)>(cell: Option<E>, id: string, ops: seq<Op<E>>): Option<E>
    decreases |ops|
  {
    if ops == [] then cell else CellAfter(CellStep(cell, id, ops[0]), id, ops[1..])
  }

  lemma StepIsCellStep<E>(entries: Entries<E>, op: Op<E>, id: string)
    requires Unique(entries)
    ensures Unique(Apply(entries, op))
    ensures Lookup(Apply(entries, op), id) == CellStep(Lookup(entries, id), id, op)
  {
    match op
    case Set(i, engine) => LookupAfterPut(entries, i, engine, id);
    case Delete(i) => LookupAfterRemove(entries, i, id);
    case Clear =>
    case DeleteIfLive(i, engine) => LookupAfterRemove(entries, i, id);
  }

  /** Over every trace the registry is, for each session, the cell of that session. */
  lemma {:induction false} SessionsAreIndependentCells<E>(entries: Entries<E>, ops: seq<Op<E>>, id: string)
    requires Unique(entries)
    ensures Unique(ApplyAll(entries, ops))
    ensures Lookup(ApplyAll(entries, ops), id) == CellAfter(Lookup(entries, id), id, ops)
    decreases |ops|
  {
    if ops == [] {
    } else {
      StepIsCellStep(entries, ops[0], id);
      SessionsAreIndependentCells(Apply(entries, ops[0]), ops[1..], id);
    }
  }

  /**
    A superseded engine is inert: once it is not the live one and is never set again for its
    session, then after every trace it still is not live, and its teardown changes nothing.
   */
  lemma {:induction false} SupersededIsInert<E>(entries: Entries<E>, ops: seq<Op<E>>, id: string, engine: E)
    requires Unique(entries) && !IsLive(entries, id, engine)
    requires Set(id, engine) !in ops
    ensures !IsLive(ApplyAll(entries, ops), id, engine)
    ensures Apply(ApplyAll(entries, ops), DeleteIfLive(id, engine)) == ApplyAll(entries, ops)
    decreases |ops|
  {
    if ops == [] {
    } else {
      StepIsCellStep(entries, ops[0], id);
      SupersededIsInert(Apply(entries, ops[0]), ops[1..], id, engine);
    }
  }

  function Without<E(==)>(ops: seq<Op<E>>, gone: Op<E>): seq<Op<E>> {
    if ops == [] then []
    else (if ops[0] == gone then [] else [ops[0]]) + Without(ops[1..], gone)
  }

  /**
    Non-interference: striking every late teardown of a superseded engine from a trace leaves the
    same registry, entry for entry and in the same order, so no number of them evicts the
    replacement.
   */
  lemma {:induction false} LateTeardownsDoNothing<E>(entries: Entries<E>, ops: seq<Op<E>>, id: string, engine: E)
    requires Unique(entries) && !IsLive(entries, id, engine)
    requires Set(id, engine) !in ops
    ensures ApplyAll(entries, ops) == ApplyAll(entries, Without(ops, DeleteIfLive(id, engine)))
    decreases |ops|
  {
    if ops == [] {
    } else {
      StepIsCellStep(entries, ops[0], id);
      LateTeardownsDoNothing(Apply(entries, ops[0]), ops[1..], id, engine);
      var rest := Without(ops[1..], DeleteIfLive(id, engine));
      if ops[0] != DeleteIfLive(id, engine) {
        assert ([ops[0]] + rest)[1..] == rest;
      } else {
        assert [] + rest == rest;
      }
    }
  }

  /** The operations that take `engine` away from session `id`. */
  predicate Displaces<E(==)>(op: Op<E>, id: string, engine: E) {
    match op
    case Set(i, e) => i == id && e != engine
    case Delete(i) => i == id
    case Clear => true
    case DeleteIfLive(i, e) => i == id && e == engine
  }

  /** Nothing in the trace takes the engine away. */
  ghost predicate Spares<E>(ops: seq<Op<E>>, id: string, engine: E) {
    forall op :: op in ops ==> !Displaces(op, id, engine)
  }

  /** A live engine stays live as long as nothing displaces it. */
  lemma {:induction false} LiveUntilDisplaced<E>(entries: Entries<E>, ops: seq<Op<E>>, id: string, engine: E)
    requires Unique(entries) && IsLive(entries, id, engine)
    requires Spares(ops, id, engine)
    ensures IsLive(ApplyAll(entries, ops), id, engine)
    decreases |ops|
  {
    if ops == [] {
    } else {
      assert !Displaces(ops[0], id, engine);
      StepIsCellStep(entries, ops[0], id);
      LiveUntilDisplaced(Apply(entries, ops[0]), ops[1..], id, engine);
    }
  }

  // ---------------------------------------------------------------- sweeping a snapshot

  /** `interference[k]` is what everyone else does before pair `k` is torn down, the last one what comes afterwards. */
  ghost predicate Fits<E>(snapshot: Entries<E>, interference: seq<seq<Op<E>>>) {
    |interference| == |snapshot| + 1
  }

  function Teardown<E>(pair: (string, E)): Op<E> {
    DeleteIfLive(pair.0, pair.1)
  }

  /** A loop over the iterator that calls `deleteIfLive` on each pair, from pair `from` on, as one trace. */
  function SweepTrace<E>(snapshot: Entries<E>, interference: seq<seq<Op<E>>>, from: nat): seq<Op<E>>
    requires Fits(snapshot, interference) && from <= |snapshot|
    decreases |snapshot| - from
  {
    if from == |snapshot| then interference[from]
    else interference[from] + ([Teardown(snapshot[from])] + SweepTrace(snapshot, interference, from + 1))
  }

  lemma {:induction false} SweepTraceMembers<E>(
    snapshot: Entries<E>, interference: seq<seq<Op<E>>>, from: nat, op: Op<E>)
    requires Fits(snapshot, interference) && from <= |snapshot|
    requires op in SweepTrace(snapshot, interference, from)
    ensures (exists k :: from <= k < |interference| && op in interference[k])
            || (exists k :: from <= k < |snapshot| && op == Teardown(snapshot[k]))
    decreases |snapshot| - from
  {
    if from < |snapshot| && op !in interference[from] && op != Teardown(snapshot[from]) {
      SweepTraceMembers(snapshot, interference, from + 1, op);
    }
  }

  /** The registry after one iteration: what others do first, then the guarded teardown. */
  function AfterVisit<E(==)>(entries: Entries<E>, before: seq<Op<E>>, pair: (string, E)): Entries<E> {
    Apply(ApplyAll(entries, before), Teardown(pair))
  }

  lemma SweepUnfolds<E>(entries: Entries<E>, snapshot: Entries<E>, interference: seq<seq<Op<E>>>, from: nat)
    requires Fits(snapshot, interference) && from < |snapshot|
    ensures ApplyAll(entries, SweepTrace(snapshot, interference, from)) ==
            ApplyAll(AfterVisit(entries, interference[from], snapshot[from]),
                     SweepTrace(snapshot, interference, from + 1))
  {
    var rest := SweepTrace(snapshot, interference, from + 1);
    ApplyAllConcat(entries, interference[from], [Teardown(snapshot[from])] + rest);
    assert ([Teardown(snapshot[from])] + rest)[1..] == rest;
  }

  lemma VisitedIsGone<E>(entries: Entries<E>, before: seq<Op<E>>, pair: (string, E))
    requires Unique(entries)
    ensures Unique(AfterVisit(entries, before, pair))
    ensures !IsLive(AfterVisit(entries, before, pair), pair.0, pair.1)
  {
    SessionsAreIndependentCells(entries, before, pair.0);
    StepIsCellStep(ApplyAll(entries, before), Teardown(pair), pair.0);
  }

  /** After the sweep no visited engine is live, unless someone set it again after its visit. */
  lemma {:induction false} SweptEnginesAreGone<E>(
    entries: Entries<E>, snapshot: Entries<E>, interference: seq<seq<Op<E>>>, from: nat, visited: nat)
    requires Unique(entries) && Fits(snapshot, interference) && from <= visited < |snapshot|
    requires forall k :: visited < k < |interference| ==>
                           Set(snapshot[visited].0, snapshot[visited].1) !in interference[k]
    ensures !IsLive(ApplyAll(entries, SweepTrace(snapshot, interference, from)),
                    snapshot[visited].0, snapshot[visited].1)
    decreases visited - from
  {
    var next := AfterVisit(entries, interference[from], snapshot[from]);
    SweepUnfolds(entries, snapshot, interference, from);
    VisitedIsGone(entries, interference[from], snapshot[from]);
    if from < visited {
      SweptEnginesAreGone(next, snapshot, interference, from + 1, visited);
    } else {
      var (id, engine) := snapshot[visited];
      var rest := SweepTrace(snapshot, interference, from + 1);
      if Set(id, engine) in rest {
        SweepTraceMembers(snapshot, interference, from + 1, Set(id, engine));
        assert false;
      }
      SupersededIsInert(next, rest, id, engine);
    }
  }

  lemma SplitAt<T>(s: seq<T>, m: nat, tail: seq<T>)
    requires m < |s|
    ensures s + tail == s[..m] + ([s[m]] + (s[m + 1..] + tail))
  {
  }

  lemma TailSpares<E>(snapshot: Entries<E>, interference: seq<seq<Op<E>>>, k: nat, id: string, engine: E)
    requires Fits(snapshot, interference) && k <= |snapshot|
    requires forall j :: k <= j < |interference| ==> Spares(interference[j], id, engine)
    requires forall j :: k <= j < |snapshot| ==> snapshot[j] != (id, engine)
    ensures Spares(SweepTrace(snapshot, interference, k), id, engine)
  {
    forall op | op in SweepTrace(snapshot, interference, k) ensures !Displaces(op, id, engine) {
      SweepTraceMembers(snapshot, interference, k, op);
    }
  }

  /** What is left of a sweep after operation `m` of `interference[k]` spares the engine too. */
  lemma RestOfSweep<E>(
    snapshot: Entries<E>, interference: seq<seq<Op<E>>>, k: nat, m: nat, id: string, engine: E)
    returns (rest: seq<Op<E>>)
    requires Fits(snapshot, interference) && k <= |snapshot| && m < |interference[k]|
    requires Spares(interference[k][m + 1..], id, engine)
    requires forall j :: k < j < |interference| ==> Spares(interference[j], id, engine)
    requires forall j :: k <= j < |snapshot| ==> snapshot[j] != (id, engine)
    ensures SweepTrace(snapshot, interference, k) == interference[k][..m] + ([interference[k][m]] + rest)
    ensures Spares(rest, id, engine)
  {
    var tail: seq<Op<E>> := [];
    if k < |snapshot| {
      tail := [Teardown(snapshot[k])] + SweepTrace(snapshot, interference, k + 1);
      TailSpares(snapshot, interference, k + 1, id, engine);
      assert !Displaces(Teardown(snapshot[k]), id, engine);
    } else {
      assert interference[k] + tail == interference[k];
    }
    rest := interference[k][m + 1..] + tail;
    SplitAt(interference[k], m, tail);
  }

  /** What a trace sets and nothing later displaces is live at its end. */
  lemma SetLast<E>(entries: Entries<E>, before: seq<Op<E>>, after: seq<Op<E>>, id: string, engine: E)
    requires Unique(entries) && Spares(after, id, engine)
    ensures IsLive(ApplyAll(entries, before + ([Set(id, engine)] + after)), id, engine)
  {
    var reached := ApplyAll(entries, before);
    ApplyAllConcat(entries, before, [Set(id, engine)] + after);
    SessionsAreIndependentCells(entries, before, id);
    StepIsCellStep(reached, Set(id, engine), id);
    assert ([Set(id, engine)] + after)[1..] == after;
    LiveUntilDisplaced(Apply(reached, Set(id, engine)), after, id, engine);
  }

  /**
    An engine that someone sets during the sweep, as operation `m` of `interference[k]`, is live at
    the end if nobody displaces it afterwards and the same pair is not among those still to be
    visited.
   */
  lemma {:induction false} NewcomersSurvive<E>(
    entries: Entries<E>, snapshot: Entries<E>, interference: seq<seq<Op<E>>>, from: nat,
    k: nat, m: nat, id: string, engine: E)
    requires Unique(entries) && Fits(snapshot, interference) && from <= k <= |snapshot|
    requires m < |interference[k]| && interference[k][m] == Set(id, engine)
    requires Spares(interference[k][m + 1..], id, engine)
    requires forall j :: k < j < |interference| ==> Spares(interference[j], id, engine)
    requires forall j :: k <= j < |snapshot| ==> snapshot[j] != (id, engine)
    ensures IsLive(ApplyAll(entries, SweepTrace(snapshot, interference, from)), id, engine)
    decreases k - from
  {
    if from < k {
      SweepUnfolds(entries, snapshot, interference, from);
      VisitedIsGone(entries, interference[from], snapshot[from]);
      NewcomersSurvive(AfterVisit(entries, interference[from], snapshot[from]),
                       snapshot, interference, from + 1, k, m, id, engine);
    } else {
      var rest := RestOfSweep(snapshot, interference, k, m, id, engine);
      SetLast(entries, interference[k][..m], rest, id, engine);
    }
  }

  // ---------------------------------------------------------------- the registry

  function Ids<E>(entries: Entries<E>): (ids: seq<string>)
    ensures |ids| == |entries| && forall i :: 0 <= i < |ids| ==> ids[i] == entries[i].0
  {
    seq(|entries|, i requires 0 <= i < |entries| => entries[i].0)
  }

  lemma IdsAreKeys<E>(entries: Entries<E>)
    requires Unique(entries)
    ensures NoDup(Ids(entries))
    ensures forall id :: id in Ids(entries) <==> Lookup(entries, id).Some?
  {
    forall id ensures id in Ids(entries) <==> Lookup(entries, id).Some? {
      var i := Find(entries, id);
      if i < |entries| {
        assert Ids(entries)[i] == id;
      }
    }
  }

  /** `set` acts on the ids as adding to an insertion-ordered set: a new id goes last, a known one stays where it is. */
  lemma IdsAfterPut<E>(entries: Entries<E>, id: string, engine: E)
    requires Unique(entries)
    ensures Ids(Put(entries, id, engine)) == Add(Ids(entries), id)
  {
    IdsAreKeys(entries);
  }

  lemma IdsWithout<E>(entries: Entries<E>, i: nat)
    requires i < |entries|
    ensures Ids(entries[..i] + entries[i + 1..]) == Ids(entries)[..i] + Ids(entries)[i + 1..]
  {
    var rest := entries[..i] + entries[i + 1..];
    forall j | 0 <= j < |rest| ensures Ids(rest)[j] == (Ids(entries)[..i] + Ids(entries)[i + 1..])[j] {
      assert rest[j] == entries[if j < i then j else j + 1];
    }
  }

  /** `delete` takes one id out and keeps the others in order. */
  lemma IdsAfterRemove<E>(entries: Entries<E>, id: string)
    requires Unique(entries)
    ensures Ids(Remove(entries, id)) == Minus(Ids(entries), [id])
  {
    IdsAreKeys(entries);
    var ids, i := Ids(entries), Find(entries, id);
    if i < |ids| {
      MinusAt(ids, i);
      IdsWithout(entries, i);
    } else {
      MinusOfAbsent(ids, id);
    }
  }

  lemma ActiveIdsOf<E>(entries: Entries<E>, initializing: seq<string>)
    requires Unique(entries) && NoDup(initializing)
    ensures var ids := Distinct(Ids(entries) + initializing);
            && NoDup(ids) && ids == Ids(entries) + Minus(initializing, Ids(entries))
            && forall id :: id in ids <==> Lookup(entries, id).Some? || id in initializing
  {
    IdsAreKeys(entries);
    DistinctKeepsFirstOccurrences(Ids(entries) + initializing);
    AddAllConcat([], Ids(entries), initializing);
    DistinctOfNoDup(Ids(entries));
    AddAllIsAppend(Ids(entries), initializing);
    DistinctOfNoDup(initializing);
  }

  class EngineRegistry<E(==)> {
    var engines: Entries<E>
    /** Sessions whose engine is being constructed: a JavaScript `Set`. */
    var initializing: seq<string>

    constructor ()
      ensures Valid() && engines == [] && initializing == []
    {
      engines, initializing := [], [];
    }

    ghost predicate Valid()
      reads this
    {
      Unique(engines) && NoDup(initializing)
    }

    method Get(id: string) returns (engine: Option<E>)
      ensures engine == Lookup(engines, id)
    {
      engine := Lookup(engines, id);
    }

    method Set(id: string, engine: E)
      requires Valid()
      modifies this`engines
      ensures Valid() && engines == Apply(old(engines), Op.Set(id, engine))
      ensures IsLive(engines, id, engine)
      ensures forall other :: other != id ==> Lookup(engines, other) == old(Lookup(engines, other))
    {
      forall other {
        LookupAfterPut(engines, id, engine, other);
      }
      engines := Put(engines, id, engine);
    }

    method Delete(id: string) returns (existed: bool)
      requires Valid()
      modifies this`engines
      ensures Valid() && engines == Apply(old(engines), Op.Delete(id))
      ensures existed <==> old(Lookup(engines, id)).Some?
      ensures Lookup(engines, id) == None
    {
      LookupAfterRemove(engines, id, id);
      existed := Find(engines, id) < |engines|;
      engines := Remove(engines, id);
    }

    method Clear()
      requires Valid()
      modifies this`engines
      ensures Valid() && engines == Apply(old(engines), Op.Clear)
    {
      engines := [];
    }

    /** A snapshot of the entries, in insertion order; the iterator runs over this. */
    method Entries() returns (snapshot: Entries<E>)
      ensures snapshot == engines
    {
      snapshot := engines;
    }

    method DeleteIfLive(id: string, engine: E) returns (deleted: bool)
      requires Valid()
      modifies this`engines
      ensures Valid() && engines == Apply(old(engines), Op.DeleteIfLive(id, engine))
      ensures deleted <==> old(IsLive(engines, id, engine))
      ensures !deleted ==> engines == old(engines)
    {
      if !IsLive(engines, id, engine) {
        return false;
      }
      deleted := Delete(id);
    }

    /** Ids with a live engine, then those still being constructed, each once. */
    method ActiveIds() returns (ids: seq<string>)
      requires Valid()
      ensures NoDup(ids)
      ensures forall id :: id in ids <==> Lookup(engines, id).Some? || id in initializing
      ensures ids == Ids(engines) + Minus(initializing, Ids(engines))
    {
      ActiveIdsOf(engines, initializing);
      ids := Distinct(Ids(engines) + initializing);
    }

    method Perform(op: Op<E>)
      requires Valid()
      modifies this`engines
      ensures Valid() && engines == Apply(old(engines), op)
    {
      match op
      case Set(id, engine) => Set(id, engine);
      case Delete(id) => var _ := Delete(id);
      case Clear => Clear();
      case DeleteIfLive(id, engine) => var _ := DeleteIfLive(id, engine);
    }

    method PerformAll(ops: seq<Op<E>>)
      requires Valid()
      modifies this`engines
      ensures Valid() && engines == ApplyAll(old(engines), ops)
    {
      for i := 0 to |ops|
        invariant Valid() && engines == ApplyAll(old(engines), ops[..i])
      {
        ApplyAllStep(old(engines), ops, i);
        Perform(ops[i]);
      }
      assert ops[..|ops|] == ops;
    }

    /** One iteration: what others do first, then the guarded teardown of the visited pair. */
    method Visit(snapshot: Entries<E>, interference: seq<seq<Op<E>>>, i: nat)
      requires Valid() && Fits(snapshot, interference) && i < |snapshot|
      modifies this`engines
      ensures Valid()
      ensures ApplyAll(engines, SweepTrace(snapshot, interference, i + 1)) ==
              ApplyAll(old(engines), SweepTrace(snapshot, interference, i))
    {
      SweepUnfolds(engines, snapshot, interference, i);
      PerformAll(interference[i]);
      var _ := DeleteIfLive(snapshot[i].0, snapshot[i].1);
    }

    /**
      The teardown loop of the callers: over the iterator, with everyone else's operations between
      the iterations. It visits exactly the entries it started with, once each and in order, however
      the map changes meanwhile.
     */
    method Sweep(interference: seq<seq<Op<E>>>) returns (visited: Entries<E>)
      requires Valid() && Fits(engines, interference)
      modifies this`engines
      ensures Valid() && visited == old(engines)
      ensures engines == ApplyAll(old(engines), SweepTrace(visited, interference, 0))
    {
      var snapshot := Entries();
      visited := [];
      for i := 0 to |snapshot|
        invariant Valid()
        invariant |visited| == i && forall j :: 0 <= j < i ==> visited[j] == snapshot[j]
        invariant ApplyAll(engines, SweepTrace(snapshot, interference, i)) ==
                  ApplyAll(old(engines), SweepTrace(snapshot, interference, 0))
      {
        visited := visited + [snapshot[i]];
        Visit(snapshot, interference, i);
      }
      PerformAll(interference[|snapshot|]);
    }
  }
}
