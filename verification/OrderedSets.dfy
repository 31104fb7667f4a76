/** JavaScript's `Set` as an insertion-ordered sequence without duplicates. */
module OrderedSets {
  ghost predicate NoDup<T>(s: seq<T>) {
    forall i, j :: 0 <= i < j < |s| ==> s[i] != s[j]
  }

  function Add<T(==)>(seen: seq<T>, x: T): seq<T> {
    if x in seen then seen else seen + [x]
  }

  function AddAll<T(==)>(seen: seq<T>, xs: seq<T>): seq<T> {
    if xs == [] then seen else Add(AddAll(seen, xs[..|xs| - 1]), xs[|xs| - 1])
  }

  /** `[...new Set(xs)]` */
  function Distinct<T(==)>(xs: seq<T>): seq<T> {
    AddAll([], xs)
  }

  function Minus<T(==)>(xs: seq<T>, gone: seq<T>): seq<T> {
    if xs == [] then []
    else Minus(xs[..|xs| - 1], gone) + if xs[|xs| - 1] in gone then [] else [xs[|xs| - 1]]
  }

  /** Position of the first occurrence; the length when there is none. */
  function First<T(==)>(xs: seq<T>, x: T): nat {
    if xs == [] then 0 else if xs[0] == x then 0 else 1 + First(xs[1..], x)
  }

  lemma {:induction false} FirstOfAppended<T>(xs: seq<T>, y: T, x: T)
    ensures x in xs ==> First(xs + [y], x) == First(xs, x) < |xs|
    ensures x !in xs ==> First(xs, x) == |xs|
    ensures x !in xs && x == y ==> First(xs + [y], x) == |xs|
  {
    if xs == [] {
    } else {
      assert (xs + [y])[1..] == xs[1..] + [y];
      FirstOfAppended(xs[1..], y, x);
    }
  }

  lemma {:induction false} AddAllMembers<T>(seen: seq<T>, xs: seq<T>)
    requires NoDup(seen)
    ensures NoDup(AddAll(seen, xs))
    ensures forall x :: x in AddAll(seen, xs) <==> x in seen || x in xs
  {
    if xs == [] {
    } else {
      var front, last := xs[..|xs| - 1], xs[|xs| - 1];
      AddAllMembers(seen, front);
      assert xs == front + [last];
    }
  }

  /**
    `Distinct` keeps exactly the elements of its argument, once each, in the order in which they
    first occur.
   */
  lemma {:induction false} DistinctKeepsFirstOccurrences<T>(xs: seq<T>)
    ensures NoDup(Distinct(xs))
    ensures forall x :: x in Distinct(xs) <==> x in xs
    ensures forall i, j :: 0 <= i < j < |Distinct(xs)| ==> First(xs, Distinct(xs)[i]) < First(xs, Distinct(xs)[j])
  {
    AddAllMembers([], xs);
    if xs == [] {
    } else {
      var front, last := xs[..|xs| - 1], xs[|xs| - 1];
      assert xs == front + [last];
      DistinctKeepsFirstOccurrences(front);
      var old', new' := Distinct(front), Distinct(xs);
      assert new' == Add(old', last);
      forall i, j | 0 <= i < j < |new'| ensures First(xs, new'[i]) < First(xs, new'[j]) {
        assert new'[i] == old'[i] && old'[i] in old';
        FirstOfAppended(front, last, new'[i]);
        FirstOfAppended(front, last, new'[j]);
        if j < |old'| {
          assert new'[j] == old'[j] && old'[j] in old';
          assert First(front, old'[i]) < First(front, old'[j]);
        } else {
          assert new'[j] == last && last !in old';
          assert last !in front;
        }
      }
    }
  }

  lemma {:induction false} AddAllConcat<T>(seen: seq<T>, xs: seq<T>, ys: seq<T>)
    ensures AddAll(seen, xs + ys) == AddAll(AddAll(seen, xs), ys)
  {
    if ys == [] {
      assert xs + ys == xs;
    } else {
      assert (xs + ys)[..|xs + ys| - 1] == xs + ys[..|ys| - 1];
      AddAllConcat(seen, xs, ys[..|ys| - 1]);
    }
  }

  lemma {:induction false} MinusMembers<T>(xs: seq<T>, gone: seq<T>)
    ensures forall x :: x in Minus(xs, gone) <==> x in xs && x !in gone
  {
    if xs == [] {
    } else {
      MinusMembers(xs[..|xs| - 1], gone);
      assert xs == xs[..|xs| - 1] + [xs[|xs| - 1]];
    }
  }

  lemma MinusAppend<T>(xs: seq<T>, y: T, gone: seq<T>)
    ensures Minus(xs + [y], gone) == Minus(xs, gone) + if y in gone then [] else [y]
  {
    assert (xs + [y])[..|xs|] == xs;
  }

  lemma {:induction false} MinusOfAbsent<T>(xs: seq<T>, y: T)
    requires y !in xs
    ensures Minus(xs, [y]) == xs
  {
    if xs == [] {
    } else {
      MinusOfAbsent(xs[..|xs| - 1], y);
    }
  }

  lemma {:induction false} MinusAt<T>(xs: seq<T>, i: nat)
    requires NoDup(xs) && i < |xs|
    ensures Minus(xs, [xs[i]]) == xs[..i] + xs[i + 1..]
  {
    var last := |xs| - 1;
    if i == last {
      MinusOfAbsent(xs[..last], xs[i]);
    } else {
      MinusAt(xs[..last], i);
      assert xs[..last][i] == xs[i] && xs[..last][..i] == xs[..i];
      assert xs[i + 1..] == xs[..last][i + 1..] + [xs[last]];
    }
  }

  lemma AddIsAppend<T>(seen: seq<T>, own: seq<T>, x: T)
    ensures Add(seen + Minus(own, seen), x) == seen + Minus(Add(own, x), seen)
  {
    MinusMembers(own, seen);
    MinusAppend(own, x, seen);
    var both := seen + Minus(own, seen);
    assert x in both <==> x in seen || x in own;
    assert both + [x] == seen + (Minus(own, seen) + [x]);
  }

  /** Adding to a set is appending what a set of its own would hold, less what was there before. */
  lemma {:induction false} AddAllIsAppend<T>(seen: seq<T>, xs: seq<T>)
    ensures AddAll(seen, xs) == seen + Minus(Distinct(xs), seen)
  {
    if xs == [] {
    } else {
      AddAllIsAppend(seen, xs[..|xs| - 1]);
      AddIsAppend(seen, Distinct(xs[..|xs| - 1]), xs[|xs| - 1]);
    }
  }

  lemma {:induction false} DistinctOfNoDup<T>(xs: seq<T>)
    requires NoDup(xs)
    ensures Distinct(xs) == xs
  {
    if xs == [] {
    } else {
      DistinctOfNoDup(xs[..|xs| - 1]);
    }
  }
}
