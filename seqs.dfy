/**
 * Sequence helpers for the lists the bot keeps: JavaScript's
 * `Array.from(new Set(list))` (`Dedup`) and "every element of `xs` that is not
 * in `ys`" (`Minus`), with the counting facts the store's replies rely on.
 */
module Seqs {

  predicate NoDup<T(==,!new)>(xs: seq<T>) {
    forall i, j :: 0 <= i < j < |xs| ==> xs[i] != xs[j]
  }

  function Elems<T>(xs: seq<T>): set<T> {
    set x | x in xs
  }

  /**
   * `Array.from(new Set(xs))`: a JavaScript `Set` remembers insertion order, so the
   * result is each element at its first occurrence, in order.
   */
  function Dedup<T(==,!new)>(xs: seq<T>): (r: seq<T>)
    ensures NoDup(r)
    ensures forall x :: x in r <==> x in xs
    ensures |r| <= |xs|
  {
    if xs == [] then []
    else
      var d := Dedup(xs[..|xs| - 1]);
      var x := xs[|xs| - 1];
      assert xs == xs[..|xs| - 1] + [x];
      if x in d then d else d + [x]
  }

  /** A list without repetitions is its own `Dedup`. */
  lemma {:induction false} DedupOfNoDup<T(!new)>(xs: seq<T>)
    requires NoDup(xs)
    ensures Dedup(xs) == xs
  {
    if xs != [] {
      var p := xs[..|xs| - 1];
      assert NoDup(p);
      DedupOfNoDup(p);
      assert xs[|xs| - 1] !in p;
      assert p + [xs[|xs| - 1]] == xs;
    }
  }

  /** Deduplicating keeps first occurrences: `Dedup(xs + [x])` extends `Dedup(xs)` by `x` exactly when `x` is new. */
  lemma DedupSnoc<T(!new)>(xs: seq<T>, x: T)
    ensures Dedup(xs + [x]) == if x in xs then Dedup(xs) else Dedup(xs) + [x]
  {
    assert (xs + [x])[..|xs + [x]| - 1] == xs;
  }

  /** The elements of `xs` that are not in `ys`, in their order in `xs`. */
  function Minus<T(==,!new)>(xs: seq<T>, ys: seq<T>): (r: seq<T>)
    ensures forall x :: x in r <==> x in xs && x !in ys
    ensures |r| <= |xs|
    ensures NoDup(xs) ==> NoDup(r)
  {
    if xs == [] then []
    else
      var rest := Minus(xs[1..], ys);
      assert NoDup(xs) ==> xs[0] !in xs[1..];
      (if xs[0] in ys then [] else [xs[0]]) + rest
  }

  /** Without its last element a list without repeats keeps none, and the last element is new. */
  lemma NoDupInit<T(!new)>(xs: seq<T>)
    requires NoDup(xs) && xs != []
    ensures NoDup(xs[..|xs| - 1]) && xs[|xs| - 1] !in xs[..|xs| - 1]
  {
    var init := xs[..|xs| - 1];
    assert forall k :: 0 <= k < |init| ==> init[k] == xs[k];
  }

  /** A property that holds of a head and of every element of a tail holds of every element of the whole. */
  lemma AllCons<T>(p: T -> bool, x: T, xs: seq<T>)
    requires p(x) && forall k :: 0 <= k < |xs| ==> p(xs[k])
    ensures forall k :: 0 <= k < |[x] + xs| ==> p(([x] + xs)[k])
  {
    forall k | 0 <= k < |[x] + xs| ensures p(([x] + xs)[k]) {
      if k > 0 { assert ([x] + xs)[k] == xs[k - 1]; }
    }
  }

  /** In a list without repeats, an element is not among those before it. */
  lemma NoDupFresh<T(!new)>(xs: seq<T>, i: nat)
    requires NoDup(xs) && i < |xs|
    ensures xs[i] !in xs[..i]
  {
    forall k | 0 <= k < i ensures xs[..i][k] != xs[i] {
      assert xs[..i][k] == xs[k];
    }
  }

  lemma MinusSingle<T(!new)>(x: T, ys: seq<T>)
    ensures Minus([x], ys) == if x in ys then [] else [x]
  {
    assert [x][1..] == [];
  }

  lemma AppendAssoc<T>(a: seq<T>, b: seq<T>, c: seq<T>)
    ensures a + (b + c) == (a + b) + c
  {
  }

  lemma MinusNothing<T(!new)>(xs: seq<T>)
    ensures Minus(xs, []) == xs
  {
  }

  lemma {:induction false} MinusAppendLeft<T(!new)>(a: seq<T>, b: seq<T>, ys: seq<T>)
    ensures Minus(a + b, ys) == Minus(a, ys) + Minus(b, ys)
  {
    if a != [] {
      var t, h := a[1..], if a[0] in ys then [] else [a[0]];
      assert (a + b)[0] == a[0] && (a + b)[1..] == t + b;
      MinusAppendLeft(t, b, ys);
      assert Minus(a + b, ys) == h + Minus(t + b, ys);
      assert Minus(a, ys) == h + Minus(t, ys);
      AppendAssoc(h, Minus(t, ys), Minus(b, ys));
    } else {
      assert a + b == b;
    }
  }

  /** Extending the list to remove is removing once more. */
  lemma {:induction false} MinusSnocRight<T(!new)>(xs: seq<T>, ys: seq<T>, y: T)
    ensures Minus(xs, ys + [y]) == Minus(Minus(xs, ys), [y])
  {
    if xs != [] {
      MinusSnocRight(xs[1..], ys, y);
      var h := if xs[0] in ys then [] else [xs[0]];
      MinusAppendLeft(h, Minus(xs[1..], ys), [y]);
    }
  }

  /** Removing one element that is present from a list without repetitions shortens it by one. */
  lemma {:induction false} MinusOneLength<T(!new)>(xs: seq<T>, y: T)
    requires NoDup(xs)
    ensures |Minus(xs, [y])| == if y in xs then |xs| - 1 else |xs|
  {
    if xs != [] {
      assert NoDup(xs[1..]);
      MinusOneLength(xs[1..], y);
      assert xs[0] == y ==> y !in xs[1..];
      assert y in xs <==> xs[0] == y || y in xs[1..];
    }
  }

  /** A list without repetitions has as many elements as its set. */
  lemma {:induction false} NoDupCard<T(!new)>(xs: seq<T>)
    requires NoDup(xs)
    ensures |Elems(xs)| == |xs|
  {
    if xs != [] {
      var p := xs[..|xs| - 1];
      assert NoDup(p);
      NoDupCard(p);
      assert xs == p + [xs[|xs| - 1]];
      assert Elems(xs) == Elems(p) + {xs[|xs| - 1]};
      assert xs[|xs| - 1] !in Elems(p);
    }
  }

  /** How many distinct elements of `d` are new with respect to `seen`. */
  lemma CountNew<T(!new)>(d: seq<T>, seen: seq<T>)
    requires NoDup(d)
    ensures |Minus(d, seen)| == |Elems(d) - Elems(seen)|
  {
    assert Elems(Minus(d, seen)) == Elems(d) - Elems(seen);
    NoDupCard(Minus(d, seen));
  }

  /** How many elements of a list without repetitions `Minus` takes out: those it shares with `ys`. */
  lemma CountRemoved<T(!new)>(xs: seq<T>, ys: seq<T>)
    requires NoDup(xs)
    ensures |xs| - |Minus(xs, ys)| == |Elems(xs) * Elems(ys)|
  {
    NoDupCard(xs);
    NoDupCard(Minus(xs, ys));
    var a, b := Elems(xs), Elems(ys);
    assert Elems(Minus(xs, ys)) == a - b;
    assert a == (a - b) + (a * b);
    assert (a - b) * (a * b) == {};
  }

  /** Appending the new elements of a list without repetitions keeps a list without repetitions. */
  lemma NoDupAppendMinus<T(!new)>(a: seq<T>, b: seq<T>)
    requires NoDup(a) && NoDup(b)
    ensures NoDup(a + Minus(b, a))
  {
    var m := Minus(b, a);
    forall i, j | 0 <= i < j < |a + m| ensures (a + m)[i] != (a + m)[j] {
      if j < |a| {
        assert (a + m)[i] == a[i] && (a + m)[j] == a[j];
      } else if i < |a| {
        assert (a + m)[j] == m[j - |a|] && m[j - |a|] in m;
        assert (a + m)[i] == a[i] && a[i] in a;
      } else {
        assert (a + m)[i] == m[i - |a|] && (a + m)[j] == m[j - |a|];
      }
    }
  }

  /** `Dedup(a + b)` for a list `a` without repetitions: `a`, then the elements of `b` that are new, once each. */
  lemma {:induction false} DedupAppend<T(!new)>(a: seq<T>, b: seq<T>)
    requires NoDup(a)
    ensures Dedup(a + b) == a + Minus(Dedup(b), a)
  {
    if b == [] {
      assert a + b == a;
      DedupOfNoDup(a);
    } else {
      var p, x := b[..|b| - 1], b[|b| - 1];
      assert b == p + [x];
      assert a + b == (a + p) + [x];
      DedupAppend(a, p);
      DedupAppendStep(a, p, x);
    }
  }

  lemma DedupAppendStep<T(!new)>(a: seq<T>, p: seq<T>, x: T)
    requires Dedup(a + p) == a + Minus(Dedup(p), a)
    ensures Dedup((a + p) + [x]) == a + Minus(Dedup(p + [x]), a)
  {
    DedupSnoc(a + p, x);
    DedupSnoc(p, x);
    assert x in a + p <==> x in a || x in Dedup(p);
    StepCombine(a, Dedup(a + p), Dedup(p), Dedup((a + p) + [x]), Dedup(p + [x]), x);
  }

  /** `DedupAppendStep` over the deduplicated lists named as values. */
  lemma StepCombine<T(!new)>(a: seq<T>, d1: seq<T>, d2: seq<T>, e1: seq<T>, e2: seq<T>, x: T)
    requires d1 == a + Minus(d2, a)
    requires e1 == if x in a || x in d2 then d1 else d1 + [x]
    requires e2 == if x in d2 then d2 else d2 + [x]
    ensures e1 == a + Minus(e2, a)
  {
    if x !in d2 {
      MinusAppendLeft(d2, [x], a);
      MinusSingle(x, a);
      if x !in a {
        AppendAssoc(a, Minus(d2, a), [x]);
      } else {
        assert Minus(d2, a) + [] == Minus(d2, a);
      }
    }
  }

  /** Removing the same elements after removing repeats keeps a prefix a prefix. */
  lemma DedupMinusPrefix<T(!new)>(a: seq<T>, b: seq<T>, ys: seq<T>)
    ensures Minus(Dedup(a), ys) <= Minus(Dedup(a + b), ys)
  {
    var d1, d2 := Dedup(a), Dedup(a + b);
    DedupPrefix(a, b);
    assert d2 == d1 + d2[|d1|..];
    MinusAppendLeft(d1, d2[|d1|..], ys);
  }

  /** Deduplicating a longer list keeps the deduplicated shorter one in front. */
  lemma {:induction false} DedupPrefix<T(!new)>(a: seq<T>, b: seq<T>)
    ensures Dedup(a) <= Dedup(a + b)
    decreases |b|
  {
    if b == [] {
      assert a + b == a;
    } else {
      var p, x := b[..|b| - 1], b[|b| - 1];
      assert a + b == (a + p) + [x];
      DedupPrefix(a, p);
      DedupSnoc(a + p, x);
    }
  }

  /** Nothing is left when every element is taken out. */
  lemma {:induction false} MinusCovered<T(!new)>(xs: seq<T>, ys: seq<T>)
    requires forall x :: x in xs ==> x in ys
    ensures Minus(xs, ys) == []
    decreases |xs|
  {
    if xs != [] {
      assert xs[0] in xs;
      assert forall x :: x in xs[1..] ==> x in xs;
      MinusCovered(xs[1..], ys);
    }
  }

  /** Taking out an element that is not there changes nothing. */
  lemma {:induction false} MinusAbsent<T(!new)>(xs: seq<T>, y: T)
    requires y !in xs
    ensures Minus(xs, [y]) == xs
    decreases |xs|
  {
    if xs != [] {
      assert xs[0] in xs;
      assert forall x :: x in xs[1..] ==> x in xs;
      MinusAbsent(xs[1..], y);
      assert [xs[0]] + xs[1..] == xs;
    }
  }

  /** Adding the new elements of `d` and then taking out all of `d` is the same as only taking out `d`. */
  lemma AddThenRemove<T(!new)>(a: seq<T>, d: seq<T>)
    ensures Minus(a + Minus(d, a), d) == Minus(a, d)
  {
    MinusAppendLeft(a, Minus(d, a), d);
    MinusCovered(Minus(d, a), d);
    assert Minus(a, d) + [] == Minus(a, d);
  }
}
