/** The optional value used wherever the JavaScript code returns `null` (or `undefined`). */
module Wrappers {

  datatype Option<+T> = None | Some(value: T) {

    /** The value, or `default` when there is none (JavaScript's `x ?? default`). */
    function GetOr(default: T): T {
      match this
      case Some(v) => v
      case None => default
    }
  }

  /** The present values of a list of options, in order (`list.filter(Boolean)` after a `map`). */
  function Somes<T>(os: seq<Option<T>>): seq<T> {
    if os == [] then []
    else (if os[0].Some? then [os[0].value] else []) + Somes(os[1..])
  }

  /** Options that all hold values give back those values. */
  lemma {:induction false} SomesOfAll<T>(os: seq<Option<T>>, xs: seq<T>)
    requires |os| == |xs| && forall k :: 0 <= k < |os| ==> os[k] == Some(xs[k])
    ensures Somes(os) == xs
  {
    if os != [] {
      assert forall k :: 0 <= k < |os| - 1 ==> os[1..][k] == Some(xs[1..][k]) by {
        assert forall k :: 0 <= k < |os| - 1 ==> os[1..][k] == os[k + 1] && xs[1..][k] == xs[k + 1];
      }
      SomesOfAll(os[1..], xs[1..]);
      assert xs == [xs[0]] + xs[1..];
    }
  }

  /** A value is kept exactly when some option holds it. */
  lemma {:induction false} SomesMember<T>(os: seq<Option<T>>, x: T)
    ensures x in Somes(os) <==> exists i :: 0 <= i < |os| && os[i] == Some(x)
  {
    if os != [] {
      SomesMember(os[1..], x);
      assert forall i :: 1 <= i < |os| ==> os[1..][i - 1] == os[i];
    }
  }
}
