/** Optional values: Python's `X | None`. */
module Wrappers {

  datatype Option<+T> = None | Some(value: T) {

    predicate IsFailure() {
      None?
    }

    function PropagateFailure<U>(): Option<U>
      requires None?
    {
      None
    }

    function Extract(): T
      requires Some?
    {
      value
    }

    /** The value, or `default` when absent (Python's `x or default` for non-empty x). */
    function GetOr(default: T): T {
      match this
      case Some(v) => v
      case None => default
    }
  }

  /** A value or the reason there is none: a Python call that returns or raises. */
  datatype Result<+T, +E> = Ok(value: T) | Err(error: E)

  /** Concatenation is associative. */
  lemma AppendAssoc<T>(xs: seq<T>, ys: seq<T>, zs: seq<T>)
    ensures xs + (ys + zs) == (xs + ys) + zs
  {
  }

  /** The present elements of a sequence of optional values, in order. */
  function Somes<T>(xs: seq<Option<T>>): (r: seq<T>)
    ensures |r| <= |xs|
  {
    if xs == [] then []
    else
      var rest := Somes(xs[1..]);
      (if xs[0].Some? then [xs[0].value] else []) + rest
  }

  /** A value is kept exactly when it was present. */
  lemma {:induction false} SomesMembers<T>(xs: seq<Option<T>>, y: T)
    ensures y in Somes(xs) <==> Some(y) in xs
    decreases |xs|
  {
    if xs != [] {
      SomesMembers(xs[1..], y);
      assert xs == [xs[0]] + xs[1..];
    }
  }

  /** The present results of `f` over a sequence, in order (a filtering map). */
  function FilterMap<A, B>(xs: seq<A>, f: A -> Option<B>): (r: seq<B>)
    ensures |r| <= |xs|
  {
    if xs == [] then []
    else
      var rest := FilterMap(xs[1..], f);
      (if f(xs[0]).Some? then [f(xs[0]).value] else []) + rest
  }

  /** Filtering a concatenation filters each part. */
  lemma {:induction false} FilterMapAppend<A, B>(xs: seq<A>, ys: seq<A>, f: A -> Option<B>)
    ensures FilterMap(xs + ys, f) == FilterMap(xs, f) + FilterMap(ys, f)
    decreases |xs|
  {
    if xs == [] {
      assert xs + ys == ys;
    } else {
      var head := if f(xs[0]).Some? then [f(xs[0]).value] else [];
      assert (xs + ys)[0] == xs[0] && (xs + ys)[1..] == xs[1..] + ys;
      assert FilterMap(xs + ys, f) == head + FilterMap(xs[1..] + ys, f);
      FilterMapAppend(xs[1..], ys, f);
      assert FilterMap(xs, f) == head + FilterMap(xs[1..], f);
      assert head + (FilterMap(xs[1..], f) + FilterMap(ys, f)) == (head + FilterMap(xs[1..], f)) + FilterMap(ys, f);
    }
  }

  /** A value is kept exactly when `f` gives it for some element. */
  lemma {:induction false} FilterMapMembers<A, B>(xs: seq<A>, f: A -> Option<B>, y: B)
    ensures y in FilterMap(xs, f) <==> exists i :: 0 <= i < |xs| && f(xs[i]) == Some(y)
    decreases |xs|
  {
    if xs != [] {
      FilterMapMembers(xs[1..], f, y);
      if y in FilterMap(xs[1..], f) {
        var i :| 0 <= i < |xs[1..]| && f(xs[1..][i]) == Some(y);
        assert xs[i + 1] == xs[1..][i];
      }
      if exists i :: 0 <= i < |xs| && f(xs[i]) == Some(y) {
        var i :| 0 <= i < |xs| && f(xs[i]) == Some(y);
        if i > 0 {
          assert xs[1..][i - 1] == xs[i];
        }
      }
    }
  }

  /** When `f` gives a value for every element, nothing is dropped. */
  lemma {:induction false} FilterMapTotal<A, B>(xs: seq<A>, f: A -> Option<B>)
    requires forall i :: 0 <= i < |xs| ==> f(xs[i]).Some?
    ensures |FilterMap(xs, f)| == |xs|
    decreases |xs|
  {
    if xs != [] {
      assert forall i :: 0 <= i < |xs[1..]| ==> xs[1..][i] == xs[i + 1];
      FilterMapTotal(xs[1..], f);
    }
  }

  /**
   * Advance through `xs` from `start` until `f` gives a value: that value and
   * the position after it, or None and the end of the sequence.
   */
  method FirstPresent<A, B>(xs: seq<A>, start: nat, f: A -> Option<B>) returns (r: Option<B>, next: nat)
    requires start <= |xs|
    ensures start <= next <= |xs|
    ensures r.None? <==> FilterMap(xs[start..], f) == []
    ensures r.None? ==> next == |xs|
    ensures r.Some? ==> start < next && FilterMap(xs[start..], f) == [r.value] + FilterMap(xs[next..], f)
  {
    next := start;
    while next < |xs|
      invariant start <= next <= |xs|
      invariant FilterMap(xs[start..], f) == FilterMap(xs[next..], f)
      decreases |xs| - next
    {
      var x := xs[next];
      assert xs[next..][0] == x && xs[next..][1..] == xs[next + 1..];
      next := next + 1;
      r := f(x);
      if r.Some? {
        return;
      }
    }
    assert xs[next..] == [];
    r := None;
  }
}
