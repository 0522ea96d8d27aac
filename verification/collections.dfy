/** The array operations the record store is built from (`filter`, `find`,
    `findIndex`, index assignment, `push`, `reverse`), as pure functions on
    sequences. */
module Collections {
  import opened Wrappers

  /** A collection after a write, together with the record written. */
  datatype Written<T> = Written(items: seq<T>, record: T)

  /** `ys` is `xs` with position `i` replaced by `y` and nothing else changed. */
  ghost predicate ReplacedAt<T>(xs: seq<T>, ys: seq<T>, i: int, y: T) {
    && 0 <= i < |xs|
    && |ys| == |xs|
    && ys[i] == y
    && forall j :: 0 <= j < |xs| && j != i ==> ys[j] == xs[j]
  }

  /** `i` is the position of the first element of `xs` satisfying `p`. */
  ghost predicate FirstMatchAt<T>(xs: seq<T>, p: T -> bool, i: int) {
    && 0 <= i < |xs|
    && p(xs[i])
    && forall j :: 0 <= j < i ==> !p(xs[j])
  }

  /** `Array.prototype.filter`: the elements satisfying `p`, in order. */
  function Filter<T>(xs: seq<T>, p: T -> bool): (r: seq<T>)
    ensures |r| <= |xs|
    ensures forall i :: 0 <= i < |r| ==> p(r[i]) && r[i] in xs
    ensures forall i :: 0 <= i < |xs| && p(xs[i]) ==> xs[i] in r
    ensures multiset(r) <= multiset(xs)
    decreases |xs|
  {
    if |xs| == 0 then []
    else
      assert xs == [xs[0]] + xs[1..];
      (if p(xs[0]) then [xs[0]] else []) + Filter(xs[1..], p)
  }

  /** Filtering distributes over concatenation: the order of the survivors is
      the order of the input. */
  lemma {:induction false} FilterAppend<T>(a: seq<T>, b: seq<T>, p: T -> bool)
    ensures Filter(a + b, p) == Filter(a, p) + Filter(b, p)
    decreases |a|
  {
    if |a| == 0 {
      assert a + b == b;
    } else {
      assert (a + b)[0] == a[0];
      assert (a + b)[1..] == a[1..] + b;
      FilterAppend(a[1..], b, p);
    }
  }

  /** When every element passes, the filter is the identity. */
  lemma {:induction false} FilterKeepsAll<T>(xs: seq<T>, p: T -> bool)
    requires forall i :: 0 <= i < |xs| ==> p(xs[i])
    ensures Filter(xs, p) == xs
    decreases |xs|
  {
    if |xs| > 0 {
      FilterKeepsAll(xs[1..], p);
      assert xs == [xs[0]] + xs[1..];
    }
  }

  /** Nothing is dropped exactly when every element passes. */
  lemma {:induction false} FilterKeepsLength<T>(xs: seq<T>, p: T -> bool)
    ensures |Filter(xs, p)| == |xs| <==> forall i :: 0 <= i < |xs| ==> p(xs[i])
    decreases |xs|
  {
    if forall i :: 0 <= i < |xs| ==> p(xs[i]) {
      FilterKeepsAll(xs, p);
    } else if |xs| > 0 {
      var rest := xs[1..];
      FilterKeepsLength(rest, p);
      if p(xs[0]) {
        var i :| 0 <= i < |xs| && !p(xs[i]);
        assert i > 0 && !p(rest[i - 1]);
      }
    }
  }

  /** Everything is dropped exactly when no element passes. */
  lemma {:induction false} FilterDropsAll<T>(xs: seq<T>, p: T -> bool)
    ensures |Filter(xs, p)| == 0 <==> forall i :: 0 <= i < |xs| ==> !p(xs[i])
    decreases |xs|
  {
    if |xs| > 0 {
      FilterDropsAll(xs[1..], p);
      if !p(xs[0]) && !(forall i :: 0 <= i < |xs[1..]| ==> !p(xs[1..][i])) {
        var i :| 0 <= i < |xs[1..]| && p(xs[1..][i]);
        assert p(xs[i + 1]);
      }
    }
  }

  /** The number of elements satisfying `p`, counted independently of
      `Filter`. */
  function Count<T>(xs: seq<T>, p: T -> bool): nat
    decreases |xs|
  {
    if |xs| == 0 then 0 else Count(xs[..|xs| - 1], p) + (if p(xs[|xs| - 1]) then 1 else 0)
  }

  /** The filter keeps exactly as many elements as pass. */
  lemma {:induction false} FilterCount<T>(xs: seq<T>, p: T -> bool)
    ensures |Filter(xs, p)| == Count(xs, p)
    decreases |xs|
  {
    if |xs| > 0 {
      var init := xs[..|xs| - 1];
      var last := xs[|xs| - 1];
      assert xs == init + [last];
      FilterAppend(init, [last], p);
      FilterCount(init, p);
    }
  }

  /** `Array.prototype.findIndex`, with -1 as `None`. */
  function FirstIndex<T>(xs: seq<T>, p: T -> bool): (r: Option<nat>)
    ensures r.None? <==> forall i :: 0 <= i < |xs| ==> !p(xs[i])
    ensures r.Some? ==> FirstMatchAt(xs, p, r.value)
    decreases |xs|
  {
    if |xs| == 0 then None
    else if p(xs[0]) then Some(0)
    else match FirstIndex(xs[1..], p)
      case None => None
      case Some(k) => Some(k + 1)
  }

  /** `Array.prototype.find`, with `undefined` as `None`. */
  function FindFirst<T>(xs: seq<T>, p: T -> bool): (r: Option<T>)
    ensures r.None? <==> forall i :: 0 <= i < |xs| ==> !p(xs[i])
    ensures r.Some? ==> exists i :: FirstMatchAt(xs, p, i) && xs[i] == r.value
  {
    match FirstIndex(xs, p)
    case None => None
    case Some(i) => Some(xs[i])
  }

  /** Pushing an element never changes an existing first match; it becomes the
      first match only when there was none. */
  lemma FindFirstAppend<T>(xs: seq<T>, x: T, p: T -> bool)
    ensures FindFirst(xs + [x], p) ==
      if FindFirst(xs, p).Some? then FindFirst(xs, p)
      else if p(x) then Some(x) else None
  {
    var ys := xs + [x];
    match FirstIndex(xs, p)
    case Some(i) =>
      assert FirstMatchAt(ys, p, i);
      assert FirstIndex(ys, p) == Some(i) by {
        var k := FirstIndex(ys, p).value;
        assert FirstMatchAt(ys, p, k);
        assert !(k < i) && !(i < k);
      }
    case None =>
      if p(x) {
        assert FirstMatchAt(ys, p, |xs|);
        assert FirstIndex(ys, p) == Some(|xs|) by {
          var k := FirstIndex(ys, p).value;
          assert FirstMatchAt(ys, p, k);
          assert !(k < |xs|);
        }
      } else {
        assert forall i :: 0 <= i < |ys| ==> !p(ys[i]) by {
          forall i | 0 <= i < |ys|
            ensures !p(ys[i])
          {
            if i < |xs| { assert ys[i] == xs[i]; }
          }
        }
      }
  }

  /** Replacing one element by another that the predicate treats alike
      leaves the first match where it was; `find` then returns the new element
      if the first match was the replaced one, and what it returned before
      otherwise. */
  lemma FindReplaced<T>(xs: seq<T>, ys: seq<T>, i: int, y: T, p: T -> bool)
    requires ReplacedAt(xs, ys, i, y) && p(y) == p(xs[i])
    ensures FirstIndex(ys, p) == FirstIndex(xs, p)
    ensures FindFirst(ys, p) == if FirstIndex(xs, p) == Some(i) then Some(y) else FindFirst(xs, p)
  {
    assert forall j :: 0 <= j < |ys| ==> p(ys[j]) == p(xs[j]) by {
      forall j | 0 <= j < |ys|
        ensures p(ys[j]) == p(xs[j])
      {
        if j != i { assert ys[j] == xs[j]; }
      }
    }
    match FirstIndex(xs, p)
    case None =>
    case Some(k) =>
      assert FirstMatchAt(ys, p, k);
      var m := FirstIndex(ys, p).value;
      assert FirstMatchAt(xs, p, m);
      assert !(m < k) && !(k < m);
  }

  /** `xs[findIndex(p)] = f(xs[findIndex(p)])`, or nothing when no element
      matches. */
  function UpdateFirst<T>(xs: seq<T>, p: T -> bool, f: T -> T): (r: Option<Written<T>>)
    ensures r.None? <==> forall i :: 0 <= i < |xs| ==> !p(xs[i])
    ensures r.Some? ==>
      exists i :: FirstMatchAt(xs, p, i) && r.value.record == f(xs[i])
               && ReplacedAt(xs, r.value.items, i, f(xs[i]))
  {
    match FirstIndex(xs, p)
    case None => None
    case Some(i) => Some(Written(xs[i := f(xs[i])], f(xs[i])))
  }

  /** `Array.prototype.reverse` on a copy. */
  function Reverse<T>(xs: seq<T>): (r: seq<T>)
    ensures |r| == |xs|
    ensures forall i :: 0 <= i < |xs| ==> r[i] == xs[|xs| - 1 - i]
    decreases |xs|
  {
    if |xs| == 0 then [] else [xs[|xs| - 1]] + Reverse(xs[..|xs| - 1])
  }
}
