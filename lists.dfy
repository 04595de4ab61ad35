/** The eager list of taak.js:423-532 (doc/zen.js:502-733): a wrapper around a
    JavaScript array whose methods are slices, maps and folds of the array,
    except `reverse`, which reverses the wrapped array in place. */
module Lists {
  import opened Base

  /** proto_list.map: f applied to every element, in order. */
  function Map<T, U>(f: T -> U, a: seq<T>): (r: seq<U>)
    ensures |r| == |a| && forall i :: 0 <= i < |a| ==> r[i] == f(a[i])
  {
    seq(|a|, i requires 0 <= i < |a| => f(a[i]))
  }

  /** map distributes over concatenation: mapping a list in two pieces, as a
      stream does element by element, gives the map of the whole. */
  lemma MapAppend<T, U>(f: T -> U, a: seq<T>, b: seq<T>)
    ensures Map(f, a + b) == Map(f, a) + Map(f, b)
  {
  }

  /** proto_list.filter: the elements satisfying p, in order. */
  function Filter<T>(p: T -> bool, a: seq<T>): seq<T>
  {
    if a == [] then []
    else Filter(p, a[..|a| - 1]) + (if p(a[|a| - 1]) then [a[|a| - 1]] else [])
  }

  lemma FilterStep<T>(p: T -> bool, a: seq<T>, x: T)
    ensures Filter(p, a + [x]) == Filter(p, a) + (if p(x) then [x] else [])
  {
    assert (a + [x])[..|a + [x]| - 1] == a;
  }

  lemma {:induction false} FilterAppend<T>(p: T -> bool, a: seq<T>, b: seq<T>)
    ensures Filter(p, a + b) == Filter(p, a) + Filter(p, b)
  {
    if b == [] {
      assert a + b == a;
    } else {
      var b' := b[..|b| - 1];
      assert a + b == (a + b') + [b[|b| - 1]];
      assert b == b' + [b[|b| - 1]];
      FilterAppend(p, a, b');
      FilterStep(p, a + b', b[|b| - 1]);
      FilterStep(p, b', b[|b| - 1]);
    }
  }

  /** Filtering a prefix gives a prefix of the filtered sequence. */
  lemma FilterPrefix<T>(p: T -> bool, a: seq<T>, i: nat)
    requires i <= |a|
    ensures Filter(p, a[..i]) <= Filter(p, a)
  {
    var front, back := a[..i], a[i..];
    assert a == front + back;
    FilterAppend(p, front, back);
    var f := Filter(p, front);
    assert Filter(p, a) == f + Filter(p, back);
    assert Filter(p, a)[..|f|] == f;
  }

  /** The filter keeps exactly the elements that satisfy p. */
  lemma {:induction false} FilterMembers<T>(p: T -> bool, a: seq<T>)
    ensures forall x :: x in Filter(p, a) <==> x in a && p(x)
    ensures |Filter(p, a)| <= |a|
  {
    if a != [] {
      var b := a[..|a| - 1];
      FilterMembers(p, b);
      assert a == b + [a[|a| - 1]];
    }
  }

  /** Array.prototype.slice's treatment of a start or end argument: a
      negative index counts from the end, and the result is clamped to [0, len]. */
  function RelativeIndex(len: nat, n: int): (k: nat)
    ensures k <= len
    ensures 0 <= n ==> k == if n < len then n else len
    ensures n < 0 ==> k == if len + n < 0 then 0 else len + n
  {
    if n < 0 then (if len + n < 0 then 0 else len + n)
    else if n < len then n else len
  }

  /** proto_list.drop(n) is `slice(n)`. */
  function Drop<T>(a: seq<T>, n: int): seq<T>
  {
    a[RelativeIndex(|a|, n)..]
  }

  /** proto_list.take(n) is `slice(0, n)`. */
  function Take<T>(a: seq<T>, n: int): seq<T>
  {
    a[..RelativeIndex(|a|, n)]
  }

  /** take and drop split a list at the same index, for every n. */
  lemma TakeDropSplit<T>(a: seq<T>, n: int)
    ensures Take(a, n) + Drop(a, n) == a
    ensures 0 <= n ==> |Take(a, n)| == (if n < |a| then n else |a|)
    ensures 0 <= n ==> |Drop(a, n)| == (if n < |a| then |a| - n else 0)
    ensures n < 0 ==> |Drop(a, n)| == (if -n < |a| then -n else |a|)
  {
  }

  lemma DropTakeExamples()
    ensures |Drop([1, 2, 3, 4, 5], 1)| == 4 && Drop([1, 2, 3, 4, 5], 3) == [4, 5]
    ensures Take([1, 2, 3, 4, 5], 3) == [1, 2, 3] && Take([1, 2], 4) == [1, 2]
    ensures Drop([1, 2, 3, 4, 5], 2)[0] == 3
  {
    assert [1, 2, 3, 4, 5][3..] == [4, 5];
    assert [1, 2, 3, 4, 5][..3] == [1, 2, 3];
  }

  /** proto_list.min (taak.js:451-455): starts from element 0 and keeps any
      smaller element; undefined (None) on an empty list. */
  method Min(a: seq<int>) returns (out: Option<int>)
    ensures out == None <==> a == []
    ensures out.Some? ==> out.value in a && forall x :: x in a ==> out.value <= x
  {
    if a == [] {
      return None;
    }
    var m := a[0];
    var i := 0;
    while i < |a|
      invariant 0 <= i <= |a|
      invariant m in a
      invariant forall j :: 0 <= j < i ==> m <= a[j]
      invariant m <= a[0]
    {
      if a[i] < m {
        m := a[i];
      }
      i := i + 1;
    }
    out := Some(m);
  }

  /** proto_list.max (taak.js:457-461). */
  method Max(a: seq<int>) returns (out: Option<int>)
    ensures out == None <==> a == []
    ensures out.Some? ==> out.value in a && forall x :: x in a ==> x <= out.value
  {
    if a == [] {
      return None;
    }
    var m := a[0];
    var i := 0;
    while i < |a|
      invariant 0 <= i <= |a|
      invariant m in a
      invariant forall j :: 0 <= j < i ==> a[j] <= m
      invariant a[0] <= m
    {
      if a[i] > m {
        m := a[i];
      }
      i := i + 1;
    }
    out := Some(m);
  }

  /** Where Array.prototype.indexOf starts: `from`, counted from the end when
      negative; 0 when it is undefined. */
  function SearchStart(len: nat, from: Option<int>): (k: nat)
    ensures k <= len
  {
    if from.None? then 0 else RelativeIndex(len, from.value)
  }

  function IndexFrom<T(==)>(a: seq<T>, v: T, k: nat): (r: int)
    requires k <= |a|
    ensures r == -1 || (k <= r < |a| && a[r] == v)
    ensures r == -1 ==> forall j :: k <= j < |a| ==> a[j] != v
    ensures r != -1 ==> forall j :: k <= j < r ==> a[j] != v
    decreases |a| - k
  {
    if k == |a| then -1 else if a[k] == v then k else IndexFrom(a, v, k + 1)
  }

  /** proto_list.indexOf (taak.js:463-469): the first index at or after the
      start that holds the value, or -1. */
  function IndexOf<T(==)>(a: seq<T>, v: T, from: Option<int>): (r: int)
    ensures r == -1 || (SearchStart(|a|, from) <= r < |a| && a[r] == v)
    ensures forall j :: SearchStart(|a|, from) <= j < |a| && (r == -1 || j < r) ==> a[j] != v
  {
    IndexFrom(a, v, SearchStart(|a|, from))
  }

  /** Where Array.prototype.lastIndexOf starts searching backwards: the last
      index when `from` is undefined, else `from` (counted from the end when
      negative) capped at the last index; -1 means nothing is searched. */
  function LastSearchStart(len: nat, from: Option<int>): (k: int)
    ensures -1 <= k < len
  {
    if from.None? then len - 1
    else if from.value >= 0 then (if from.value < len then from.value else len - 1)
    else if len + from.value < -1 then -1 else len + from.value
  }

  function LastIndexFrom<T(==)>(a: seq<T>, v: T, k: int): (r: int)
    requires -1 <= k < |a|
    ensures r == -1 || (0 <= r <= k && a[r] == v)
    ensures forall j :: 0 <= j <= k && j > r ==> a[j] != v
    decreases k + 1
  {
    if k < 0 then -1 else if a[k] == v then k else LastIndexFrom(a, v, k - 1)
  }

  /** proto_list.lastIndexOf (taak.js:471-477): the last index at or before
      the start that holds the value, or -1. */
  function LastIndexOf<T(==)>(a: seq<T>, v: T, from: Option<int>): (r: int)
    ensures r == -1 || (0 <= r <= LastSearchStart(|a|, from) && a[r] == v)
    ensures forall j :: 0 <= j <= LastSearchStart(|a|, from) && j > r ==> a[j] != v
  {
    LastIndexFrom(a, v, LastSearchStart(|a|, from))
  }

  lemma IndexExamples()
    ensures IndexOf([7, 2, 99, 1, 13, 45, 7], 99, Some(0)) == 2
    ensures IndexOf([7, 2, 99, 1, 13, 45, 7], 7, Some(4)) == 6
    ensures IndexOf([7, 2, 99, 1, 13, 45, 7], 44, Some(0)) == -1
    ensures LastIndexOf([7, 2, 99, 1, 13, 45, 7], 99, None) == 2
    ensures LastIndexOf([7, 2, 99, 1, 13, 45, 7], 7, None) == 6
    ensures LastIndexOf([7, 2, 99, 1, 13, 45, 7], 7, Some(5)) == 0
    ensures LastIndexOf([7, 2, 99, 1, 13, 45, 7], 44, Some(0)) == -1
  {
  }

  /** proto_list.fold is `reduce(f, init)`: a left fold. */
  function FoldLeft<A, T>(f: (A, T) -> A, init: A, a: seq<T>): A
  {
    if a == [] then init else f(FoldLeft(f, init, a[..|a| - 1]), a[|a| - 1])
  }

  /** Folding a concatenation folds the second part from the first's result. */
  lemma {:induction false} FoldLeftAppend<A, T>(f: (A, T) -> A, init: A, a: seq<T>, b: seq<T>)
    ensures FoldLeft(f, init, a + b) == FoldLeft(f, FoldLeft(f, init, a), b)
  {
    if b == [] {
      assert a + b == a;
    } else {
      assert (a + b)[..|a + b| - 1] == a + b[..|b| - 1];
      FoldLeftAppend(f, init, a, b[..|b| - 1]);
    }
  }

  lemma FoldExample()
    ensures FoldLeft((x: int, y: int) => x * y, 1, [1, 2, 3, 4]) == 24
  {
    assert [1, 2, 3, 4][..3] == [1, 2, 3];
    assert [1, 2, 3][..2] == [1, 2];
    assert [1, 2][..1] == [1];
  }

  /** proto_list.all is `every(p)`. */
  function All<T>(p: T -> bool, a: seq<T>): (r: bool)
    ensures r <==> forall i :: 0 <= i < |a| ==> p(a[i])
  {
    a == [] || (p(a[0]) && All(p, a[1..]))
  }

  /** proto_list.any is `some(p)`. */
  function Any<T>(p: T -> bool, a: seq<T>): (r: bool)
    ensures r <==> exists i :: 0 <= i < |a| && p(a[i])
  {
    a != [] && (p(a[0]) || Any(p, a[1..]))
  }

  /** proto_list.get(n) reads `_array[n]`: undefined outside the indices;
      proto_list.head is get(0). */
  function Get<T>(a: seq<T>, n: int): (r: Option<T>)
    ensures r.Some? <==> 0 <= n < |a|
    ensures r.Some? ==> r.value == a[n]
  {
    if 0 <= n < |a| then Some(a[n]) else None
  }

  /** For a non-negative n, get(n) is the head of drop(n), and undefined
      exactly when drop(n) is empty. */
  lemma GetDrop<T>(a: seq<T>, n: int)
    requires 0 <= n
    ensures Get(a, n) == (if Drop(a, n) == [] then None else Some(Drop(a, n)[0]))
  {
  }

  function Reversed<T>(s: seq<T>): (r: seq<T>)
  {
    if s == [] then [] else [s[|s| - 1]] + Reversed(s[..|s| - 1])
  }

  lemma {:induction false} ReversedIndex<T>(s: seq<T>)
    ensures |Reversed(s)| == |s|
    ensures forall k :: 0 <= k < |s| ==> Reversed(s)[k] == s[|s| - 1 - k]
  {
    if s != [] {
      ReversedIndex(s[..|s| - 1]);
    }
  }

  /** Reversing twice gives the list back. */
  lemma ReversedTwice<T>(s: seq<T>)
    ensures Reversed(Reversed(s)) == s
  {
    ReversedIndex(s);
    ReversedIndex(Reversed(s));
  }

  /** proto_list.reverse (taak.js:515-517) calls Array.prototype.reverse,
      which reverses the list's own array in place; the returned list wraps
      that same array. */
  method Reverse<T>(a: array<T>)
    modifies a
    ensures a[..] == Reversed(old(a[..]))
  {
    var lo, hi := 0, a.Length - 1;
    while lo < hi
      invariant 0 <= lo <= a.Length && hi == a.Length - 1 - lo
      invariant forall k :: 0 <= k < lo ==> a[k] == old(a[a.Length - 1 - k]) && a[a.Length - 1 - k] == old(a[k])
      invariant forall k :: lo <= k <= hi ==> a[k] == old(a[k])
    {
      a[lo], a[hi] := a[hi], a[lo];
      lo, hi := lo + 1, hi - 1;
    }
    ReversedIndex(old(a[..]));
  }
}
