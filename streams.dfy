/** The push streams of taak.js:534-1058 (doc/zen.js:735-1279).

    A stream is anything with `each(f)`; `each` calls the consumer `f` on
    the elements in order, and the consumer answers STOP to cancel. Consumers
    in the source are closures with their own state (a counter in `get`, an
    accumulator in `toArray`), so a consumer is modelled as a function of
    everything it has been handed so far, the newest element last.

    Each operator is modelled together with the array source it drives
    (`proto_stream_array.each`, taak.js:742-749): the method's loop is the
    array's loop, and its body is the operator's callback with the
    operator's local counters. `pulled` counts the source elements that the
    array handed to the operator's callback. */
module Streams {
  import opened Base
  import opened Lists

  type Consumer<!T> = seq<T> -> Signal

  /** A consumer that never stops, such as the one of `toArray` or `fold`. */
  function NeverStop<T>(): Consumer<T>
  {
    h => Continue
  }

  /** The consumer answered Continue for every nonempty prefix of p. */
  ghost predicate Continues<T>(p: seq<T>, k: Consumer<T>)
  {
    forall j :: 0 < j <= |p| ==> k(p[..j]) == Continue
  }

  function CutLengthFrom<T>(s: seq<T>, k: Consumer<T>, i: nat): (n: nat)
    requires i <= |s|
    ensures i <= n <= |s|
    decreases |s| - i
  {
    if i == |s| then |s|
    else if k(s[..i + 1]) == Stop then i + 1
    else CutLengthFrom(s, k, i + 1)
  }

  /** What a consumer receives when the elements s are pushed to it one at a
      time and pushing ends at the first STOP: s up to and including the
      element the consumer stopped on. */
  function Cut<T>(s: seq<T>, k: Consumer<T>): seq<T>
  {
    s[..CutLengthFrom(s, k, 0)]
  }

  lemma {:induction false} CutLengthFromFacts<T>(s: seq<T>, k: Consumer<T>, i: nat)
    requires i <= |s|
    ensures var n := CutLengthFrom(s, k, i);
      (forall j :: i < j < n ==> k(s[..j]) == Continue) &&
      (n < |s| ==> i < n && k(s[..n]) == Stop)
    decreases |s| - i
  {
    if i < |s| && k(s[..i + 1]) != Stop {
      CutLengthFromFacts(s, k, i + 1);
    }
  }

  /** Every element delivered before the last one was answered with Continue,
      and the delivery falls short of s only because of a STOP on its last
      element. */
  lemma CutSpec<T>(s: seq<T>, k: Consumer<T>)
    ensures Cut(s, k) <= s
    ensures forall j :: 0 < j < |Cut(s, k)| ==> k(s[..j]) == Continue
    ensures |Cut(s, k)| < |s| ==> |Cut(s, k)| > 0 && k(Cut(s, k)) == Stop
  {
    CutLengthFromFacts(s, k, 0);
  }

  lemma {:induction false} CutFromStop<T>(s: seq<T>, k: Consumer<T>, n: nat, i: nat)
    requires i < n <= |s|
    requires forall j :: i < j < n ==> k(s[..j]) == Continue
    requires k(s[..n]) == Stop
    ensures CutLengthFrom(s, k, i) == n
    decreases n - i
  {
    if i + 1 < n {
      CutFromStop(s, k, n, i + 1);
    }
  }

  lemma {:induction false} CutFromAll<T>(s: seq<T>, k: Consumer<T>, i: nat)
    requires i <= |s|
    requires forall j :: i < j <= |s| ==> k(s[..j]) == Continue
    ensures CutLengthFrom(s, k, i) == |s|
    decreases |s| - i
  {
    if i < |s| {
      CutFromAll(s, k, i + 1);
    }
  }

  /** A consumer that said Continue to everything received everything. */
  lemma CutAll<T>(s: seq<T>, k: Consumer<T>)
    requires Continues(s, k)
    ensures Cut(s, k) == s
  {
    CutFromAll(s, k, 0);
  }

  /** A consumer that said Continue to p and STOP to the next element y of s
      received exactly p + [y]. */
  lemma CutStopAt<T>(s: seq<T>, k: Consumer<T>, p: seq<T>, y: T)
    requires p + [y] <= s
    requires Continues(p, k) && k(p + [y]) == Stop
    ensures Cut(s, k) == p + [y]
  {
    var n := |p| + 1;
    assert s[..n] == p + [y];
    forall j | 0 < j < n ensures k(s[..j]) == Continue {
      assert s[..j] == p[..j];
    }
    CutFromStop(s, k, n, 0);
  }

  /** The same, for a non-empty delivery named as a whole. */
  lemma CutStopLast<T>(s: seq<T>, k: Consumer<T>, out: seq<T>)
    requires out != [] && out <= s
    requires Continues(out[..|out| - 1], k) && k(out) == Stop
    ensures Cut(s, k) == out
  {
    var p := out[..|out| - 1];
    assert out == p + [out[|out| - 1]];
    CutStopAt(s, k, p, out[|out| - 1]);
  }

  /** With a consumer that never stops, everything is delivered. */
  lemma CutNeverStop<T>(s: seq<T>)
    ensures Cut(s, NeverStop()) == s
  {
    CutAll(s, NeverStop());
  }

  /** One more element handed to a consumer that had only said Continue. */
  lemma ContinuesStep<T>(out: seq<T>, y: T, k: Consumer<T>)
    requires Continues(out, k) && k(out + [y]) == Continue
    ensures Continues(out + [y], k)
  {
    var o := out + [y];
    forall j | 0 < j <= |o| ensures k(o[..j]) == Continue {
      if j <= |out| {
        assert o[..j] == out[..j];
      } else {
        assert o[..j] == o;
      }
    }
  }

  /** proto_stream_array.each (taak.js:742-749): a[0], a[1], … in order, and
      nothing after the first STOP. */
  method ArrayEach<T>(a: seq<T>, k: Consumer<T>) returns (out: seq<T>)
    ensures out == Cut(a, k)
  {
    out := [];
    var i := 0;
    while i < |a|
      invariant 0 <= i <= |a| && out == a[..i]
      invariant Continues(out, k)
    {
      var x := a[i];
      i := i + 1;
      if k(out + [x]) == Stop {
        CutStopAt(a, k, out, x);
        out := out + [x];
        return;
      }
      ContinuesStep(out, x, k);
      out := out + [x];
    }
    assert a[..i] == a;
    CutAll(a, k);
  }

  /** toArray(fromArray(a)) == a: toArray's consumer never stops, so the
      array stream's loop hands on every element. */
  method ToArrayFromArray<T>(a: seq<T>) returns (out: seq<T>)
    ensures out == a
  {
    out := ArrayEach(a, NeverStop());
    CutNeverStop(a);
  }
}

module StreamOps {
  import opened Base
  import opened Lists
  import opened Streams

  /** The last call to the consumer, made with the whole delivered history,
      was answered with STOP. */
  predicate Stopped<T>(out: seq<T>, k: Consumer<T>)
  {
    out != [] && k(out) == Stop
  }

  /** proto_stream_map.each (taak.js:764-769): transform(x) for every pulled x. */
  method MapEach<T, U>(a: seq<T>, transform: T -> U, k: Consumer<U>) returns (out: seq<U>, pulled: nat)
    ensures out == Cut(Map(transform, a), k)
    ensures pulled == |out|
  {
    ghost var all := Map(transform, a);
    out, pulled := [], 0;
    while pulled < |a|
      invariant pulled <= |a| && out == all[..pulled]
      invariant Continues(out, k)
    {
      var x := a[pulled];
      pulled := pulled + 1;
      var y := transform(x);
      assert all[..pulled] == out + [y];
      if k(out + [y]) == Stop {
        CutStopAt(all, k, out, y);
        out := out + [y];
        return;
      }
      ContinuesStep(out, y, k);
      out := out + [y];
    }
    assert all[..pulled] == all;
    CutAll(all, k);
  }

  /** The values map2 forwards: transform applied to each pair of neighbours. */
  function Neighbours<T, U>(transform: (T, T) -> U, a: seq<T>): (r: seq<U>)
    ensures |r| == (if a == [] then 0 else |a| - 1)
    ensures forall i :: 0 <= i < |r| ==> r[i] == transform(a[i], a[i + 1])
  {
    if |a| < 2 then [] else seq(|a| - 1, i requires 0 <= i < |a| - 1 => transform(a[i], a[i + 1]))
  }

  /** proto_stream_map2.each (taak.js:771-784): the carry `a` holds the
      previous element; the first element only fills it. */
  method Map2Each<T, U>(a: seq<T>, transform: (T, T) -> U, k: Consumer<U>) returns (out: seq<U>, pulled: nat)
    ensures out == Cut(Neighbours(transform, a), k)
    ensures pulled == if Stopped(out, k) then |out| + 1 else |a|
  {
    ghost var all := Neighbours(transform, a);
    out, pulled := [], 0;
    var carry: Option<T> := None;
    while pulled < |a|
      invariant pulled <= |a|
      invariant carry == if pulled == 0 then None else Some(a[pulled - 1])
      invariant |out| == (if pulled == 0 then 0 else pulled - 1) && out == all[..|out|]
      invariant Continues(out, k)
    {
      var x := a[pulled];
      pulled := pulled + 1;
      if carry.None? {
        carry := Some(x);
      } else {
        var y := transform(carry.value, x);
        carry := Some(x);
        assert y == all[|out|];
        assert all[..|out| + 1] == out + [y];
        if k(out + [y]) == Stop {
          CutStopAt(all, k, out, y);
          out := out + [y];
          return;
        }
        ContinuesStep(out, y, k);
        out := out + [y];
      }
    }
    assert out == all;
    CutAll(all, k);
  }

  /** proto_stream_filter.each (taak.js:786-793). */
  method FilterEach<T>(a: seq<T>, p: T -> bool, k: Consumer<T>) returns (out: seq<T>, pulled: nat)
    ensures out == Cut(Filter(p, a), k)
    ensures pulled <= |a| && out == Filter(p, a[..pulled])
    ensures Stopped(out, k) ==> pulled > 0 && p(a[pulled - 1])
    ensures !Stopped(out, k) ==> pulled == |a|
  {
    ghost var all := Filter(p, a);
    out, pulled := [], 0;
    while pulled < |a|
      invariant pulled <= |a| && out == Filter(p, a[..pulled])
      invariant Continues(out, k)
    {
      var x := a[pulled];
      FilterStep(p, a[..pulled], x);
      assert a[..pulled + 1] == a[..pulled] + [x];
      FilterPrefix(p, a, pulled + 1);
      pulled := pulled + 1;
      if p(x) {
        if k(out + [x]) == Stop {
          CutStopAt(all, k, out, x);
          out := out + [x];
          return;
        }
        ContinuesStep(out, x, k);
        out := out + [x];
      }
    }
    assert a[..pulled] == a;
    CutAll(all, k);
  }

  /** n clamped to 0..len: how many leading elements drop(n) discards from,
      and take(n) forwards of, a source of length len. */
  function ClampCount(n: int, len: nat): (c: nat)
    ensures c <= len
    ensures n <= 0 ==> c == 0
    ensures 0 <= n <= len ==> c == n
    ensures len <= n ==> c == len
  {
    if n <= 0 then 0 else if n < len then n else len
  }

  /** proto_stream_drop.each (taak.js:795-804): the counter n is decremented
      for each discarded element; a count of zero or less discards nothing. */
  method DropEach<T>(a: seq<T>, n: int, k: Consumer<T>) returns (out: seq<T>, pulled: nat)
    ensures out == Cut(a[ClampCount(n, |a|)..], k)
    ensures pulled == if Stopped(out, k) then ClampCount(n, |a|) + |out| else |a|
  {
    ghost var d := ClampCount(n, |a|);
    ghost var all := a[d..];
    var rest := n;
    out, pulled := [], 0;
    while pulled < |a|
      invariant pulled <= |a|
      invariant rest == if n <= 0 then n else if pulled < n then n - pulled else 0
      invariant out == if pulled <= d then [] else a[d..pulled]
      invariant Continues(out, k)
      invariant pulled > d ==> pulled == d + |out|
    {
      var x := a[pulled];
      pulled := pulled + 1;
      if rest > 0 {
        rest := rest - 1;
      } else {
        assert a[d..pulled] == out + [x];
        assert out + [x] <= all;
        if k(out + [x]) == Stop {
          CutStopAt(all, k, out, x);
          out := out + [x];
          return;
        }
        ContinuesStep(out, x, k);
        out := out + [x];
      }
    }
    assert out == all;
    CutAll(all, k);
  }

  /** proto_stream_take.each (taak.js:806-815): the callback answers STOP only
      when it is handed an element after the quota is used up, so a source
      longer than the quota is pulled once more than the quota. */
  method TakeEach<T>(a: seq<T>, n: int, k: Consumer<T>) returns (out: seq<T>, pulled: nat)
    ensures out == Cut(a[..ClampCount(n, |a|)], k)
    ensures pulled == if Stopped(out, k) then |out|
                      else if ClampCount(n, |a|) < |a| then ClampCount(n, |a|) + 1 else |a|
  {
    ghost var t := ClampCount(n, |a|);
    ghost var all := a[..t];
    var rest := n;
    out, pulled := [], 0;
    while pulled < |a|
      invariant pulled <= t && out == a[..pulled] && rest == n - pulled
      invariant Continues(out, k)
    {
      var x := a[pulled];
      pulled := pulled + 1;
      if rest <= 0 {
        assert out == all;
        CutAll(all, k);
        return;
      }
      rest := rest - 1;
      assert a[..pulled] == out + [x];
      if k(out + [x]) == Stop {
        CutStopAt(all, k, out, x);
        out := out + [x];
        return;
      }
      ContinuesStep(out, x, k);
      out := out + [x];
    }
    assert out == all;
    CutAll(all, k);
  }

  /** JavaScript's `i < m` and `i >= n` when the bound may be undefined:
      every comparison with undefined is false. */
  predicate LessThan(i: int, m: Option<int>)
  {
    m.Some? && i < m.value
  }

  predicate AtLeast(i: int, n: Option<int>)
  {
    n.Some? && i >= n.value
  }

  /** The source indices slice(n, m) forwards, clamped to a source of length len:
      [lo, hi); empty when either bound is undefined. */
  function SliceHigh(len: nat, m: Option<int>): (hi: nat)
    ensures hi <= len
  {
    if m.None? || m.value <= 0 then 0 else if m.value < len then m.value else len
  }

  function SliceLow(len: nat, n: Option<int>, m: Option<int>): (lo: nat)
    ensures lo <= SliceHigh(len, m)
  {
    var hi := SliceHigh(len, m);
    if n.None? then hi else if n.value <= 0 then 0 else if n.value < hi then n.value else hi
  }

  /** proto_stream_slice.each (taak.js:817-831): the index i counts source
      elements while it is below m; the callback only answers STOP when the
      consumer does, so the source is drained to its end after index m. */
  method SliceEach<T>(a: seq<T>, n: Option<int>, m: Option<int>, k: Consumer<T>) returns (out: seq<T>, pulled: nat)
    ensures out == Cut(a[SliceLow(|a|, n, m)..SliceHigh(|a|, m)], k)
    ensures pulled == if Stopped(out, k) then SliceLow(|a|, n, m) + |out| else |a|
    ensures n.None? || m.None? ==> out == [] && pulled == |a|
  {
    ghost var lo, hi := SliceLow(|a|, n, m), SliceHigh(|a|, m);
    ghost var all := a[lo..hi];
    var i := 0;
    out, pulled := [], 0;
    while pulled < |a|
      invariant pulled <= |a|
      invariant i == if LessThan(pulled, m) then pulled else if m.Some? && m.value > 0 then m.value else 0
      invariant out == if pulled <= lo then [] else a[lo..if pulled < hi then pulled else hi]
      invariant Continues(out, k)
      invariant lo < pulled <= hi ==> pulled == lo + |out|
    {
      var x := a[pulled];
      pulled := pulled + 1;
      if LessThan(i, m) {
        if AtLeast(i, n) {
          assert a[lo..pulled] == out + [x];
          assert out + [x] <= all;
          if k(out + [x]) == Stop {
            CutStopAt(all, k, out, x);
            out := out + [x];
            return;
          }
          ContinuesStep(out, x, k);
          out := out + [x];
        }
        i := i + 1;
      }
    }
    assert out == all;
    CutAll(all, k);
  }

  /** slice(n, m) under a consumer that never stops delivers a[n..m] and
      still pulls the whole source: the slice's callback never answers STOP. */
  method SliceDrainsSource<T>(a: seq<T>, n: int, m: int) returns (out: seq<T>, pulled: nat)
    requires 0 <= n <= m <= |a|
    ensures out == a[n..m] && pulled == |a|
  {
    out, pulled := SliceEach(a, Some(n), Some(m), NeverStop());
    CutNeverStop(a[n..m]);
  }

  /** proto_stream.splice (taak.js:621-628) creates its stream on the slice
      prototype and sets offset, count and items, never n and m: driving it
      runs the slice loop with both bounds undefined. */
  method SpliceEach<T>(a: seq<T>, offset: int, count: int, items: seq<T>, k: Consumer<T>) returns (out: seq<T>, pulled: nat)
    ensures out == [] && pulled == |a|
  {
    out, pulled := SliceEach(a, None, None, k);
  }

  /** The element proto_stream_splice.each forwards for source index i:
      items[i - offset] inside the replaced range (undefined past the end of
      items), the source element elsewhere. */
  function Spliced<T>(a: seq<T>, offset: int, count: int, items: seq<T>): (r: seq<Option<T>>)
    ensures |r| == |a|
  {
    seq(|a|, i requires 0 <= i < |a| =>
      if i < offset then Some(a[i])
      else if i < offset + count then (if i - offset < |items| then Some(items[i - offset]) else None)
      else Some(a[i]))
  }

  /** proto_stream_splice.each (taak.js:833-854), which no stream reaches:
      one forwarded value per source element, the replaced range taken from items. */
  method SpliceBodyEach<T>(a: seq<T>, offset: int, count: int, items: seq<T>, k: Consumer<Option<T>>)
    returns (out: seq<Option<T>>, pulled: nat)
    ensures out == Cut(Spliced(a, offset, count, items), k)
    ensures pulled == |out|
  {
    ghost var all := Spliced(a, offset, count, items);
    var i := 0;
    out, pulled := [], 0;
    while pulled < |a|
      invariant pulled <= |a| && i == pulled && out == all[..pulled]
      invariant Continues(out, k)
    {
      var x := a[pulled];
      pulled := pulled + 1;
      var y: Option<T>;
      if i < offset {
        y := Some(x);
      } else if i < offset + count {
        y := if i - offset < |items| then Some(items[i - offset]) else None;
      } else {
        y := Some(x);
      }
      assert all[..pulled] == out + [y];
      if k(out + [y]) == Stop {
        CutStopAt(all, k, out, y);
        out := out + [y];
        return;
      }
      ContinuesStep(out, y, k);
      out := out + [y];
      i := i + 1;
    }
    assert out == all;
    CutAll(all, k);
  }

  /** How a call to `each` ends: it returns a value (STOP, or undefined read
      as Continue), or it throws. */
  datatype Completion = Returned(signal: Signal) | Threw

  /** proto_stream_append.each (taak.js:856-863): the source is forwarded, then
      `f(x)` reads the undeclared variable x, which throws a ReferenceError;
      the item is never forwarded. */
  method AppendEach<T>(a: seq<T>, item: T, k: Consumer<T>) returns (out: seq<T>, completion: Completion)
    ensures out == Cut(a, k)
    ensures completion == Threw
  {
    out := ArrayEach(a, k);
    completion := Threw;
  }

  /** The consumer k after it has been handed the elements pre. */
  function After<T>(k: Consumer<T>, pre: seq<T>): Consumer<T>
  {
    h => k(pre + h)
  }

  /** Pushing s1 + s2 to one consumer is pushing s1 and, unless the consumer
      stopped inside s1, then s2 to the consumer that has seen s1. */
  lemma CutAppend<T>(s1: seq<T>, s2: seq<T>, k: Consumer<T>)
    ensures Cut(s1 + s2, k) ==
      if |Cut(s1, k)| < |s1| || Stopped(s1, k) then Cut(s1, k) else s1 + Cut(s2, After(k, s1))
  {
    var c1 := Cut(s1, k);
    CutSpec(s1, k);
    if |c1| < |s1| || Stopped(s1, k) {
      if |c1| == |s1| {
        assert c1 == s1;
      }
      assert c1 != [] && k(c1) == Stop;
      var p := c1[..|c1| - 1];
      assert c1 == p + [c1[|c1| - 1]];
      forall j | 0 < j <= |p| ensures k(p[..j]) == Continue {
        assert p[..j] == s1[..j];
      }
      CutStopAt(s1 + s2, k, p, c1[|c1| - 1]);
    } else {
      assert c1 == s1;
      var c2 := Cut(s2, After(k, s1));
      CutSpec(s2, After(k, s1));
      forall j | 0 < j <= |s1| ensures k(s1[..j]) == Continue {
        if j < |s1| {
        } else {
          assert s1[..j] == s1;
        }
      }
      if |c2| < |s2| || Stopped(s2, After(k, s1)) {
        if |c2| == |s2| {
          assert c2 == s2;
        }
        assert c2 != [] && After(k, s1)(c2) == Stop;
        var p := s1 + c2[..|c2| - 1];
        assert s1 + c2 == p + [c2[|c2| - 1]];
        forall j | 0 < j <= |p| ensures k(p[..j]) == Continue {
          if j <= |s1| {
            assert p[..j] == s1[..j];
          } else {
            assert p[..j] == s1 + s2[..j - |s1|];
          }
        }
        assert k(s1 + c2) == After(k, s1)(c2);
        CutStopAt(s1 + s2, k, p, c2[|c2| - 1]);
      } else {
        assert c2 == s2;
        forall j | 0 < j <= |s1 + s2| ensures k((s1 + s2)[..j]) == Continue {
          if j <= |s1| {
            assert (s1 + s2)[..j] == s1[..j];
          } else {
            assert (s1 + s2)[..j] == s1 + s2[..j - |s1|];
          }
        }
        CutAll(s1 + s2, k);
      }
    }
  }

  /** proto_stream_prefix.each (taak.js:865-874): the item first; a STOP on it
      returns STOP before the source is driven. Otherwise the source's own
      `each` runs and its result is dropped, so prefix then returns undefined. */
  method PrefixEach<T>(a: seq<T>, item: T, k: Consumer<T>) returns (out: seq<T>, pulled: nat, signal: Signal)
    ensures out == Cut([item] + a, k)
    ensures pulled == |out| - 1
    ensures signal == k([item])
  {
    if k([item]) == Stop {
      out, pulled, signal := [item], 0, Stop;
    } else {
      var rest := ArrayEach(a, After(k, [item]));
      out, pulled, signal := [item] + rest, |rest|, Continue;
    }
    CutAppend([item], a, k);
    CutSpec([item], k);
  }

  /** proto_stream_concat.each (taak.js:876-887): both sources are driven, the
      second one whether or not the consumer stopped the first. */
  method ConcatEach<T>(a: seq<T>, b: seq<T>, k: Consumer<T>) returns (out: seq<T>, pulledA: nat, pulledB: nat)
    ensures out == Cut(a, k) + Cut(b, After(k, Cut(a, k)))
    ensures pulledA == |Cut(a, k)| && pulledB == |Cut(b, After(k, Cut(a, k)))|
  {
    var outA := ArrayEach(a, k);
    var outB := ArrayEach(b, After(k, outA));
    out, pulledA, pulledB := outA + outB, |outA|, |outB|;
  }

  /** After a STOP inside the first source, concat still hands the consumer
      the next element of the second: its output is not the cut of a + b. */
  lemma ConcatIgnoresStop<T>(a: seq<T>, b: seq<T>, k: Consumer<T>)
    requires Stopped(Cut(a, k), k) && b != []
    ensures |Cut(a, k) + Cut(b, After(k, Cut(a, k)))| > |Cut(a + b, k)|
  {
    CutAppend(a, b, k);
    CutSpec(a, k);
    CutSpec(b, After(k, Cut(a, k)));
    if |Cut(a, k)| == |a| {
      assert Cut(a, k) == a;
    }
  }
}

module StreamReducers {
  import opened Base
  import opened Lists
  import opened Streams
  import opened StreamOps

  /** proto_stream.fold (taak.js:660-666): the callback returns undefined, so
      the whole source is pulled. */
  method FoldEach<A, T>(a: seq<T>, init: A, f: (A, T) -> A) returns (out: A, pulled: nat)
    ensures out == FoldLeft(f, init, a)
    ensures pulled == |a|
  {
    out, pulled := init, 0;
    while pulled < |a|
      invariant pulled <= |a| && out == FoldLeft(f, init, a[..pulled])
    {
      var x := a[pulled];
      assert a[..pulled + 1] == a[..pulled] + [x];
      FoldLeftAppend(f, init, a[..pulled], [x]);
      out := f(out, x);
      pulled := pulled + 1;
    }
    assert a[..pulled] == a;
  }

  /** proto_stream.all (taak.js:668-675): `return false` only leaves the
      callback, whose undefined-or-false answer is not STOP; the method
      itself always returns true after testing every element, and so
      disagrees with All exactly when some element fails p. */
  method AllEach<T>(a: seq<T>, p: T -> bool) returns (r: bool, tested: nat)
    ensures r && tested == |a|
    ensures r != All(p, a) <==> exists i :: 0 <= i < |a| && !p(a[i])
  {
    tested := 0;
    while tested < |a|
      invariant tested <= |a|
    {
      var x := a[tested];
      var ok := p(x);
      tested := tested + 1;
    }
    r := true;
  }

  /** proto_stream.any (taak.js:677-684): always false, for the same reason,
      so it disagrees with Any exactly when some element satisfies p. */
  method AnyEach<T>(a: seq<T>, p: T -> bool) returns (r: bool, tested: nat)
    ensures !r && tested == |a|
    ensures r != Any(p, a) <==> exists i :: 0 <= i < |a| && p(a[i])
  {
    tested := 0;
    while tested < |a|
      invariant tested <= |a|
    {
      var x := a[tested];
      var hit := p(x);
      tested := tested + 1;
    }
    r := false;
  }

  /** proto_stream.head (taak.js:686-693): the first element, after which the
      callback answers STOP; undefined for an empty source. */
  method HeadEach<T>(a: seq<T>) returns (value: Option<T>, pulled: nat)
    ensures value == (if a == [] then None else Some(a[0]))
    ensures pulled == (if a == [] then 0 else 1)
  {
    value, pulled := None, 0;
    if pulled < |a| {
      var x := a[pulled];
      pulled := pulled + 1;
      value := Some(x);
    }
  }

  /** The index get(n) stops at: the counter n is decremented until it is at
      most 0, so n <= 0 selects the first element. */
  function GetIndex(n: int): nat
  {
    if n <= 0 then 0 else n
  }

  /** proto_stream.get (taak.js:695-706): the element at index n, after which
      the callback answers STOP; undefined past the end. */
  method GetEach<T>(a: seq<T>, n: int) returns (value: Option<T>, pulled: nat)
    ensures value == (if GetIndex(n) < |a| then Some(a[GetIndex(n)]) else None)
    ensures pulled == (if GetIndex(n) < |a| then GetIndex(n) + 1 else |a|)
  {
    var rest := n;
    value, pulled := None, 0;
    while pulled < |a|
      invariant pulled <= |a| && pulled <= GetIndex(n)
      invariant rest == n - pulled
      invariant value == None
    {
      var x := a[pulled];
      pulled := pulled + 1;
      if rest <= 0 {
        value := Some(x);
        return;
      } else {
        rest := rest - 1;
      }
    }
  }

  /** proto_stream_array.get (taak.js:751-753) overrides get on array
      streams: it reads `this._array[n]` directly, which is Lists.Get, and
      pulls nothing. It agrees with the generic get for every n >= 0, and for
      a negative n on a non-empty array the two differ: the generic loop
      delivers the first element, the override gives undefined. */
  method ArrayGetOverride<T>(a: seq<T>, n: int) returns (generic: Option<T>)
    ensures 0 <= n ==> generic == Get(a, n)
    ensures generic == Get(a, n) <==> 0 <= n || a == []
    ensures n < 0 ==> Get(a, n) == None && generic == Get(a, 0)
  {
    var pulled;
    generic, pulled := GetEach(a, n);
  }

  /** proto_stream.toArray (taak.js:708-714): every element, in order. */
  method ToArrayEach<T>(a: seq<T>) returns (out: seq<T>)
    ensures out == a
  {
    out := [];
    var pulled := 0;
    while pulled < |a|
      invariant pulled <= |a| && out == a[..pulled]
    {
      var x := a[pulled];
      assert a[..pulled + 1] == out + [x];
      out := out + [x];
      pulled := pulled + 1;
    }
    assert a[..pulled] == a;
  }
}

module StreamGenerators {
  import opened Base
  import opened Streams
  import opened StreamOps

  /** The first n values of a generator. */
  function Generated<T>(gen: nat -> T, n: nat): (r: seq<T>)
    ensures |r| == n && forall i :: 0 <= i < n ==> r[i] == gen(i)
  {
    seq(n, i requires 0 <= i < n => gen(i))
  }

  /** proto_stream_function.each (taak.js:755-762): g() is called once per
      element, its i-th result modelled as gen(i). The loop only ends by a
      STOP, so the consumer is required to stop within n elements. */
  method FunctionEach<T>(gen: nat -> T, k: Consumer<T>, ghost n: nat) returns (out: seq<T>, signal: Signal)
    requires 0 < n && k(Generated(gen, n)) == Stop
    ensures out == Cut(Generated(gen, n), k) && Stopped(out, k)
    ensures signal == Stop
  {
    ghost var all := Generated(gen, n);
    out := [];
    while true
      invariant |out| < n && out == all[..|out|]
      invariant Continues(out, k)
      decreases n - |out|
    {
      var y := gen(|out|);
      assert all[..|out| + 1] == out + [y];
      if k(out + [y]) == Stop {
        CutStopAt(all, k, out, y);
        out := out + [y];
        signal := Stop;
        return;
      }
      ContinuesStep(out, y, k);
      out := out + [y];
      assert all[..n] == all;
    }
  }

  /** seed, seed + step, seed + 2 * step, ... */
  function Arithmetic(seed: int, step: int, n: nat): (r: seq<int>)
    ensures |r| == n && forall i :: 0 <= i < n ==> r[i] == seed + i * step
  {
    seq(n, i requires 0 <= i < n => seed + i * step)
  }

  /** proto_stream_seq.each (taak.js:889-896): value starts at seed and grows
      by step; the loop only ends by a STOP. */
  method SeqEach(seed: int, step: int, k: Consumer<int>, ghost n: nat) returns (out: seq<int>, signal: Signal)
    requires 0 < n && k(Arithmetic(seed, step, n)) == Stop
    ensures out == Cut(Arithmetic(seed, step, n), k) && Stopped(out, k)
    ensures signal == Stop
  {
    ghost var all := Arithmetic(seed, step, n);
    out := [];
    var value := seed;
    while true
      invariant |out| < n && out == all[..|out|]
      invariant value == seed + |out| * step
      invariant Continues(out, k)
      decreases n - |out|
    {
      assert all[..|out| + 1] == out + [value];
      if k(out + [value]) == Stop {
        CutStopAt(all, k, out, value);
        out := out + [value];
        signal := Stop;
        return;
      }
      ContinuesStep(out, value, k);
      out := out + [value];
      value := value + step;
      assert all[..n] == all;
    }
  }

  /** seed, next(seed), next(next(seed)), ... */
  function Iterated<T>(seed: T, next: T -> T, n: nat): (r: seq<T>)
    ensures |r| == n
    ensures n > 0 ==> r[0] == seed
    ensures forall i :: 0 < i < n ==> r[i] == next(r[i - 1])
  {
    if n == 0 then [] else
      var p := Iterated(seed, next, n - 1);
      if n == 1 then [seed] else p + [next(p[n - 2])]
  }

  /** proto_stream_iter.each (taak.js:898-906). */
  method IterEach<T>(seed: T, next: T -> T, k: Consumer<T>, ghost n: nat) returns (out: seq<T>, signal: Signal)
    requires 0 < n && k(Iterated(seed, next, n)) == Stop
    ensures out == Cut(Iterated(seed, next, n), k) && Stopped(out, k)
    ensures signal == Stop
  {
    ghost var all := Iterated(seed, next, n);
    out := [];
    var value := seed;
    while true
      invariant |out| < n && out == all[..|out|]
      invariant value == all[|out|]
      invariant Continues(out, k)
      decreases n - |out|
    {
      assert all[..|out| + 1] == out + [value];
      if k(out + [value]) == Stop {
        CutStopAt(all, k, out, value);
        out := out + [value];
        signal := Stop;
        return;
      }
      ContinuesStep(out, value, k);
      out := out + [value];
      assert all[..n] == all;
      value := next(value);
    }
  }

  /** The step argument of from: absent, a number, or a function. */
  datatype StepArg = NoStep | NumberStep(inc: int) | FunctionStep(next: int -> int)

  /** `seed || 0` and `step || 1`: a missing or zero seed is 0, a missing or zero
      numeric step is 1 (taak.js:1011-1012). */
  function FromSeed(seed: Option<int>): (s: int)
    ensures (seed.None? || seed.value == 0) ==> s == 0
    ensures seed.Some? ==> s == seed.value
  {
    if seed.None? then 0 else seed.value
  }

  function FromIncrement(step: StepArg): (inc: int)
    requires !step.FunctionStep?
    ensures inc != 0
    ensures step.NumberStep? && step.inc != 0 ==> inc == step.inc
  {
    if step.NoStep? || step.inc == 0 then 1 else step.inc
  }

  /** The first n values of from(seed, step) (taak.js:1007-1014): an iter
      stream for a function step, a seq stream otherwise. */
  function FromValues(seed: Option<int>, step: StepArg, n: nat): (r: seq<int>)
    ensures |r| == n
  {
    if step.FunctionStep? then Iterated(FromSeed(seed), step.next, n)
    else Arithmetic(FromSeed(seed), FromIncrement(step), n)
  }

  /** `seed || 0` and `step || 1` in effect: a zero seed counts like a
      missing one, and a zero numeric step like a missing one, whatever the
      other argument is. */
  lemma FromFalsyArguments(seed: Option<int>, step: StepArg, n: nat)
    ensures FromValues(Some(0), step, n) == FromValues(None, step, n)
    ensures FromValues(seed, NumberStep(0), n) == FromValues(seed, NoStep, n)
  {
  }

  /** Driving from(seed, step) until the consumer stops. */
  method FromEach(seed: Option<int>, step: StepArg, k: Consumer<int>, ghost n: nat) returns (out: seq<int>, signal: Signal)
    requires 0 < n && k(FromValues(seed, step, n)) == Stop
    ensures out == Cut(FromValues(seed, step, n), k) && Stopped(out, k)
    ensures signal == Stop
  {
    if step.FunctionStep? {
      out, signal := IterEach(FromSeed(seed), step.next, k, n);
    } else {
      out, signal := SeqEach(FromSeed(seed), FromIncrement(step), k, n);
    }
  }

  /** from() and from(0, 0) both count 0, 1, 2, ...; from(100, -2) counts down
      by two; from(1, x => 2 * x) doubles. */
  lemma FromExamples()
    ensures FromValues(None, NoStep, 4) == [0, 1, 2, 3]
    ensures FromValues(Some(0), NumberStep(0), 4) == [0, 1, 2, 3]
    ensures FromValues(Some(100), NumberStep(-2), 4) == [100, 98, 96, 94]
    ensures FromValues(Some(1), FunctionStep(x => 2 * x), 5) == [1, 2, 4, 8, 16]
  {
    var f := FromValues(Some(1), FunctionStep(x => 2 * x), 5);
    assert f[0] == 1 && f[1] == 2 && f[2] == 4 && f[3] == 8 && f[4] == 16;
  }

  /** take(n) over a generator (taak.js:806-815 over taak.js:755-762 or
      889-906): take's STOP ends the endless loop, after one more element
      than the quota has been generated. */
  method TakeGeneratedEach<T>(gen: nat -> T, n: int, k: Consumer<T>) returns (out: seq<T>, pulled: nat)
    ensures out == Cut(Generated(gen, if n <= 0 then 0 else n), k)
    ensures pulled == if Stopped(out, k) then |out| else |out| + 1
  {
    ghost var t: nat := if n <= 0 then 0 else n;
    ghost var all := Generated(gen, t);
    var rest := n;
    out, pulled := [], 0;
    while true
      invariant pulled <= t && out == all[..pulled] && rest == n - pulled
      invariant Continues(out, k)
      decreases t - pulled
    {
      var x := gen(pulled);
      pulled := pulled + 1;
      if rest <= 0 {
        assert out == all;
        CutAll(all, k);
        return;
      }
      rest := rest - 1;
      assert all[..pulled] == out + [x];
      if k(out + [x]) == Stop {
        CutStopAt(all, k, out, x);
        out := out + [x];
        return;
      }
      ContinuesStep(out, x, k);
      out := out + [x];
    }
  }

  /** from(0).take(3).toArray(): under a consumer that never stops, take(n)
      over a generator delivers n elements and generates n + 1. */
  method TakeGeneratedExtraPull<T>(gen: nat -> T, n: nat) returns (out: seq<T>, pulled: nat)
    ensures out == Generated(gen, n) && |out| == n && pulled == n + 1
  {
    out, pulled := TakeGeneratedEach(gen, n, NeverStop());
    CutNeverStop(Generated(gen, n));
  }
}
