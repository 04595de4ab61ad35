/** The small function combinators of taak.js:226-343 (doc/zen.js:269-387):
    flatten, compose, pick, step and the predicate joins. */
module Combinators {
  import opened Base

  /** One level of concatenation, the reference meaning of `flatten`. */
  function Concat<T>(xs: seq<seq<T>>): seq<T>
  {
    if xs == [] then [] else Concat(xs[..|xs| - 1]) + xs[|xs| - 1]
  }

  lemma {:induction false} ConcatAppend<T>(xs: seq<seq<T>>, ys: seq<seq<T>>)
    ensures Concat(xs + ys) == Concat(xs) + Concat(ys)
  {
    if ys == [] {
      assert xs + ys == xs;
    } else {
      var zs := xs + ys;
      assert zs[..|zs| - 1] == xs + ys[..|ys| - 1];
      ConcatAppend(xs, ys[..|ys| - 1]);
    }
  }

  /** Splitting the outer array at n splits the concatenation there. */
  lemma ConcatAt<T>(xs: seq<seq<T>>, n: nat)
    requires n <= |xs|
    ensures Concat(xs) == Concat(xs[..n]) + Concat(xs[n..])
  {
    var front, back := xs[..n], xs[n..];
    assert xs == front + back;
    ConcatAppend(front, back);
  }

  lemma {:induction false} ConcatLength<T>(xs: seq<seq<T>>)
    ensures |Concat(xs)| == SumLengths(xs)
  {
    if xs != [] {
      ConcatLength(xs[..|xs| - 1]);
    }
  }

  function SumLengths<T>(xs: seq<seq<T>>): nat
  {
    if xs == [] then 0 else SumLengths(xs[..|xs| - 1]) + |xs[|xs| - 1]|
  }

  /** flatten (taak.js:226-237): copies the elements of each inner array, in
      order, into one result array. */
  method Flatten<T>(arrays: seq<seq<T>>) returns (result: seq<T>)
    ensures result == Concat(arrays)
    ensures |result| == SumLengths(arrays)
  {
    result := [];
    var i := 0;
    while i < |arrays|
      invariant 0 <= i <= |arrays|
      invariant result == Concat(arrays[..i])
    {
      var a := arrays[i];
      var j := 0;
      while j < |a|
        invariant 0 <= j <= |a|
        invariant result == Concat(arrays[..i]) + a[..j]
      {
        result := result + [a[j]];
        j := j + 1;
      }
      assert arrays[..i + 1][..i] == arrays[..i];
      i := i + 1;
    }
    assert arrays[..i] == arrays;
    ConcatLength(arrays);
  }

  lemma FlattenExample()
    ensures Concat([[1, 2], [], [3]]) == [1, 2, 3]
    ensures Concat([[[1]], [[2], [3]]]) == [[1], [2], [3]]
  {
    assert [[1, 2], [], [3]][..2] == [[1, 2], []];
    assert [[1, 2], []][..1] == [[1, 2]];
    assert [[[1]], [[2], [3]]][..1] == [[[1]]];
  }

  /** compose(f0, …, fk)(x) is f0(f1(…fk(x))): the last function runs first. */
  function Composed<T>(fns: seq<T -> T>, x: T): T
  {
    if fns == [] then x else fns[0](Composed(fns[1..], x))
  }

  /** The function returned by compose (taak.js:241-251) counts n down from the
      number of functions, applying fns[n] to the running value. */
  method ComposeApply<T>(fns: seq<T -> T>, x: T) returns (value: T)
    ensures value == Composed(fns, x)
  {
    value := x;
    var n := |fns|;
    while n > 0
      invariant 0 <= n <= |fns|
      invariant value == Composed(fns[n..], x)
    {
      n := n - 1;
      assert fns[n..][1..] == fns[n + 1..];
      value := fns[n](value);
    }
  }

  /** Composing a concatenation is composing the parts: compose is associative. */
  lemma {:induction false} ComposedAppend<T>(f: seq<T -> T>, g: seq<T -> T>, x: T)
    ensures Composed(f + g, x) == Composed(f, Composed(g, x))
  {
    if f == [] {
      assert f + g == g;
    } else {
      assert (f + g)[0] == f[0];
      assert (f + g)[1..] == f[1..] + g;
      ComposedAppend(f[1..], g, x);
    }
  }

  lemma ComposeExample()
    ensures Composed([(n: int) => -n, (n: int) => n * n, (n: int) => n + 5], 10) == -225
    ensures Composed([(n: int) => -n, (n: int) => n * n, (n: int) => n + 5], 0) == -25
    ensures Composed([(n: int) => -n, (n: int) => n * n, (n: int) => n + 5], 2) == -49
  {
    var fs := [(n: int) => -n, (n: int) => n * n, (n: int) => n + 5];
    assert fs[1..][1..][1..] == [];
  }

  /** pick(names…)(obj) (taak.js:259-268): the values under the names, in
      order; a missing property reads as undefined. */
  method Pick<K, V>(names: seq<K>, obj: map<K, V>) returns (a: seq<Option<V>>)
    ensures |a| == |names|
    ensures forall i :: 0 <= i < |names| ==>
      a[i] == (if names[i] in obj then Some(obj[names[i]]) else None)
  {
    a := [];
    var i := 0;
    while i < |names|
      invariant 0 <= i <= |names| && |a| == i
      invariant forall j :: 0 <= j < i ==>
        a[j] == (if names[j] in obj then Some(obj[names[j]]) else None)
    {
      a := a + [if names[i] in obj then Some(obj[names[i]]) else None];
      i := i + 1;
    }
  }

  /** step(c)(x) (taak.js:296-300): 0 below the threshold, 1 from it on. */
  function Step(c: int, x: int): (r: int)
    ensures r == 0 || r == 1
    ensures r == 1 <==> x >= c
  {
    if x < c then 0 else 1
  }

  /** step(c) is monotone, and shifting the threshold shifts the function:
      step(c)(x) is step(0)(x - c). */
  lemma StepMonotone(c: int, x: int, y: int)
    requires x <= y
    ensures Step(c, x) <= Step(c, y)
    ensures Step(c, x) == Step(0, x - c)
  {
  }

  /** What a predicate handed to conjoin, disjoin or anyjoin returns: a
      boolean, or any other JavaScript value, of which only its truthiness
      matters to `&&` and `||`. */
  datatype JsValue = Bool(b: bool) | Other(truthy: bool)

  predicate Truthy(v: JsValue)
  {
    if v.Bool? then v.b else v.truthy
  }

  /** conjoin (taak.js:323-332): `result = result && fns[i](x)` from left to
      right while the result is truthy. The returned value is the value of
      the last predicate called, so it is truthy exactly when every predicate
      is, and the first falsy one ends the calls. */
  method Conjoin<T>(fns: seq<T -> JsValue>, x: T) returns (result: JsValue, calls: nat)
    ensures Truthy(result) <==> forall i :: 0 <= i < |fns| ==> Truthy(fns[i](x))
    ensures calls <= |fns|
    ensures result == if calls == 0 then Bool(true) else fns[calls - 1](x)
    ensures forall i :: 0 <= i < calls - 1 ==> Truthy(fns[i](x))
    ensures Truthy(result) ==> calls == |fns|
  {
    result := Bool(true);
    var i := 0;
    while i < |fns| && Truthy(result)
      invariant 0 <= i <= |fns|
      invariant result == if i == 0 then Bool(true) else fns[i - 1](x)
      invariant forall j :: 0 <= j < i - 1 ==> Truthy(fns[j](x))
    {
      result := if Truthy(result) then fns[i](x) else result;
      i := i + 1;
    }
    calls := i;
  }

  /** disjoin (taak.js:334-343): `result = result || fns[i](x)` from left to
      right while the result is falsy. The returned value is the first truthy
      value, or the last falsy one. */
  method Disjoin<T>(fns: seq<T -> JsValue>, x: T) returns (result: JsValue, calls: nat)
    ensures Truthy(result) <==> exists i :: 0 <= i < |fns| && Truthy(fns[i](x))
    ensures calls <= |fns|
    ensures result == if calls == 0 then Bool(false) else fns[calls - 1](x)
    ensures forall i :: 0 <= i < calls - 1 ==> !Truthy(fns[i](x))
    ensures !Truthy(result) ==> calls == |fns|
  {
    result := Bool(false);
    var i := 0;
    while i < |fns| && !Truthy(result)
      invariant 0 <= i <= |fns|
      invariant result == if i == 0 then Bool(false) else fns[i - 1](x)
      invariant forall j :: 0 <= j < i - 1 ==> !Truthy(fns[j](x))
    {
      result := if Truthy(result) then result else fns[i](x);
      i := i + 1;
    }
    calls := i;
  }

  /** anyjoin (taak.js:310-321): returns true from inside the loop as soon as
      a predicate returns exactly `true`; a merely truthy value does not
      count, unlike in disjoin. */
  method Anyjoin<T>(fns: seq<T -> JsValue>, x: T) returns (result: bool, calls: nat)
    ensures result <==> exists i :: 0 <= i < |fns| && fns[i](x) == Bool(true)
    ensures calls <= |fns|
    ensures forall i :: 0 <= i < calls - 1 ==> fns[i](x) != Bool(true)
    ensures !result ==> calls == |fns|
    ensures result ==> calls > 0 && fns[calls - 1](x) == Bool(true)
  {
    result := false;
    var i := 0;
    while i < |fns| && !result
      invariant 0 <= i <= |fns|
      invariant !result
      invariant forall j :: 0 <= j < i ==> fns[j](x) != Bool(true)
    {
      if fns[i](x) == Bool(true) {
        return true, i + 1;
      }
      i := i + 1;
    }
    calls := i;
  }
}
