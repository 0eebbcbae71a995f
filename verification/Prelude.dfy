/** Small value types and sequence functions shared by the other modules. */
module Prelude {

  datatype Option<+T> = None | Some(value: T)

  function Max(a: real, b: real): real { if a < b then b else a }

  function Min(a: real, b: real): real { if b < a then b else a }

  lemma {:induction false} MulMonotone(k: real, a: real, b: real)
    requires 0.0 <= k && a <= b
    ensures k * a <= k * b
  {
  }

  function Power(base: real, exponent: nat): real {
    if exponent == 0 then 1.0 else base * Power(base, exponent - 1)
  }

  function Filter<T>(s: seq<T>, p: T -> bool): seq<T>
  {
    if s == [] then [] else
      var rest := Filter(s[..|s| - 1], p);
      if p(s[|s| - 1]) then rest + [s[|s| - 1]] else rest
  }

  function Count<T>(s: seq<T>, p: T -> bool): nat
  {
    if s == [] then 0 else
      Count(s[..|s| - 1], p) + if p(s[|s| - 1]) then 1 else 0
  }

  lemma {:induction false} FilterSnoc<T>(s: seq<T>, x: T, p: T -> bool)
    ensures Filter(s + [x], p) == if p(x) then Filter(s, p) + [x] else Filter(s, p)
  {
    assert (s + [x])[..|s|] == s;
  }

  lemma {:induction false} FilterHas<T>(s: seq<T>, p: T -> bool, x: T)
    ensures x in Filter(s, p) <==> x in s && p(x)
  {
    if s != [] {
      FilterHas(s[..|s| - 1], p, x);
      assert s == s[..|s| - 1] + [s[|s| - 1]];
    }
  }

  lemma {:induction false} FilterAll<T>(s: seq<T>, p: T -> bool)
    requires forall i :: 0 <= i < |s| ==> p(s[i])
    ensures Filter(s, p) == s
  {
    if s != [] {
      FilterAll(s[..|s| - 1], p);
    }
  }

  lemma {:induction false} CountSnoc<T>(s: seq<T>, x: T, p: T -> bool)
    ensures Count(s + [x], p) == Count(s, p) + if p(x) then 1 else 0
  {
    assert (s + [x])[..|s|] == s;
  }

  lemma {:induction false} CountConcat<T>(a: seq<T>, b: seq<T>, p: T -> bool)
    ensures Count(a + b, p) == Count(a, p) + Count(b, p)
  {
    if b == [] {
      assert a + b == a;
    } else {
      var n := |b| - 1;
      CountConcat(a, b[..n], p);
      assert a + b == (a + b[..n]) + [b[n]];
      CountSnoc(a + b[..n], b[n], p);
    }
  }

  lemma {:induction false} CountAtMostLength<T>(s: seq<T>, p: T -> bool)
    ensures Count(s, p) <= |s|
    ensures (forall i :: 0 <= i < |s| ==> !p(s[i])) <==> Count(s, p) == 0
  {
    if s != [] {
      var n := |s| - 1;
      CountAtMostLength(s[..n], p);
      assert s == s[..n] + [s[n]];
    }
  }
}
