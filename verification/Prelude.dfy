/** Shared vocabulary: an option type, and sums over finite maps and sequences of reals. */
module Prelude {

  datatype Option<+T> = None | Some(value: T)
}

/** Finite sums, with the update laws that the ledgers built on them need. */
module Sums {

  ghost function Total(m: map<string, real>): real
  {
    if m == map[] then 0.0
    else
      var k :| k in m;
      m[k] + Total(m - {k})
  }

  /** The order in which `Total` picks keys does not matter: any key can come off first. */
  lemma {:induction false} TotalRemove(m: map<string, real>, k: string)
    requires k in m
    ensures Total(m) == m[k] + Total(m - {k})
    decreases |m|
  {
    var j :| j in m && Total(m) == m[j] + Total(m - {j});
    if j != k {
      TotalRemove(m - {j}, k);
      TotalRemove(m - {k}, j);
      assert m - {j} - {k} == m - {k} - {j};
    }
  }

  lemma TotalUpdate(m: map<string, real>, k: string, v: real)
    ensures Total(m[k := v]) == Total(m) - (if k in m then m[k] else 0.0) + v
  {
    var m' := m[k := v];
    TotalRemove(m', k);
    if k in m {
      TotalRemove(m, k);
      assert m' - {k} == m - {k};
    } else {
      assert m' - {k} == m;
    }
  }

  ghost function Sum(xs: seq<real>): real
  {
    if xs == [] then 0.0 else xs[0] + Sum(xs[1..])
  }

  lemma {:induction false} SumUpdate(xs: seq<real>, i: nat, v: real)
    requires i < |xs|
    ensures Sum(xs[i := v]) == Sum(xs) - xs[i] + v
  {
    if i > 0 {
      SumUpdate(xs[1..], i - 1, v);
      assert xs[i := v][1..] == xs[1..][i - 1 := v];
    } else {
      assert xs[i := v][1..] == xs[1..];
    }
  }

  /** `n` copies of `x`, added up. */
  function Times(n: nat, x: real): real {
    if n == 0 then 0.0 else x + Times(n - 1, x)
  }

  lemma {:induction false} TimesIsProduct(n: nat, x: real)
    ensures Times(n, x) == n as real * x
  {
    if n > 0 {
      TimesIsProduct(n - 1, x);
    }
  }

  lemma {:induction false} TimesNonNegative(n: nat, x: real)
    requires x >= 0.0
    ensures Times(n, x) >= 0.0
  {
    if n > 0 {
      TimesNonNegative(n - 1, x);
    }
  }

  lemma {:induction false} SumBound(xs: seq<real>, top: real)
    requires forall i :: 0 <= i < |xs| ==> xs[i] <= top
    ensures Sum(xs) <= Times(|xs|, top)
  {
    if xs != [] {
      SumBound(xs[1..], top);
    }
  }

  lemma {:induction false} SumNonNegative(xs: seq<real>)
    requires forall i :: 0 <= i < |xs| ==> xs[i] >= 0.0
    ensures Sum(xs) >= 0.0
  {
    if xs != [] {
      SumNonNegative(xs[1..]);
    }
  }

  /** A sum of values none above `top`, with one position left out. */
  lemma SumOthersBound(xs: seq<real>, i: nat, top: real)
    requires i < |xs|
    requires forall j :: 0 <= j < |xs| ==> xs[j] <= top
    ensures Sum(xs) - xs[i] <= Times(|xs| - 1, top)
  {
    var ys := xs[i := top];
    SumUpdate(xs, i, top);
    SumBound(ys, top);
  }
}
