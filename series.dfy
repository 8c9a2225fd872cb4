/** Products over return series: `np.prod`, `cumprod`, and trailing windows. */
module Series {
  import opened Wrappers

  /** `1 + returns`: each periodic return as a growth factor. */
  function Growth(rs: seq<real>): (g: seq<real>)
    ensures |g| == |rs|
    ensures forall i :: 0 <= i < |rs| ==> g[i] == 1.0 + rs[i]
  {
    seq(|rs|, i requires 0 <= i < |rs| => 1.0 + rs[i])
  }

  /** `np.prod`: the product of all elements, 1 for none. */
  function Prod(xs: seq<real>): real {
    if xs == [] then 1.0 else Prod(xs[..|xs| - 1]) * xs[|xs| - 1]
  }

  /** `Series.cumprod()`: the running product, carried from one row to the next. */
  function CumProd(xs: seq<real>): (c: seq<real>)
    ensures |c| == |xs|
  {
    if xs == [] then []
    else
      var c := CumProd(xs[..|xs| - 1]);
      c + [(if c == [] then 1.0 else c[|c| - 1]) * xs[|xs| - 1]]
  }

  function Power(x: real, n: nat): real {
    if n == 0 then 1.0 else Power(x, n - 1) * x
  }

  /** The trailing window of `days` values ending at row `t`, as pandas
      `rolling(days)` sees it: absent until `days` values are available. */
  function Window(xs: seq<real>, days: nat, t: nat): (w: Option<seq<real>>)
    requires 1 <= days && t < |xs|
    ensures w.Some? <==> t + 1 >= days
    ensures w.Some? ==> |w.value| == days
  {
    if t + 1 >= days then Some(xs[t + 1 - days..t + 1]) else None
  }

  lemma {:induction false} ProdConcat(a: seq<real>, b: seq<real>)
    ensures Prod(a + b) == Prod(a) * Prod(b)
    decreases |b|
  {
    if b != [] {
      var b' := b[..|b| - 1];
      assert (a + b)[..|a + b| - 1] == a + b';
      ProdConcat(a, b');
    } else {
      assert a + b == a;
    }
  }

  /** Row `t` of the running product is the product of rows `0..t`. */
  lemma {:induction false} CumProdIsPrefixProduct(xs: seq<real>, t: nat)
    requires t < |xs|
    ensures CumProd(xs)[t] == Prod(xs[..t + 1])
    decreases |xs|
  {
    var init := xs[..|xs| - 1];
    if t < |xs| - 1 {
      CumProdIsPrefixProduct(init, t);
      assert init[..t + 1] == xs[..t + 1];
    } else if t > 0 {
      CumProdIsPrefixProduct(init, t - 1);
      assert init[..t] == xs[..t];
      assert xs[..t + 1][..t] == xs[..t];
    } else {
      assert xs[..1][..0] == [];
    }
  }

  lemma {:induction false} ProdOfConstant(xs: seq<real>, c: real)
    requires forall i :: 0 <= i < |xs| ==> xs[i] == c
    ensures Prod(xs) == Power(c, |xs|)
    decreases |xs|
  {
    if xs != [] {
      ProdOfConstant(xs[..|xs| - 1], c);
    }
  }

  lemma {:induction false} ProdAtLeastOne(xs: seq<real>)
    requires forall i :: 0 <= i < |xs| ==> xs[i] >= 1.0
    ensures Prod(xs) >= 1.0
    decreases |xs|
  {
    if xs != [] {
      ProdAtLeastOne(xs[..|xs| - 1]);
    }
  }

  lemma {:induction false} ProdNonNegative(xs: seq<real>)
    requires forall i :: 0 <= i < |xs| ==> xs[i] >= 0.0
    ensures Prod(xs) >= 0.0
    decreases |xs|
  {
    if xs != [] {
      ProdNonNegative(xs[..|xs| - 1]);
    }
  }

  lemma {:induction false} PowerOfOne(n: nat)
    ensures Power(1.0, n) == 1.0
  {
    if n > 0 {
      PowerOfOne(n - 1);
    }
  }

  function Sum(xs: seq<real>): real {
    if xs == [] then 0.0 else Sum(xs[..|xs| - 1]) + xs[|xs| - 1]
  }

  /** The arithmetic mean of a non-empty series. */
  function Mean(xs: seq<real>): real
    requires |xs| > 0
  {
    Sum(xs) / (|xs| as real)
  }

  /** The mean times the number of values is their sum. */
  lemma MeanTimesLength(xs: seq<real>)
    requires |xs| > 0
    ensures Mean(xs) * (|xs| as real) == Sum(xs)
  {
    var n := |xs| as real;
    assert n != 0.0;
    assert (Sum(xs) / n) * n == Sum(xs);
  }
}
