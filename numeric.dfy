/** Floating-point values as the raster and table code sees them, and the
    two averaging rules it relies on: NumPy's `average` (one NaN poisons the
    mean) and pandas' column `mean` (NaN entries are skipped). */
module Numeric {

  /** A float64 cell: either NaN ("no data") or an ordinary number. */
  datatype Val = NaN | Num(r: real)

  datatype Option<+T> = None | Some(value: T)

  datatype Result<+T, +E> = Ok(value: T) | Err(error: E)

  /** Left-to-right sum of a list of reals. */
  function Sum(xs: seq<real>): real
  {
    if xs == [] then 0.0 else Sum(xs[..|xs| - 1]) + xs[|xs| - 1]
  }

  /** Arithmetic mean of a non-empty list of reals. */
  function Mean(xs: seq<real>): real
    requires |xs| > 0
  {
    Sum(xs) / |xs| as real
  }

  /** Every entry of `xs` lies in the half-open interval [lo, hi). */
  predicate AllIn(xs: seq<real>, lo: real, hi: real)
  {
    forall i :: 0 <= i < |xs| ==> lo <= xs[i] < hi
  }

  lemma {:induction false} SumBounds(xs: seq<real>, lo: real, hi: real)
    requires AllIn(xs, lo, hi)
    ensures lo * |xs| as real <= Sum(xs)
    ensures |xs| > 0 ==> Sum(xs) < hi * |xs| as real
  {
    if xs != [] {
      var init := xs[..|xs| - 1];
      assert AllIn(init, lo, hi) by {
        forall i | 0 <= i < |init| ensures lo <= init[i] < hi {
          assert init[i] == xs[i];
        }
      }
      SumBounds(init, lo, hi);
      assert lo <= xs[|xs| - 1] < hi;
      assert (|init| + 1) as real == |xs| as real;
    }
  }

  /** The mean of values that all lie in [lo, hi) lies in [lo, hi) too. */
  lemma MeanBounds(xs: seq<real>, lo: real, hi: real)
    requires |xs| > 0 && AllIn(xs, lo, hi)
    ensures lo <= Mean(xs) < hi
  {
    SumBounds(xs, lo, hi);
    var n := |xs| as real;
    assert lo * n <= Sum(xs) < hi * n;
  }

  /** True when some entry is NaN. */
  predicate HasNaN(vs: seq<Val>)
  {
    exists i :: 0 <= i < |vs| && vs[i].NaN?
  }

  /** The numbers of a NaN-free list. */
  function Reals(vs: seq<Val>): (xs: seq<real>)
    requires !HasNaN(vs)
    ensures |xs| == |vs|
    ensures forall i :: 0 <= i < |vs| ==> vs[i] == Num(xs[i])
  {
    if vs == [] then [] else [vs[0].r] + Reals(vs[1..])
  }

  /** NumPy `average` of a non-empty list: NaN as soon as any entry is NaN,
      otherwise the arithmetic mean of the numbers. */
  function Average(vs: seq<Val>): (m: Val)
    requires |vs| > 0
    ensures m.NaN? <==> HasNaN(vs)
    ensures !HasNaN(vs) ==> m == Num(Mean(Reals(vs)))
  {
    if HasNaN(vs) then NaN else Num(Mean(Reals(vs)))
  }

  /** Every entry of `vs` that is a number lies in [lo, hi); NaN entries
      are allowed. */
  predicate NumbersIn(vs: seq<Val>, lo: real, hi: real)
  {
    forall i :: 0 <= i < |vs| && vs[i].Num? ==> lo <= vs[i].r < hi
  }

  /** The NumPy average of NaN-free values in [lo, hi) is a number in
      [lo, hi). */
  lemma AverageBounds(vs: seq<Val>, lo: real, hi: real)
    requires |vs| > 0 && !HasNaN(vs) && NumbersIn(vs, lo, hi)
    ensures Average(vs).Num? && lo <= Average(vs).r < hi
  {
    var xs := Reals(vs);
    assert AllIn(xs, lo, hi) by {
      forall i | 0 <= i < |xs| ensures lo <= xs[i] < hi {
        assert vs[i] == Num(xs[i]);
      }
    }
    MeanBounds(xs, lo, hi);
  }

  /** Averaging a single value gives that value back. */
  lemma AverageOfOne(v: Val)
    ensures Average([v]) == v
  {
    if v.Num? {
      assert !HasNaN([v]);
      assert Reals([v]) == [v.r];
      assert Sum([v.r]) == Sum([]) + v.r;
    } else {
      assert [v][0].NaN?;
    }
  }

  /** Averaging two numbers gives their midpoint. */
  lemma AverageOfTwo(a: real, b: real)
    ensures Average([Num(a), Num(b)]) == Num((a + b) / 2.0)
  {
    var vs := [Num(a), Num(b)];
    assert !HasNaN(vs);
    assert Reals(vs) == [a, b];
    assert [a, b][..1] == [a];
    assert Sum([a]) == Sum([]) + a;
    assert Sum([a, b]) == a + b;
  }

  /** The numbers among `vs`, in order, with NaN entries dropped. */
  function Numbers(vs: seq<Val>): (xs: seq<real>)
    ensures |xs| <= |vs|
    ensures forall x :: x in xs <==> Num(x) in vs
  {
    if vs == [] then []
    else (match vs[0] case NaN => [] case Num(x) => [x]) + Numbers(vs[1..])
  }

  /** Dropping NaN keeps each number as often as it occurs. */
  lemma {:induction false} NumbersCount(vs: seq<Val>)
    ensures forall x :: multiset(Numbers(vs))[x] == multiset(vs)[Num(x)]
  {
    if vs != [] {
      NumbersCount(vs[1..]);
      assert vs == [vs[0]] + vs[1..];
      var head := match vs[0] case NaN => [] case Num(y) => [y];
      assert Numbers(vs) == head + Numbers(vs[1..]);
      forall x ensures multiset(Numbers(vs))[x] == multiset(vs)[Num(x)] {
        calc {
          multiset(Numbers(vs))[x];
          multiset(head)[x] + multiset(Numbers(vs[1..]))[x];
          multiset([vs[0]])[Num(x)] + multiset(vs[1..])[Num(x)];
          multiset(vs)[Num(x)];
        }
      }
    }
  }

  /** A list without NaN keeps all its numbers, in order. */
  lemma {:induction false} NumbersOfNaNFree(vs: seq<Val>)
    requires !HasNaN(vs)
    ensures Numbers(vs) == Reals(vs)
  {
    if vs != [] {
      assert !HasNaN(vs[1..]) by {
        forall i | 0 <= i < |vs[1..]| ensures vs[1..][i].Num? {
          assert vs[1..][i] == vs[i + 1];
        }
      }
      NumbersOfNaNFree(vs[1..]);
      assert vs[0].Num?;
    }
  }

  /** pandas `Series.mean()`: NaN entries are skipped; an empty or all-NaN
      column has mean NaN. */
  function SkipNaNMean(vs: seq<Val>): (m: Val)
    ensures m.NaN? <==> (forall i :: 0 <= i < |vs| ==> vs[i].NaN?)
  {
    var xs := Numbers(vs);
    if xs == [] then
      NaN
    else
      assert Num(xs[0]) in vs;
      Num(Mean(xs))
  }

  /** The skipping mean of numbers in [lo, hi), NaN entries mixed in, is
      NaN or a number in [lo, hi). */
  lemma SkipNaNMeanBounds(vs: seq<Val>, lo: real, hi: real)
    requires NumbersIn(vs, lo, hi)
    ensures SkipNaNMean(vs).Num? ==> lo <= SkipNaNMean(vs).r < hi
  {
    var xs := Numbers(vs);
    if xs != [] {
      assert AllIn(xs, lo, hi) by {
        forall i | 0 <= i < |xs| ensures lo <= xs[i] < hi {
          assert xs[i] in xs;
          var j :| 0 <= j < |vs| && vs[j] == Num(xs[i]);
        }
      }
      MeanBounds(xs, lo, hi);
    }
  }

  /** Without NaN the two averaging rules agree: pandas' skipping mean of
      a non-empty NaN-free list is NumPy's average. */
  lemma SkipNaNMeanAgrees(vs: seq<Val>)
    requires |vs| > 0 && !HasNaN(vs)
    ensures SkipNaNMean(vs) == Average(vs)
  {
    NumbersOfNaNFree(vs);
  }
}
