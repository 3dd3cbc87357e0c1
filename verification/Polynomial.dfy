/** Polynomials over a field, as lists of coefficients, lowest degree first. */
module Polynomial {
  import opened Field

  function Eval<F>(f: Field<F>, p: seq<F>, x: F): F {
    if p == [] then f.zero else f.add(p[0], f.mul(x, Eval(f, p[1..], x)))
  }

  /** The quotient of p by X - r (synthetic division). */
  function Quotient<F>(f: Field<F>, p: seq<F>, r: F): (q: seq<F>)
    ensures |q| == if |p| == 0 then 0 else |p| - 1
  {
    if |p| <= 1 then [] else [Eval(f, p[1..], r)] + Quotient(f, p[1..], r)
  }

  /** The coefficients of a + (X - r) * q. */
  function AddMulLinear<F>(f: Field<F>, a: F, r: F, q: seq<F>): (p: seq<F>)
    ensures |p| == |q| + 1
  {
    if q == [] then [a]
    else [f.add(a, f.mul(f.neg(r), q[0]))] + AddMulLinear(f, q[0], r, q[1..])
  }

  /** Newton's interpolation: the polynomial with |xs| coefficients that takes the
      value ys[i] at xs[i]. */
  function Interpolate<F>(f: Field<F>, xs: seq<F>, ys: seq<F>): (p: seq<F>)
    requires |xs| == |ys|
    ensures |p| == |xs|
  {
    if xs == [] then []
    else AddMulLinear(f, ys[0], xs[0], Interpolate(f, xs[1..], DividedDifferences(f, xs, ys)))
  }

  function DividedDifferences<F>(f: Field<F>, xs: seq<F>, ys: seq<F>): (zs: seq<F>)
    requires |xs| == |ys| > 0
    ensures |zs| == |xs| - 1
  {
    seq(|xs| - 1, i requires 0 <= i < |xs| - 1 =>
      f.mul(f.Sub(ys[i + 1], ys[0]), f.inv(f.Sub(xs[i + 1], xs[0]))))
  }

  /** (a + b*t) + d*(t + e) regrouped, where b + d == x: the shared algebra of division
      and of multiplication by X - r. */
  lemma Regroup<F(!new)>(f: Field<F>, a: F, b: F, d: F, x: F, t: F, e: F)
    requires IsField(f) && f.add(b, d) == x
    ensures f.add(f.add(a, f.mul(b, t)), f.mul(d, f.add(t, e)))
         == f.add(a, f.add(f.mul(x, t), f.mul(d, e)))
  {
    var bt, dt, de := f.mul(b, t), f.mul(d, t), f.mul(d, e);
    assert f.mul(d, f.add(t, e)) == f.add(dt, de) by { assert Laws(f, d, t, e); }
    assert f.mul(x, t) == f.add(bt, dt) by {
      assert Laws(f, t, b, d) && Laws(f, x, t, t) && Laws(f, b, t, t) && Laws(f, d, t, t);
    }
    assert f.add(f.add(a, bt), f.add(dt, de)) == f.add(a, f.add(bt, f.add(dt, de))) by {
      assert Laws(f, a, bt, f.add(dt, de));
    }
    assert Laws(f, bt, dt, de);
  }

  /** x*(d*e) == d*(x*e). */
  lemma MulSwap<F(!new)>(f: Field<F>, x: F, d: F, e: F)
    requires IsField(f)
    ensures f.mul(x, f.mul(d, e)) == f.mul(d, f.mul(x, e))
  {
    assert Laws(f, x, d, e) && Laws(f, d, x, e);
  }

  lemma {:induction false} Division<F(!new)>(f: Field<F>, p: seq<F>, r: F, x: F)
    requires IsField(f)
    ensures Eval(f, p, x) == f.add(Eval(f, p, r), f.mul(f.Sub(x, r), Eval(f, Quotient(f, p, r), x)))
  {
    var d := f.Sub(x, r);
    MulZero(f, d);
    if p == [] {
      assert Laws(f, f.zero, f.zero, f.zero);
    } else {
      var t, q := Eval(f, p[1..], r), Eval(f, Quotient(f, p[1..], r), x);
      Division(f, p[1..], r, x);
      if |p| == 1 {
        MulZero(f, x);
        MulZero(f, r);
        assert Laws(f, f.add(p[0], f.zero), f.zero, f.zero);
      } else {
        assert Quotient(f, p, r)[1..] == Quotient(f, p[1..], r);
        AddSub(f, r, x);
        Regroup(f, p[0], r, d, x, t, f.mul(x, q));
        MulSwap(f, x, d, q);
        assert Laws(f, x, t, f.mul(d, q));
      }
    }
  }

  /** Two polynomials with at most |R| coefficients that agree on R agree everywhere. */
  lemma {:induction false} AgreeEverywhere<F(!new)>(f: Field<F>, p: seq<F>, q: seq<F>, R: set<F>, x: F)
    requires IsField(f)
    requires |p| == |q| <= |R|
    requires forall r :: r in R ==> Eval(f, p, r) == Eval(f, q, r)
    ensures Eval(f, p, x) == Eval(f, q, x)
    decreases |p|
  {
    if p != [] {
      var r :| r in R;
      var p', q' := Quotient(f, p, r), Quotient(f, q, r);
      forall s | s in R - {r} ensures Eval(f, p', s) == Eval(f, q', s) {
        Division(f, p, r, s);
        Division(f, q, r, s);
        var d := f.Sub(s, r);
        AddCancels(f, Eval(f, p, r), f.mul(d, Eval(f, p', s)), f.mul(d, Eval(f, q', s)));
        SubNonzero(f, s, r);
        MulCancels(f, d, Eval(f, p', s), Eval(f, q', s));
      }
      AgreeEverywhere(f, p', q', R - {r}, x);
      Division(f, p, r, x);
      Division(f, q, r, x);
    }
  }

  lemma {:induction false} EvalAddMulLinear<F(!new)>(f: Field<F>, a: F, r: F, q: seq<F>, x: F)
    requires IsField(f)
    ensures Eval(f, AddMulLinear(f, a, r, q), x) == f.add(a, f.mul(f.Sub(x, r), Eval(f, q, x)))
  {
    var d := f.Sub(x, r);
    if q == [] {
      MulZero(f, x);
      MulZero(f, d);
    } else {
      var p, m, e := AddMulLinear(f, a, r, q), f.neg(r), Eval(f, q[1..], x);
      EvalAddMulLinear(f, q[0], r, q[1..], x);
      assert p[1..] == AddMulLinear(f, q[0], r, q[1..]);
      assert Eval(f, p, x) == f.add(f.add(a, f.mul(m, q[0])), f.mul(x, f.add(q[0], f.mul(d, e))));
      assert f.add(m, x) == d by { assert Laws(f, m, x, x); }
      Regroup(f, a, m, x, d, q[0], f.mul(d, e));
      MulSwap(f, x, d, e);
      assert Laws(f, d, q[0], f.mul(x, e));
    }
  }

  lemma {:induction false} InterpolatesAt<F(!new)>(f: Field<F>, xs: seq<F>, ys: seq<F>, i: nat)
    requires IsField(f) && |xs| == |ys| && (forall j, k :: 0 <= j < k < |xs| ==> xs[j] != xs[k]) && i < |xs|
    ensures Eval(f, Interpolate(f, xs, ys), xs[i]) == ys[i]
  {
    var zs := DividedDifferences(f, xs, ys);
    var q := Interpolate(f, xs[1..], zs);
    EvalAddMulLinear(f, ys[0], xs[0], q, xs[i]);
    var d := f.Sub(xs[i], xs[0]);
    if i == 0 {
      assert Laws(f, xs[0], f.zero, f.zero);
      MulZero(f, Eval(f, q, xs[0]));
      assert Laws(f, ys[0], f.zero, f.zero);
    } else {
      InterpolatesAt(f, xs[1..], zs, i - 1);
      SubNonzero(f, xs[i], xs[0]);
      var e := f.Sub(ys[i], ys[0]);
      assert f.mul(d, f.mul(e, f.inv(d))) == e by {
        assert Laws(f, d, e, f.inv(d)) && Laws(f, e, d, f.inv(d)) && Laws(f, e, f.one, f.one);
        assert Laws(f, d, f.inv(d), f.one);
      }
      AddSub(f, ys[0], ys[i]);
    }
  }
}
