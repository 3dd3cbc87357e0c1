/** Fields, given by their operations and the laws these obey.

  Nothing that is proved about polynomials and about Reed-Solomon codes depends on
  how bytes are multiplied, so the field is a parameter there; module Gf256 supplies
  the field of 256 elements.
*/
module Field {

  datatype Field<!F> = Field(
    zero: F,
    one: F,
    add: (F, F) -> F,
    neg: F -> F,
    mul: (F, F) -> F,
    inv: F -> F)
  {
    function Sub(a: F, b: F): F {
      add(a, neg(b))
    }
  }

  /** The field laws for one choice of elements. They are stated pointwise so that the
      verifier instantiates them only where a proof names them. */
  ghost predicate Laws<F>(f: Field<F>, a: F, b: F, c: F) {
    && f.add(a, b) == f.add(b, a)
    && f.add(a, f.add(b, c)) == f.add(f.add(a, b), c)
    && f.add(f.zero, a) == a
    && f.add(a, f.neg(a)) == f.zero
    && f.mul(a, b) == f.mul(b, a)
    && f.mul(a, f.mul(b, c)) == f.mul(f.mul(a, b), c)
    && f.mul(a, f.add(b, c)) == f.add(f.mul(a, b), f.mul(a, c))
    && f.mul(f.one, a) == a
    && (a != f.zero ==> f.mul(a, f.inv(a)) == f.one)
  }

  ghost predicate IsField<F(!new)>(f: Field<F>) {
    forall a, b, c :: Laws(f, a, b, c)
  }

  lemma AddCancels<F(!new)>(f: Field<F>, a: F, b: F, c: F)
    requires IsField(f) && f.add(a, b) == f.add(a, c)
    ensures b == c
  {
    assert Laws(f, a, f.zero, f.zero) && Laws(f, f.neg(a), a, b) && Laws(f, f.neg(a), a, c);
    assert Laws(f, b, f.zero, f.zero) && Laws(f, c, f.zero, f.zero);
    assert f.add(f.neg(a), f.add(a, b)) == b;
    assert f.add(f.neg(a), f.add(a, c)) == c;
  }

  lemma MulZero<F(!new)>(f: Field<F>, a: F)
    requires IsField(f)
    ensures f.mul(a, f.zero) == f.zero && f.mul(f.zero, a) == f.zero
  {
    var z := f.mul(a, f.zero);
    assert Laws(f, a, f.zero, f.zero) && Laws(f, f.zero, f.zero, f.zero);
    assert Laws(f, z, f.zero, f.zero);
    AddCancels(f, z, z, f.zero);
  }

  lemma MulCancels<F(!new)>(f: Field<F>, a: F, b: F, c: F)
    requires IsField(f) && a != f.zero && f.mul(a, b) == f.mul(a, c)
    ensures b == c
  {
    var i := f.inv(a);
    assert Laws(f, a, i, f.zero) && Laws(f, i, a, b) && Laws(f, i, a, c);
    assert Laws(f, b, f.zero, f.zero) && Laws(f, c, f.zero, f.zero);
    assert f.mul(i, f.mul(a, b)) == b && f.mul(i, f.mul(a, c)) == c;
  }

  lemma SubNonzero<F(!new)>(f: Field<F>, a: F, b: F)
    requires IsField(f) && a != b
    ensures f.Sub(a, b) != f.zero
  {
    assert Laws(f, b, f.neg(b), f.zero) && Laws(f, f.neg(b), a, f.zero);
    if f.Sub(a, b) == f.zero {
      AddCancels(f, f.neg(b), a, b);
    }
  }

  /** a + (b - a) == b. */
  lemma AddSub<F(!new)>(f: Field<F>, a: F, b: F)
    requires IsField(f)
    ensures f.add(a, f.Sub(b, a)) == b
  {
    var m := f.neg(a);
    assert Laws(f, b, m, a) && Laws(f, a, f.add(b, m), b) && Laws(f, a, m, b);
    assert Laws(f, b, f.zero, f.zero) && Laws(f, m, a, b);
    assert f.add(f.add(b, m), a) == f.add(b, f.add(m, a)) == f.add(b, f.zero) == b;
  }
}
