/**
 * The product of two reals, known to proofs only through `TimesIs`. Definitions that recurse over
 * products use it so that unfolding them puts no nonlinear term before the solver.
 */
module Products {

  ghost predicate MultipliesAt(f: (real, real) -> real, a: real, b: real) { f(a, b) == a * b }

  ghost predicate Multiplies(f: (real, real) -> real) {
    forall a, b {:trigger MultipliesAt(f, a, b)} :: MultipliesAt(f, a, b)
  }

  lemma ProductExists()
    ensures exists f :: Multiplies(f)
  {
    var f := (a: real, b: real) => a * b;
    assert Multiplies(f);
  }

  ghost function Product(): (f: (real, real) -> real)
    ensures Multiplies(f)
  {
    ProductExists();
    var f :| Multiplies(f);
    f
  }

  ghost function Times(a: real, b: real): real { Product()(a, b) }

  lemma TimesIs(a: real, b: real)
    ensures Times(a, b) == a * b
  {
    assert MultipliesAt(Product(), a, b);
  }

  lemma TimesAdds(a: real, b: real, c: real)
    ensures Times(a, b + c) == Times(a, b) + Times(a, c)
    ensures Times(b + c, a) == Times(b, a) + Times(c, a)
  {
    TimesIs(a, b + c);
    TimesIs(a, b);
    TimesIs(a, c);
    TimesIs(b + c, a);
    TimesIs(b, a);
    TimesIs(c, a);
  }

  lemma TimesSubtracts(a: real, b: real, c: real)
    ensures Times(a, b - c) == Times(a, b) - Times(a, c)
  {
    TimesIs(a, b - c);
    TimesIs(a, b);
    TimesIs(a, c);
  }

  lemma TimesAssociates(a: real, b: real, c: real)
    ensures Times(a, Times(b, c)) == Times(Times(a, b), c)
    ensures Times(a, b) == Times(b, a)
  {
    TimesIs(b, c);
    TimesIs(a, b * c);
    TimesIs(a, b);
    TimesIs(b, a);
    TimesIs(a * b, c);
    assert a * (b * c) == (a * b) * c;
  }

  lemma TimesUnits(a: real)
    ensures Times(a, 0.0) == 0.0 && Times(0.0, a) == 0.0 && Times(a, 1.0) == a && Times(1.0, a) == a
  {
    TimesIs(a, 0.0);
    TimesIs(0.0, a);
    TimesIs(a, 1.0);
    TimesIs(1.0, a);
  }

  method Multiply(a: real, b: real) returns (c: real)
    ensures c == Times(a, b)
  {
    TimesIs(a, b);
    c := a * b;
  }

  lemma TimesZero(a: real, b: real)
    requires Times(a, b) == 0.0 && b != 0.0
    ensures a == 0.0
  {
    TimesIs(a, b);
  }

  lemma TimesNegates(a: real, b: real)
    ensures Times(-a, b) == -Times(a, b) && Times(a, -b) == -Times(a, b)
  {
    TimesIs(-a, b);
    TimesIs(a, b);
    TimesIs(a, -b);
  }

  lemma QuotientExists(a: real, b: real)
    requires b != 0.0
    ensures exists c :: Times(c, b) == a
  {
    TimesIs(a / b, b);
  }

  /** The number that times `b` is `a`. */
  ghost function Quotient(a: real, b: real): (c: real)
    requires b != 0.0
    ensures Times(c, b) == a
  {
    QuotientExists(a, b);
    var c :| Times(c, b) == a;
    c
  }

  lemma QuotientUnique(a: real, b: real, c: real)
    requires b != 0.0 && Times(c, b) == a
    ensures c == Quotient(a, b)
  {
    TimesIs(c, b);
    TimesIs(Quotient(a, b), b);
  }

  method Divide(a: real, b: real) returns (c: real)
    requires b != 0.0
    ensures c == Quotient(a, b)
  {
    c := a / b;
    TimesIs(c, b);
    QuotientUnique(a, b, c);
  }
}
