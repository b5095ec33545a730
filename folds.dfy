/** Sums and products of a per-element term over a sequence, folded from
    the end as the pricing loops accumulate them, and the fact that
    neither depends on the order of the elements. */
module Folds {
  /** The sum of `term` over `xs`. */
  function SumOf<T>(xs: seq<T>, term: T -> real): real
  {
    if xs == [] then 0.0
    else SumOf(xs[..|xs| - 1], term) + term(xs[|xs| - 1])
  }

  /** Real multiplication under a name of its own, so that products of
      equal operands are recognised as equal without arithmetic. */
  function Mul(a: real, b: real): real
  {
    a * b
  }

  /** The product of `factor` over `xs`. */
  function Product<T>(xs: seq<T>, factor: T -> real): real
  {
    if xs == [] then 1.0
    else Mul(Product(xs[..|xs| - 1], factor), factor(xs[|xs| - 1]))
  }

  lemma Reassociate(a: real, b: real, c: real)
    ensures Mul(Mul(a, b), c) == Mul(a, Mul(b, c))
    ensures Mul(Mul(a, c), b) == Mul(Mul(a, b), c)
    ensures Mul(1.0, a) == a
  {
  }

  lemma {:induction false} SumOfConcat<T>(a: seq<T>, b: seq<T>, term: T -> real)
    ensures SumOf(a + b, term) == SumOf(a, term) + SumOf(b, term)
  {
    if b == [] {
      assert a + b == a;
    } else {
      var b' := b[..|b| - 1];
      assert (a + b)[..|a + b| - 1] == a + b';
      SumOfConcat(a, b', term);
    }
  }

  lemma {:induction false} ProductConcat<T>(a: seq<T>, b: seq<T>, factor: T -> real)
    ensures Product(a + b, factor) == Mul(Product(a, factor), Product(b, factor))
  {
    if b == [] {
      assert a + b == a;
    } else {
      var b' := b[..|b| - 1];
      assert (a + b)[..|a + b| - 1] == a + b';
      ProductConcat(a, b', factor);
      Reassociate(Product(a, factor), Product(b', factor), factor(b[|b| - 1]));
    }
  }

  /** Taking one element out subtracts its term from the sum. */
  lemma SumOfRemove<T>(before: seq<T>, x: T, after: seq<T>, term: T -> real)
    ensures SumOf(before + [x] + after, term) == SumOf(before + after, term) + term(x)
  {
    SumOfConcat(before + [x], after, term);
    SumOfConcat(before, [x], term);
    SumOfConcat(before, after, term);
    assert SumOf([x], term) == term(x) by {
      assert [x][..0] == [];
    }
  }

  /** Taking one element out divides its factor out of the product. */
  lemma ProductRemove<T>(before: seq<T>, x: T, after: seq<T>, factor: T -> real)
    ensures Product(before + [x] + after, factor) == Mul(Product(before + after, factor), factor(x))
  {
    ProductConcat(before + [x], after, factor);
    ProductConcat(before, [x], factor);
    ProductConcat(before, after, factor);
    assert Product([x], factor) == factor(x) by {
      assert [x][..0] == [];
      Reassociate(1.0, 1.0, factor(x));
    }
    Reassociate(Product(before, factor), Product(after, factor), factor(x));
  }

  /** Removing the element at `j` leaves the others as a multiset. */
  lemma RemoveAt<T>(t: seq<T>, j: nat)
    requires j < |t|
    ensures t == t[..j] + [t[j]] + t[j + 1..]
    ensures multiset(t[..j] + t[j + 1..]) == multiset(t) - multiset{t[j]}
  {
    assert t == t[..j] + [t[j]] + t[j + 1..];
  }

  /** A sum does not depend on the order of the elements. */
  lemma {:induction false} SumOfPermutation<T>(s: seq<T>, t: seq<T>, term: T -> real)
    requires multiset(s) == multiset(t)
    ensures SumOf(s, term) == SumOf(t, term)
    decreases |s|
  {
    if s == [] {
      assert |t| == |multiset(t)| == 0;
    } else {
      var x := s[|s| - 1];
      var s' := s[..|s| - 1];
      assert s == s' + [x];
      assert x in multiset(t);
      var j :| 0 <= j < |t| && t[j] == x;
      RemoveAt(t, j);
      SumOfPermutation(s', t[..j] + t[j + 1..], term);
      SumOfRemove(t[..j], x, t[j + 1..], term);
    }
  }

  /** A product does not depend on the order of the elements. */
  lemma {:induction false} ProductPermutation<T>(s: seq<T>, t: seq<T>, factor: T -> real)
    requires multiset(s) == multiset(t)
    ensures Product(s, factor) == Product(t, factor)
    decreases |s|
  {
    if s == [] {
      assert |t| == |multiset(t)| == 0;
    } else {
      var x := s[|s| - 1];
      var s' := s[..|s| - 1];
      assert s == s' + [x];
      assert x in multiset(t);
      var j :| 0 <= j < |t| && t[j] == x;
      RemoveAt(t, j);
      ProductPermutation(s', t[..j] + t[j + 1..], factor);
      ProductRemove(t[..j], x, t[j + 1..], factor);
    }
  }
}
