/** std::lexicographical_compare over sequences of a totally ordered element type. */
module Lexicographic {
  import opened Decimal

  ghost predicate Total<T(!new)>(less: (T, T) -> bool) {
    && (forall x :: !less(x, x))
    && (forall x, y :: less(x, y) ==> !less(y, x))
    && (forall x, y, z :: less(x, y) && less(y, z) ==> less(x, z))
    && (forall x, y :: x == y || less(x, y) || less(y, x))
  }

  predicate LexLess<T(==)>(less: (T, T) -> bool, a: seq<T>, b: seq<T>)
    decreases |a|
  {
    b != [] && (a == [] || less(a[0], b[0]) || (a[0] == b[0] && LexLess(less, a[1..], b[1..])))
  }

  lemma {:induction false} LexAsymmetric<T(!new)>(less: (T, T) -> bool, a: seq<T>, b: seq<T>)
    requires Total(less) && LexLess(less, a, b)
    ensures !LexLess(less, b, a)
    decreases |a|
  {
    if a != [] && a[0] == b[0] {
      LexAsymmetric(less, a[1..], b[1..]);
    }
  }

  lemma {:induction false} LexTransitive<T(!new)>(less: (T, T) -> bool, a: seq<T>, b: seq<T>, c: seq<T>)
    requires Total(less) && LexLess(less, a, b) && LexLess(less, b, c)
    ensures LexLess(less, a, c)
    decreases |a|
  {
    if a != [] && a[0] == b[0] && b[0] == c[0] {
      LexTransitive(less, a[1..], b[1..], c[1..]);
    }
  }

  lemma {:induction false} LexTotal<T(!new)>(less: (T, T) -> bool, a: seq<T>, b: seq<T>)
    requires Total(less) && a != b
    ensures LexLess(less, a, b) || LexLess(less, b, a)
    decreases |a|
  {
    if a != [] && b != [] && a[0] == b[0] {
      assert a == [a[0]] + a[1..] && b == [b[0]] + b[1..];
      LexTotal(less, a[1..], b[1..]);
    }
  }

  /** Fields of equal width are compared first to last. */
  lemma {:induction false} LexConcat<T(!new)>(less: (T, T) -> bool, a: seq<T>, b: seq<T>, x: seq<T>, y: seq<T>)
    requires Total(less) && |a| == |b|
    ensures LexLess(less, a + x, b + y) <==> LexLess(less, a, b) || (a == b && LexLess(less, x, y))
    decreases |a|
  {
    if a == [] {
      assert a + x == x && b + y == y;
    } else {
      assert (a + x)[1..] == a[1..] + x && (b + y)[1..] == b[1..] + y;
      LexConcat(less, a[1..], b[1..], x, y);
      assert a == [a[0]] + a[1..] && b == [b[0]] + b[1..];
    }
  }

  predicate CharLess(c: char, d: char) {
    c < d
  }

  predicate TextLess(a: string, b: string) {
    LexLess(CharLess, a, b)
  }

  lemma CharsTotal()
    ensures Total(CharLess)
  {
  }

  lemma TextIrreflexive(s: string)
    ensures !TextLess(s, s)
  {
    CharsTotal();
    if TextLess(s, s) { LexAsymmetric(CharLess, s, s); }
  }

  lemma {:induction false} SameValue(a: string, b: string)
    requires |a| == |b|
    requires (forall i | 0 <= i < |a| :: IsDigit(a[i])) && (forall i | 0 <= i < |b| :: IsDigit(b[i]))
    requires Value(a) == Value(b)
    ensures a == b
  {
    if a != [] {
      var k := |a| - 1;
      assert IsDigit(a[k]) && IsDigit(b[k]);
      SameValue(a[..k], b[..k]);
      assert a == a[..k] + [a[k]] && b == b[..k] + [b[k]];
    }
  }

  /** Numbers written with the same width compare as texts the way they compare as numbers. */
  lemma {:induction false} DigitsCompare(a: string, b: string)
    requires |a| == |b|
    requires (forall i | 0 <= i < |a| :: IsDigit(a[i])) && (forall i | 0 <= i < |b| :: IsDigit(b[i]))
    ensures TextLess(a, b) <==> Value(a) < Value(b)
  {
    if a != [] {
      var k := |a| - 1;
      assert IsDigit(a[k]) && IsDigit(b[k]);
      assert a == a[..k] + [a[k]] && b == b[..k] + [b[k]];
      DigitsCompare(a[..k], b[..k]);
      CharsTotal();
      LexConcat(CharLess, a[..k], b[..k], [a[k]], [b[k]]);
      assert LexLess(CharLess, [a[k]], [b[k]]) <==> a[k] < b[k];
      if Value(a[..k]) == Value(b[..k]) { SameValue(a[..k], b[..k]); }
    }
  }
}
