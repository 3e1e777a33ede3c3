/** Small datatypes and arithmetic shared by every module. */
module Common {

  datatype Option<+T> = None | Some(value: T)

  datatype Side = Buy | Sell

  /** A traded symbol such as WBTC/USDC. */
  datatype Pair = Pair(base: string, quote: string)

  function Max(x: real, y: real): real {
    if x >= y then x else y
  }

  function Min(x: real, y: real): real {
    if x <= y then x else y
  }

  function Abs(x: real): real {
    if x >= 0.0 then x else -x
  }

  function Pow10(n: nat): (r: nat)
    ensures r >= 1
  {
    if n == 0 then 1 else 10 * Pow10(n - 1)
  }

  /** The largest element of a nonempty sequence. */
  function MaxOf(s: seq<real>): (m: real)
    requires s != []
    ensures m in s
    ensures forall x | x in s :: x <= m
  {
    assert s == [s[0]] + s[1..];
    if |s| == 1 then s[0] else Max(s[0], MaxOf(s[1..]))
  }

  /** The smallest element of a nonempty sequence. */
  function MinOf(s: seq<real>): (m: real)
    requires s != []
    ensures m in s
    ensures forall x | x in s :: m <= x
  {
    assert s == [s[0]] + s[1..];
    if |s| == 1 then s[0] else Min(s[0], MinOf(s[1..]))
  }

  lemma {:induction false} MaxOfAppend(s: seq<real>, x: real)
    ensures MaxOf(s + [x]) == if s == [] then x else Max(MaxOf(s), x)
  {
    if s == [] {
      assert s + [x] == [x];
    } else {
      assert (s + [x])[1..] == s[1..] + [x];
      MaxOfAppend(s[1..], x);
    }
  }

  lemma {:induction false} MinOfAppend(s: seq<real>, x: real)
    ensures MinOf(s + [x]) == if s == [] then x else Min(MinOf(s), x)
  {
    if s == [] {
      assert s + [x] == [x];
    } else {
      assert (s + [x])[1..] == s[1..] + [x];
      MinOfAppend(s[1..], x);
    }
  }

  /** The sum of a sequence of amounts. */
  function Sum(s: seq<real>): real {
    if s == [] then 0.0 else s[0] + Sum(s[1..])
  }

  lemma {:induction false} SumConcat(a: seq<real>, b: seq<real>)
    ensures Sum(a + b) == Sum(a) + Sum(b)
  {
    if a == [] {
      assert a + b == b;
    } else {
      SumConcat(a[1..], b);
      assert (a + b)[1..] == a[1..] + b;
    }
  }

  /** A product under a name, so that proofs about sequences can treat it as one term. */
  function Times(x: real, y: real): real {
    x * y
  }

  lemma TimesMinus(k: real, x: real, y: real)
    ensures Times(k, x) - Times(k, y) == Times(k, x - y)
  {
    assert k * x - k * y == k * (x - y);
  }

  /** A positive factor keeps order and sign. */
  lemma TimesOrder(k: real, x: real, y: real)
    requires k > 0.0
    ensures Times(k, x) <= Times(k, y) <==> x <= y
    ensures Times(k, -x) == -Times(k, x)
    ensures Times(k, 0.0) == 0.0
  {
    ProductOrder(x, y, k);
    assert k * (-x) == -(k * x);
  }

  lemma TimesMax(k: real, x: real, y: real)
    requires k > 0.0
    ensures Max(Times(k, x), Times(k, y)) == Times(k, Max(x, y))
    ensures Min(Times(k, x), Times(k, y)) == Times(k, Min(x, y))
  {
    hide Times;
    TimesOrder(k, x, y);
  }

  lemma TimesAbs(k: real, x: real)
    requires k > 0.0
    ensures Abs(Times(k, x)) == Times(k, Abs(x))
  {
    hide Times;
    TimesOrder(k, x, 0.0);
    TimesOrder(k, 0.0, x);
  }

  // ----- order of products and quotients -----

  lemma ProductSign(x: real, y: real)
    requires y > 0.0
    ensures x * y > 0.0 <==> x > 0.0
    ensures x * y == 0.0 <==> x == 0.0
  {
  }

  lemma ProductNonNegative(x: real, y: real)
    requires x >= 0.0 && y >= 0.0
    ensures x * y >= 0.0
  {
  }

  lemma ProductOrder(x: real, z: real, y: real)
    requires y > 0.0
    ensures x * y <= z * y <==> x <= z
  {
  }

  lemma FractionAtMost(x: real, c: real, product: real)
    requires x >= 0.0 && c <= 1.0 && product == x * c
    ensures product <= x
  {
  }

  lemma QuotientTimes(x: real, y: real)
    requires y != 0.0
    ensures x / y * y == x
  {
  }

  lemma QuotientSign(x: real, y: real)
    requires y > 0.0
    ensures x / y * y == x
    ensures x / y > 0.0 <==> x > 0.0
    ensures x / y == 0.0 <==> x == 0.0
  {
  }

  lemma QuotientOrder(x: real, y: real, z: real)
    requires y > 0.0
    ensures x / y <= z <==> x <= z * y
    ensures x / y >= z <==> x >= z * y
  {
  }

  lemma TimesQuotient(x: real, y: real)
    requires y != 0.0
    ensures x * y / y == x
  {
  }
}
