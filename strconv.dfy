/**
 * Decimal numerals and Go's 64-bit `int`: the behaviour of `strconv.Atoi`
 * and of the `%d` verb of `fmt.Sprintf` that `IssueRef` relies on.
 */
module Strconv {
  import opened Wrappers

  /** Bounds of Go's `int` on a 64-bit platform. */
  const MaxInt: int := 0x7FFF_FFFF_FFFF_FFFF
  const MinInt: int := -0x8000_0000_0000_0000

  /** A value of Go's `int`. */
  type GoInt = x: int | MinInt <= x <= MaxInt

  predicate IsDigit(c: char) { '0' <= c <= '9' }

  function DigitValue(c: char): (d: nat)
    requires IsDigit(c)
    ensures d < 10
  {
    c as int - '0' as int
  }

  function DigitChar(d: nat): (c: char)
    requires d < 10
    ensures IsDigit(c) && DigitValue(c) == d
  {
    ('0' as int + d) as char
  }

  predicate AllDigits(t: string) {
    forall k {:trigger IsDigit(t[k])} :: 0 <= k < |t| ==> IsDigit(t[k])
  }

  /** The form `Decimal` produces: at least one digit, and no leading zero except in "0". */
  predicate IsCanonical(t: string) {
    |t| > 0 && AllDigits(t) && (t[0] == '0' ==> |t| == 1)
  }

  /** The number a string of decimal digits denotes (leading zeros allowed). */
  function Value(t: string): (v: nat)
    requires AllDigits(t)
  {
    if t == [] then 0 else Value(t[..|t| - 1]) * 10 + DigitValue(t[|t| - 1])
  }

  /** The decimal numeral of `n`, most significant digit first. */
  function Decimal(n: nat): (t: string)
    ensures IsCanonical(t)
  {
    if n < 10 then [DigitChar(n)] else Decimal(n / 10) + [DigitChar(n % 10)]
  }

  /** `Value` inverts `Decimal`. */
  lemma {:induction false} ValueOfDecimal(n: nat)
    ensures Value(Decimal(n)) == n
  {
    if n >= 10 {
      ValueOfDecimal(n / 10);
      var t := Decimal(n);
      assert t[..|t| - 1] == Decimal(n / 10);
    }
  }

  /** The numeral of a positive number does not start with a zero. */
  lemma {:induction false} DecimalPositive(n: nat)
    requires n >= 1
    ensures '1' <= Decimal(n)[0] <= '9'
  {
    if n >= 10 {
      DecimalPositive(n / 10);
    }
  }

  /**
   * What the `%d` verb prints for an `int`: the canonical numeral of a
   * non-negative number; for a negative one a minus sign, then the canonical
   * numeral of its magnitude, which does not start with a zero.
   */
  function Itoa(n: int): (t: string)
    ensures n >= 0 ==> IsCanonical(t)
    ensures n < 0 ==> |t| >= 2 && t[0] == '-' && IsCanonical(t[1..]) && t[1] != '0'
  {
    if n < 0 then
      DecimalPositive(-n);
      var t := "-" + Decimal(-n);
      assert t[1..] == Decimal(-n);
      t
    else Decimal(n)
  }

  /**
   * `strconv.Atoi`: an optional `+` or `-`, then at least one decimal digit and
   * nothing else, whose value fits in an `int`. Every failure (a syntax error or
   * a range error) is `None`, since the caller treats both alike.
   */
  function Atoi(t: string): (r: Option<GoInt>)
    ensures AllDigits(t) && t != [] ==> (r.Some? <==> Value(t) <= MaxInt)
    ensures AllDigits(t) && r.Some? ==> r.value == Value(t)
  {
    assert AllDigits(t) && t != [] ==> IsDigit(t[0]);
    var signed := |t| > 0 && (t[0] == '+' || t[0] == '-');
    var body := if signed then t[1..] else t;
    if body == [] || !AllDigits(body) then None
    else
      var v: int := if signed && t[0] == '-' then -(Value(body) as int) else Value(body);
      if MinInt <= v <= MaxInt then Some(v) else None
  }

  /** A digit string with a non-zero first digit denotes a positive number. */
  lemma {:induction false} ValuePositive(t: string)
    requires AllDigits(t) && |t| > 0 && t[0] != '0'
    ensures Value(t) >= 1
  {
    if |t| > 1 {
      ValuePositive(t[..|t| - 1]);
    }
  }

  /** `Decimal` inverts `Value` on canonical numerals. */
  lemma {:induction false} DecimalOfValue(t: string)
    requires IsCanonical(t)
    ensures Decimal(Value(t)) == t
  {
    if |t| > 1 {
      var p := t[..|t| - 1];
      ValuePositive(p);
      DecimalOfValue(p);
      assert Value(t) / 10 == Value(p);
      assert Value(t) % 10 == DigitValue(t[|t| - 1]);
      assert t == p + [t[|t| - 1]];
    }
  }

  /** Every `int` that `%d` prints, `Atoi` reads back unchanged. */
  lemma AtoiItoa(n: GoInt)
    ensures Atoi(Itoa(n)) == Some(n)
  {
    var t := Itoa(n);
    ValueOfDecimal(if n < 0 then -(n as int) else n);
    if n < 0 {
      var d := Decimal(-(n as int));
      assert t == "-" + d;
      assert t[1..] == d;
      assert AllDigits(d) && d != [];
    } else {
      assert t == Decimal(n);
      assert IsDigit(t[0]);
    }
  }
}
