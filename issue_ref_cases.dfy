/**
 * Particular inputs of `IssueRef.Set` and `IssueRef.String`: the cases the
 * repository's tests exercise, and the consequences of the lax separators and
 * of the greedy choice of groups.
 */
module IssueRefCases {
  import opened Strconv
  import opened Pattern
  import opened IssueRefs

  /** `Set("foo/bar#10")` yields owner "foo", repository "bar" and number 10. */
  lemma ParsesTestReference()
    ensures ParseRef("foo/bar#10") == Parsed("foo", "bar", 10)
  {
    ParseLaidOut("foo", '/', "bar", '#', 10);
    TestReferenceLayout();
  }

  /** `foo/bar#10` laid out in its parts. */
  lemma TestReferenceLayout()
    ensures "foo" + ['/'] + "bar" + ['#'] + Decimal(10) == "foo/bar#10"
  {
    assert Decimal(10) == "10";
  }

  /** Other separators than `/` and `#` are accepted: `foo.bar 7` reads as `foo/bar#7`. */
  lemma ParsesOtherSeparators()
    ensures ParseRef("foo.bar 7") == Parsed("foo", "bar", 7)
  {
    ParseLaidOut("foo", '.', "bar", ' ', 7);
    OtherSeparatorsLayout();
  }

  /** `foo.bar 7` laid out in its parts. */
  lemma OtherSeparatorsLayout()
    ensures "foo" + ['.'] + "bar" + [' '] + Decimal(7) == "foo.bar 7"
  {
    assert Decimal(7) == "7";
  }

  /** A text whose last character is not a digit, such as `foo/bar#bzr`, does not match. */
  lemma {:induction false} RejectsNonDigitEnd(s: string)
    requires s == [] || !IsDigit(s[|s| - 1])
    ensures ParseRef(s) == NoMatch
  {
    if a, b :| IsSplit(s, a, b) {
    }
  }

  /** The test's rejected input. */
  lemma RejectsNonNumericNumber()
    ensures ParseRef("foo/bar#bzr") == NoMatch
  {
    RejectsNonDigitEnd("foo/bar#bzr");
  }

  /** A number written `0`, as in `foo/bar#0`, does not match: the numeral starts with 1 to 9. */
  lemma {:induction false} RejectsZero(p: string)
    requires p == [] || !IsDigit(p[|p| - 1])
    ensures ParseRef(p + "0") == NoMatch
  {
    var s := p + "0";
    if a, b :| IsSplit(s, a, b) {
      if b + 1 < |p| {
        assert s[|p| - 1] == p[|p| - 1];
      } else {
        assert s[b + 1] == '0';
      }
    }
  }

  /**
   * When name characters serve as separators several splits match, and the
   * greedy one is taken: `a-b-c-12` gives owner `a-b-`, repository `-` and
   * number 2, not `a-b`, `c` and 12.
   */
  lemma PrefersLongestOwner()
    ensures IsSplit("a-b-c-12", 3, 5)
    ensures ParseRef("a-b-c-12") == Parsed("a-b-", "-", 2)
  {
    var s := "a-b-c-12";
    LongestOwnerSplit();
    ParseOfGreatestSplit(s, 4, 6);
  }

  /** `a-b-c-12` splits after `a-b` and `c` too, but the split after `a-b-` and `-` is the greatest. */
  lemma LongestOwnerSplit()
    ensures IsSplit("a-b-c-12", 3, 5)
    ensures IsGreatestSplit("a-b-c-12", 4, 6)
    ensures "a-b-c-12"[..4] == "a-b-" && "a-b-c-12"[5..6] == "-" && "a-b-c-12"[7..] == "2"
  {
    var s := "a-b-c-12";
    assert IsSplit(s, 4, 6);
    forall a, b | IsSplit(s, a, b)
      ensures a < 4 || (a == 4 && b <= 6)
    {
    }
  }

  /** `String` of owner `kaction`, repository `opinion` and number 42 is `kaction/opinion#42`. */
  lemma FormatsTestReference(v: IssueRef)
    requires v.owner == "kaction" && v.repo == "opinion" && v.number == 42
    ensures v.String() == "kaction/opinion#42"
  {
    assert Decimal(42) == "42";
  }

  /**
   * A reference of the right form whose number does not fit in an `int`, such
   * as `foo/bar#9223372036854775808`, makes `Set` panic instead of returning
   * an error, and `SetChecked` return one.
   */
  lemma PanicsOnLargeNumber(n: nat)
    requires n > MaxInt
    ensures ParseRef("foo/bar#" + Decimal(n)) == BadNumber
  {
    PrefixLayout(Decimal(n));
    ParseLaidOut("foo", '/', "bar", '#', n);
  }

  /** `foo/bar#` followed by a numeral, laid out in its parts. */
  lemma PrefixLayout(d: string)
    ensures "foo/bar#" + d == "foo" + ['/'] + "bar" + ['#'] + d
  {
    assert "foo/bar#" == "foo" + ['/'] + "bar" + ['#'];
  }

  /**
   * Name characters can serve as both separators, so a text with no other
   * character still matches: `foobar1` reads as owner `foo`, repository `a`
   * and number 1.
   */
  lemma AcceptsNameCharSeparators()
    ensures ParseRef("foobar1") == Parsed("foo", "a", 1)
  {
    var s := "foobar1";
    NameCharSplit();
    ParseOfGreatestSplit(s, 3, 5);
  }

  /** The greatest split of `foobar1` is after `foo` and `a`. */
  lemma NameCharSplit()
    ensures IsGreatestSplit("foobar1", 3, 5)
    ensures "foobar1"[..3] == "foo" && "foobar1"[4..5] == "a" && "foobar1"[6..] == "1"
  {
    var s := "foobar1";
    assert IsSplit(s, 3, 5);
    forall a, b | IsSplit(s, a, b)
      ensures a < 3 || (a == 3 && b <= 5)
    {
    }
  }
}
