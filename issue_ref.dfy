/**
 * The `IssueRef` value of the command-line tool: a reference to one issue,
 * `owner/repo#N`, which the flag parser fills in through `Set` and prints
 * through `String`.
 */
module IssueRefs {
  import opened Wrappers
  import opened Strconv
  import opened Pattern

  /** What `Set` reports to its caller: success, a returned error, or a panic. */
  datatype SetOutcome = Ok | Error(message: string) | Panic(message: string)

  const NoMatchMessage := "no match for `owner/repo#nnn' format"
  const BadNumberMessage := "issueRefRegex accepted non-numeric issue number"
  /** The error `SetChecked` returns for a number that does not fit in an `int`. */
  const RangeMessage := "issue number out of range"

  /**
   * What `Set` makes of a string, before it touches the receiver: the three
   * fields, or no match, or a matched number that `Atoi` refuses (it is too
   * large for an `int`), on which `Set` panics.
   */
  datatype Parse = Parsed(owner: string, repo: string, number: GoInt) | NoMatch | BadNumber

  /** `Atoi` reads a numeral of the pattern as its value when that fits in an `int`, which `%d` prints back as the numeral. */
  lemma NumeralAtoi(d: string)
    requires IsNumeral(d)
    ensures Atoi(d) == if Value(d) <= MaxInt then Some(Value(d)) else None
    ensures Value(d) >= 1 && Itoa(Value(d)) == d
  {
    ValuePositive(d);
    DecimalOfValue(d);
  }

  /**
   * The parse `Set` performs: the groups of the match, the third read by
   * `Atoi`. The result in terms of the text is stated by `ParseOfGreatestSplit`.
   */
  function ParseRef(s: string): (r: Parse)
    ensures r.NoMatch? <==> !Matches(s)
    ensures r.Parsed? ==> r.number >= 1
  {
    match FindStringSubmatch(s)
    case None => NoMatch
    case Some(m) =>
      SplitParts(s, |m.owner|, |m.owner| + 1 + |m.repo|);
      NumeralAtoi(m.digits);
      match Atoi(m.digits)
      case None => BadNumber
      case Some(n) => Parsed(m.owner, m.repo, n)
  }

  /**
   * When the text matches, the greatest split decides the parse: its owner,
   * its repository and the value of its numeral, or `BadNumber` when that
   * value does not fit in an `int`.
   */
  lemma ParseOfGreatestSplit(s: string, i: int, j: int)
    requires IsGreatestSplit(s, i, j)
    ensures IsNumeral(s[j + 1..])
    ensures ParseRef(s) ==
      if Value(s[j + 1..]) <= MaxInt then Parsed(s[..i], s[i + 1..j], Value(s[j + 1..]))
      else BadNumber
  {
    SplitParts(s, i, j);
    NumeralAtoi(s[j + 1..]);
  }

  /**
   * On success the text is the owner, a separator, the repository, a
   * separator and the decimal numeral of the number, cut at the greatest
   * split; the two fields are names and any character but a newline may
   * separate them.
   */
  lemma ParsedLayout(s: string)
    requires ParseRef(s).Parsed?
    ensures
      var r := ParseRef(s);
      IsGreatestSplit(s, |r.owner|, |r.owner| + 1 + |r.repo|) &&
      IsName(r.owner) && IsName(r.repo) && 1 <= r.number &&
      IsSeparator(s[|r.owner|]) && IsSeparator(s[|r.owner| + 1 + |r.repo|]) &&
      s == r.owner + [s[|r.owner|]] + r.repo + [s[|r.owner| + 1 + |r.repo|]] + Itoa(r.number)
  {
    var r := ParseRef(s);
    var (i, j) := FindSplit(s).value;
    ParseOfGreatestSplit(s, i, j);
    SplitParts(s, i, j);
    NumeralAtoi(s[j + 1..]);
    SplitJoin(s, i, j);
  }

  /** Where the parts of a text joined from five parts lie. */
  lemma JoinParts(owner: string, c1: char, repo: string, c2: char, d: string)
    ensures
      var s, i, j := owner + [c1] + repo + [c2] + d, |owner|, |owner| + 1 + |repo|;
      |s| == j + 1 + |d| && s[i] == c1 && s[j] == c2 &&
      s[..i] == owner && s[i + 1..j] == repo && s[j + 1..] == d
  {
    var s, i, j := owner + [c1] + repo + [c2] + d, |owner|, |owner| + 1 + |repo|;
    assert s[..i] == owner;
    assert s[i + 1..j] == repo;
    assert s[j + 1..] == d;
  }

  /** The parts of `owner/repo#N` as `%s/%s#%d` lays them out. */
  lemma FormatParts(owner: string, repo: string, n: GoInt)
    ensures
      var r, k := owner + ['/'] + repo + ['#'] + Itoa(n), |owner| + |repo| + 2;
      |r| > k && r[..|owner|] == owner && r[|owner|] == '/' &&
      r[|owner| + 1..|owner| + 1 + |repo|] == repo && r[|owner| + 1 + |repo|] == '#' &&
      Atoi(r[k..]) == Some(n) &&
      (n >= 0 ==> IsCanonical(r[k..])) &&
      (n < 0 ==> r[k] == '-' && IsCanonical(r[k + 1..]) && r[k + 1] != '0')
  {
    var t := Itoa(n);
    var r, k := owner + ['/'] + repo + ['#'] + t, |owner| + |repo| + 2;
    JoinParts(owner, '/', repo, '#', t);
    AtoiItoa(n);
    assert r[k..] == t;
    if n < 0 {
      assert r[k + 1..] == t[1..];
    }
  }

  /** Text built from two names, two separators that are not name characters and a numeral is split exactly there. */
  lemma LaidOutSplit(owner: string, c1: char, repo: string, c2: char, d: string)
    requires IsName(owner) && IsName(repo) && IsNumeral(d)
    requires IsSeparator(c1) && IsSeparator(c2)
    ensures
      var s, i, j := owner + [c1] + repo + [c2] + d, |owner|, |owner| + 1 + |repo|;
      IsSplit(s, i, j) && s[i] == c1 && s[j] == c2 &&
      s[..i] == owner && s[i + 1..j] == repo && s[j + 1..] == d
  {
    JoinParts(owner, c1, repo, c2, d);
  }

  /** When the separators are not name characters, no other split of such text is greater. */
  lemma LaidOutGreatest(owner: string, c1: char, repo: string, c2: char, d: string)
    requires IsName(owner) && IsName(repo) && IsNumeral(d)
    requires IsSeparator(c1) && !IsNameChar(c1) && IsSeparator(c2) && !IsNameChar(c2)
    ensures
      var s, i, j := owner + [c1] + repo + [c2] + d, |owner|, |owner| + 1 + |repo|;
      IsGreatestSplit(s, i, j) && s[..i] == owner && s[i + 1..j] == repo && s[j + 1..] == d
  {
    var s, i, j := owner + [c1] + repo + [c2] + d, |owner|, |owner| + 1 + |repo|;
    LaidOutSplit(owner, c1, repo, c2, d);
    forall a, b | IsSplit(s, a, b)
      ensures a < i || (a == i && b <= j)
    {
    }
  }

  /**
   * Text laid out as `owner`, one separator that is not a name character,
   * `repo`, another such separator, and the decimal numeral of a positive `n`
   * parses back to exactly those parts; a numeral too large for an `int`
   * makes `Set` panic.
   */
  lemma ParseLaidOut(owner: string, c1: char, repo: string, c2: char, n: nat)
    requires IsName(owner) && IsName(repo) && n >= 1
    requires IsSeparator(c1) && !IsNameChar(c1) && IsSeparator(c2) && !IsNameChar(c2)
    ensures ParseRef(owner + [c1] + repo + [c2] + Decimal(n)) ==
      if n <= MaxInt then Parsed(owner, repo, n) else BadNumber
  {
    var d := Decimal(n);
    DecimalPositive(n);
    var s, i, j := owner + [c1] + repo + [c2] + d, |owner|, |owner| + 1 + |repo|;
    LaidOutGreatest(owner, c1, repo, c2, d);
    ParseOfGreatestSplit(s, i, j);
    ValueOfDecimal(n);
  }

  /** The receiver of `Set` and `String`: the struct's three fields. */
  class IssueRef {
    var owner: string
    var repo: string
    var number: GoInt

    constructor (owner: string, repo: string, number: GoInt)
      ensures this.owner == owner && this.repo == repo && this.number == number
    {
      this.owner := owner;
      this.repo := repo;
      this.number := number;
    }

    /**
     * `owner/repo#N`: the owner, a slash, the repository, a hash sign, and
     * then text that `Atoi` reads back as the number, written as `%d` writes
     * it: a canonical numeral, preceded by a minus sign for a negative number.
     */
    function String(): (r: string)
      reads this
      ensures |r| > |owner| + |repo| + 2
      ensures r[..|owner|] == owner && r[|owner|] == '/'
      ensures r[|owner| + 1..|owner| + 1 + |repo|] == repo && r[|owner| + 1 + |repo|] == '#'
      ensures Atoi(r[|owner| + |repo| + 2..]) == Some(number)
      ensures number >= 0 ==> IsCanonical(r[|owner| + |repo| + 2..])
      ensures number < 0 ==>
        r[|owner| + |repo| + 2] == '-' && IsCanonical(r[|owner| + |repo| + 3..]) &&
        r[|owner| + |repo| + 3] != '0'
    {
      FormatParts(owner, repo, number);
      owner + ['/'] + repo + ['#'] + Itoa(number)
    }

    /**
     * Parses `s` into the fields. The fields change only when the pattern
     * matches and the number fits in an `int`; otherwise an error is returned
     * (no match) or the call panics (number out of range), both before any
     * field is assigned.
     */
    method Set(s: string) returns (outcome: SetOutcome)
      modifies this
      ensures outcome == Ok <==> ParseRef(s).Parsed?
      ensures outcome == Error(NoMatchMessage) <==> ParseRef(s).NoMatch?
      ensures outcome == Panic(BadNumberMessage) <==> ParseRef(s).BadNumber?
      ensures ParseRef(s).Parsed? ==>
        owner == ParseRef(s).owner && repo == ParseRef(s).repo && number == ParseRef(s).number
      ensures !ParseRef(s).Parsed? ==>
        owner == old(owner) && repo == old(repo) && number == old(number)
    {
      var m := FindStringSubmatch(s);
      if m.None? {
        return Error(NoMatchMessage);
      }
      var n := Atoi(m.value.digits);
      if n.None? {
        return Panic(BadNumberMessage);
      }
      owner, repo, number := m.value.owner, m.value.repo, n.value;
      return Ok;
    }

    /**
     * `Set` as evidently intended: a matched number too large for an `int` is
     * reported as an error, like a text that does not match, instead of
     * crashing the program. It never panics and otherwise behaves as `Set`.
     */
    method SetChecked(s: string) returns (outcome: SetOutcome)
      modifies this
      ensures !outcome.Panic?
      ensures outcome == Ok <==> ParseRef(s).Parsed?
      ensures outcome == Error(NoMatchMessage) <==> ParseRef(s).NoMatch?
      ensures outcome == Error(RangeMessage) <==> ParseRef(s).BadNumber?
      ensures ParseRef(s).Parsed? ==>
        owner == ParseRef(s).owner && repo == ParseRef(s).repo && number == ParseRef(s).number
      ensures !ParseRef(s).Parsed? ==>
        owner == old(owner) && repo == old(repo) && number == old(number)
    {
      var m := FindStringSubmatch(s);
      if m.None? {
        return Error(NoMatchMessage);
      }
      var n := Atoi(m.value.digits);
      if n.None? {
        return Error(RangeMessage);
      }
      owner, repo, number := m.value.owner, m.value.repo, n.value;
      return Ok;
    }
  }

  /** `Set(v.String())` gives back `v` whenever `v` satisfies the pattern's grammar. */
  lemma RoundTrip(v: IssueRef)
    requires IsName(v.owner) && IsName(v.repo) && v.number >= 1
    ensures ParseRef(v.String()) == Parsed(v.owner, v.repo, v.number)
  {
    ParseLaidOut(v.owner, '/', v.repo, '#', v.number);
    assert v.String() == v.owner + ['/'] + v.repo + ['#'] + Decimal(v.number);
  }
}
