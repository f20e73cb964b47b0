/**
 * The issue-reference pattern `^([-a-zA-Z0-9]+).([-a-zA-Z0-9]+).([1-9][0-9]*)$`
 * as a grammar, and a matcher that returns the submatches Go's leftmost-first
 * (backtracking-order) semantics picks. In Go's regular expressions `.` is any
 * character except a newline and `$` is the end of the text.
 */
module Pattern {
  import opened Wrappers
  import opened Strconv

  /** The character class `[-a-zA-Z0-9]`. */
  predicate IsNameChar(c: char) {
    c == '-' || 'a' <= c <= 'z' || 'A' <= c <= 'Z' || '0' <= c <= '9'
  }

  /** `[-a-zA-Z0-9]+` */
  predicate IsName(t: string) {
    |t| > 0 && forall k {:trigger IsNameChar(t[k])} :: 0 <= k < |t| ==> IsNameChar(t[k])
  }

  /** `.`: any single character but a newline. */
  predicate IsSeparator(c: char) { c != '\n' }

  /** `[1-9][0-9]*` */
  predicate IsNumeral(t: string) {
    |t| > 0 && '1' <= t[0] <= '9' && AllDigits(t)
  }

  /** `s[lo..hi]` is a name: non-empty and made of name characters only. */
  predicate NameSpan(s: string, lo: int, hi: int) {
    0 <= lo < hi <= |s| && forall k {:trigger IsNameChar(s[k])} :: lo <= k < hi ==> IsNameChar(s[k])
  }

  /** `s[from..]` is a numeral: it runs to the end of the text. */
  predicate NumeralFrom(s: string, from: int) {
    0 <= from < |s| && '1' <= s[from] <= '9' && forall k {:trigger IsDigit(s[k])} :: from <= k < |s| ==> IsDigit(s[k])
  }

  /**
   * The whole of `s` matches the pattern with the owner `s[..i]`, a separator
   * `s[i]`, the repository `s[i + 1..j]`, a separator `s[j]` and the number `s[j + 1..]`.
   */
  predicate IsSplit(s: string, i: int, j: int) {
    NameSpan(s, 0, i) && i < |s| && IsSeparator(s[i]) &&
    NameSpan(s, i + 1, j) && j < |s| && IsSeparator(s[j]) && NumeralFrom(s, j + 1)
  }

  /** The pattern matches `s`. */
  ghost predicate Matches(s: string) {
    exists i, j :: IsSplit(s, i, j)
  }

  /**
   * The split a leftmost-first matcher settles on: no other split has a longer
   * owner, and none with the same owner has a longer repository.
   */
  ghost predicate IsGreatestSplit(s: string, i: int, j: int) {
    IsSplit(s, i, j) && forall a, b :: IsSplit(s, a, b) ==> a < i || (a == i && b <= j)
  }

  /** The part of the pattern after the repository, when the repository ends at `j`. */
  predicate TailMatches(s: string, j: int) {
    0 <= j < |s| && IsSeparator(s[j]) && NumeralFrom(s, j + 1)
  }

  /** The end of the longest run of name characters starting at `from`: how far a greedy `[-a-zA-Z0-9]+` reaches. */
  function NameRun(s: string, from: nat): (end: nat)
    requires from <= |s|
    ensures from <= end <= |s|
    ensures forall k {:trigger IsNameChar(s[k])} :: from <= k < end ==> IsNameChar(s[k])
    ensures end == |s| || !IsNameChar(s[end])
    decreases |s| - from
  {
    if from < |s| && IsNameChar(s[from]) then NameRun(s, from + 1) else from
  }

  /** A split's repository, which is followed by a separator, ends within the name run after the owner. */
  lemma RepoWithinRun(s: string, i: nat)
    requires i < |s|
    ensures forall j :: IsSplit(s, i, j) ==> j <= NameRun(s, i + 1)
  {
  }

  /** A split's owner ends within the name run at the start of the text. */
  lemma OwnerWithinRun(s: string)
    ensures forall i, j :: IsSplit(s, i, j) ==> i <= NameRun(s, 0)
  {
  }

  /**
   * Backtracking over the repository's end: the largest `j` in `i + 2 ..= hi`
   * after which the rest of the pattern matches.
   */
  function FindRepoEnd(s: string, i: nat, hi: nat): (r: Option<nat>)
    requires i + 1 <= hi
    ensures r.Some? ==> i + 2 <= r.value <= hi && TailMatches(s, r.value)
    ensures forall j :: i + 2 <= j <= hi && TailMatches(s, j) ==> r.Some? && j <= r.value
    decreases hi
  {
    if hi < i + 2 then None
    else if TailMatches(s, hi) then Some(hi)
    else FindRepoEnd(s, i, hi - 1)
  }

  /**
   * Backtracking over the owner's end, from `i` down to 1: the first split found,
   * which is the one with the largest owner end not above `i` and, for it, the
   * largest repository end.
   */
  function FindSplitFrom(s: string, i: nat): (r: Option<(nat, nat)>)
    requires i <= |s|
    requires forall k {:trigger IsNameChar(s[k])} :: 0 <= k < i ==> IsNameChar(s[k])
    ensures r.Some? ==> IsSplit(s, r.value.0, r.value.1) && r.value.0 <= i
    ensures forall a, b :: IsSplit(s, a, b) && a <= i ==>
      r.Some? && (a < r.value.0 || (a == r.value.0 && b <= r.value.1))
    decreases i
  {
    if i == 0 then None
    else if i < |s| && IsSeparator(s[i]) then
      var hi := NameRun(s, i + 1);
      RepoWithinRun(s, i);
      assert forall b :: IsSplit(s, i, b) ==> TailMatches(s, b) && i + 2 <= b <= hi;
      match FindRepoEnd(s, i, hi)
      case Some(j) => Some((i, j))
      case None => FindSplitFrom(s, i - 1)
    else FindSplitFrom(s, i - 1)
  }

  /** The split the backtracking matcher settles on, if the pattern matches at all. */
  function FindSplit(s: string): (r: Option<(nat, nat)>)
    ensures r.Some? <==> Matches(s)
    ensures r.Some? ==> IsGreatestSplit(s, r.value.0, r.value.1)
  {
    OwnerWithinRun(s);
    FindSplitFrom(s, NameRun(s, 0))
  }

  /** The three capture groups of a match. */
  datatype Submatch = Submatch(owner: string, repo: string, digits: string)

  /**
   * `FindStringSubmatch` for the issue-reference pattern: `None` when the
   * pattern does not match, otherwise the groups of the greedy split.
   */
  function FindStringSubmatch(s: string): (r: Option<Submatch>)
    ensures r.Some? <==> Matches(s)
    ensures forall i, j :: IsGreatestSplit(s, i, j) ==>
      r == Some(Submatch(s[..i], s[i + 1..j], s[j + 1..]))
  {
    match FindSplit(s)
    case None => None
    case Some((i, j)) => Some(Submatch(s[..i], s[i + 1..j], s[j + 1..]))
  }

  /** The pieces a split cuts out are a name, a name and a numeral. */
  lemma SplitParts(s: string, i: int, j: int)
    requires IsSplit(s, i, j)
    ensures IsName(s[..i]) && IsName(s[i + 1..j]) && IsNumeral(s[j + 1..])
  {
  }

  /** Putting the pieces of a split back together, with the two separators, gives the text. */
  lemma SplitJoin(s: string, i: int, j: int)
    requires 0 <= i < j < |s|
    ensures s == s[..i] + [s[i]] + s[i + 1..j] + [s[j]] + s[j + 1..]
  {
    assert s[..j] == s[..i] + [s[i]] + s[i + 1..j];
    assert s == s[..j] + [s[j]] + s[j + 1..];
  }
}
