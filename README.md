# IssueRef: issue references of the `opinion` command-line tool

The tool names an issue on the command line as `owner/repo#N`. The type
`IssueRef` holds the three parts: `Owner`, `Repo` and `Number`. Its `Set`
method parses a flag value and its `String` method formats it back.

`Set` matches the text against the pattern
`^([-a-zA-Z0-9]+).([-a-zA-Z0-9]+).([1-9][0-9]*)$`. When the text does not
match, `Set` returns an error. When it matches, `Set` reads the third group
with `strconv.Atoi` and panics if `Atoi` fails. Otherwise it assigns all
three fields. `String` prints `%s/%s#%d`.

The model has five modules:

- `Wrappers`: the `Option` type.
- `Strconv`: Go's 64-bit `int` (`GoInt`), decimal numerals, `%d` (`Itoa`)
  and `strconv.Atoi`. It proves that `Atoi` reads back what `%d` prints and
  that `Value` and `Decimal` are mutual inverses.
- `Pattern`: the pattern as a grammar (`IsSplit(s, i, j)`: the owner ends
  at `i`, the repository at `j`).
  - `FindStringSubmatch` is a matcher that backtracks as Go's
    leftmost-first semantics does. It tries the owner's end from the
    longest run of name characters downward. For each owner end it tries
    the repository's end the same way.
  - It is proved to match exactly when the grammar does. It is also proved
    to return the greatest split (`IsGreatestSplit`).
- `IssueRefs`:
  - `ParseRef` is the pure part of `Set`.
  - `IssueRef` is a class with the three fields. Its method `Set` updates
    them in place, and `String` reads them.
  - The round trip `ParseRef(v.String()) == Parsed(v.owner, v.repo, v.number)`
    is proved for every value whose owner and repository are names and
    whose number is positive.
- `IssueRefCases`: the inputs of the repository's tests, plus consequences
  of the lax separators and of the greedy choice of groups. Name characters
  can act as separators too, so a text with no other character can match:
  `foobar1` reads as owner `foo`, repository `a` and number 1
  (`IssueRefCases.AcceptsNameCharSeparators`).

## Model

| member | source | states |
|---|---|---|
| Strconv.DigitChar | src/issue-ref.go:17 | the digit printed for a value below 10 is a digit that denotes that value |
| Strconv.Decimal | src/issue-ref.go:17 | the numeral `%d` prints for a natural number is non-empty, all digits, without leading zero |
| Strconv.ValueOfDecimal | src/issue-ref.go:17 | the numeral printed for `n` denotes `n` |
| Strconv.DecimalPositive | src/issue-ref.go:17 | the numeral of a positive number starts with 1 to 9, as the pattern's third group demands |
| Strconv.ValuePositive | src/issue-ref.go:23 | a digit string without leading zero denotes a positive number |
| Strconv.DecimalOfValue | src/issue-ref.go:36 | a canonical numeral is the numeral printed for its own value |
| Strconv.Atoi | src/issue-ref.go:36 | on a non-empty digit string, `Atoi` succeeds exactly when the value fits in an `int`, and then yields that value |
| Strconv.Itoa | src/issue-ref.go:17 | `%d` prints a non-negative number as its canonical numeral, and a negative one as a minus sign followed by the canonical numeral of its magnitude, which does not start with a zero |
| Strconv.AtoiItoa | src/issue-ref.go:17 | every `int` printed with `%d` is read back unchanged by `Atoi`, negative numbers included |
| Pattern.NameRun | src/issue-ref.go:23 | the greedy reach of `[-a-zA-Z0-9]+`: every character up to the end is a name character, and the next one is not |
| Pattern.RepoWithinRun | src/issue-ref.go:23 | a split's repository ends within the name run after the owner's separator |
| Pattern.OwnerWithinRun | src/issue-ref.go:23 | a split's owner ends within the name run at the start |
| Pattern.FindRepoEnd | src/issue-ref.go:32 | backtracking over the repository's end returns the largest end after which the rest of the pattern matches, and nothing when there is none |
| Pattern.FindSplitFrom | src/issue-ref.go:32 | backtracking over the owner's end returns a split, and no split with an owner end not above the start point is greater |
| Pattern.FindSplit | src/issue-ref.go:32 | a split is found exactly when the pattern matches, and it is the greatest split |
| Pattern.FindStringSubmatch | src/issue-ref.go:32-35 | no submatch exactly when the pattern does not match; otherwise the three groups are the pieces of the greatest split |
| Pattern.SplitParts | src/issue-ref.go:23 | the pieces of a split are a name, a name and a numeral |
| Pattern.SplitJoin | src/issue-ref.go:32 | a split's pieces and separators put back together give the text |
| IssueRefs.NumeralAtoi | src/issue-ref.go:36-39 | `Atoi` fails on a numeral of the pattern only when its value exceeds `MaxInt`; the value is positive, and `%d` prints it back as the numeral |
| IssueRefs.ParseRef | src/issue-ref.go:31-39 | the no-match outcome happens exactly when the pattern does not match; a parsed number is positive |
| IssueRefs.ParseOfGreatestSplit | src/issue-ref.go:32-40 | on a matching text the parse is the greatest split's owner and repository with its numeral's value, or the panic case when that value exceeds `MaxInt` |
| IssueRefs.ParsedLayout | src/issue-ref.go:31-42 | on success, the text is owner, separator, repository, separator and the `%d` numeral of the number, cut at the greatest split; owner and repository are names |
| IssueRefs.JoinParts | src/issue-ref.go:17 | where each part of a text joined from owner, separator, repository, separator and numeral lies |
| IssueRefs.LaidOutSplit | src/issue-ref.go:23 | two names and a numeral joined by two separators form a split at the joins |
| IssueRefs.LaidOutGreatest | src/issue-ref.go:23 | when the separators are not name characters, that split is the greatest one |
| IssueRefs.ParseLaidOut | src/issue-ref.go:31-42 | such a text with the numeral of a positive `n` parses to exactly its parts, or panics when `n` exceeds `MaxInt` |
| IssueRefs.IssueRef.constructor | src/issue-ref.go:10-14 | the struct holds the given owner, repository and number |
| IssueRefs.FormatParts | src/issue-ref.go:17 | in `owner + "/" + repo + "#" + %d`, each part lies where `String` promises, and the number's text is canonical |
| IssueRefs.IssueRef.String | src/issue-ref.go:16-18 | the result is the owner, `/`, the repository, `#`, then the number as `%d` writes it: a canonical numeral, with a minus sign only for a negative number, that `Atoi` reads back as the number |
| IssueRefs.IssueRef.Set | src/issue-ref.go:31-42 | returns nil exactly when the parse succeeds, the no-match error exactly when the pattern does not match, and panics exactly when the number overflows; the fields take the parsed values on success and are untouched otherwise |
| IssueRefs.IssueRef.SetChecked | src/issue-ref.go:36-39 | as `Set`, except that an overflowing number gives an error return and the method never panics |
| IssueRefs.RoundTrip | src/issue-ref.go:16-42 | parsing what `String` prints gives back the owner, repository and number whenever the owner and repository are names and the number is positive |
| IssueRefCases.ParsesTestReference | src/issue-ref_test.go:5-21 | `foo/bar#10` parses to owner `foo`, repository `bar`, number 10 |
| IssueRefCases.ParsesOtherSeparators | src/issue-ref.go:21-23 | any separators other than a newline are accepted: `foo.bar 7` parses like `foo/bar#7` |
| IssueRefCases.RejectsNonDigitEnd | src/issue-ref.go:23 | a text that is empty or does not end in a digit does not match |
| IssueRefCases.RejectsNonNumericNumber | src/issue-ref_test.go:23-27 | `foo/bar#bzr` gives the no-match error |
| IssueRefCases.RejectsZero | src/issue-ref.go:23 | a number written `0` after a non-digit does not match |
| IssueRefCases.LongestOwnerSplit | src/issue-ref.go:23 | `a-b-c-12` has a split after `a-b` and `c`, but the greatest split is after `a-b-` and `-` |
| IssueRefCases.PrefersLongestOwner | src/issue-ref.go:32-40 | `a-b-c-12` parses to owner `a-b-`, repository `-` and number 2, though another split exists |
| IssueRefCases.FormatsTestReference | src/issue-ref_test.go:30-39 | `String` of `kaction`, `opinion`, 42 is `kaction/opinion#42` |
| IssueRefCases.PanicsOnLargeNumber | src/issue-ref.go:36-39 | `foo/bar#` followed by any number above `MaxInt` matches the pattern, and `Set` then panics |
| IssueRefCases.NameCharSplit | src/issue-ref.go:23 | the greatest split of `foobar1` is after `foo` and `a` |
| IssueRefCases.AcceptsNameCharSeparators | src/issue-ref.go:21-23 | a text with no separator other than name characters still matches: `foobar1` parses to `foo`, `a`, 1 |

## Left out

- `main.go` is not part of this model. It registers the flag, treats
  `Number == 0` as "no reference given", prints a message and exits. It
  also prints the value with `%v`.
- `init()` compiles the pattern and panics if compilation fails. The
  pattern is a constant that compiles, so the model states the pattern as a
  grammar and leaves out the compilation.
- Only this one pattern is modelled, not Go's regular-expression engine. A
  character of the model is a Unicode scalar value. Go decodes the text as
  UTF-8, and invalid bytes are not modelled. Under Go's defaults, `.` does
  not match a newline and `$` means the end of the text; the model follows
  this.
- `int` is taken to be 64 bits wide (`MaxInt` is 2^63 - 1). On a 32-bit
  platform the bound would be 2^31 - 1.
- Strconv.Atoi: the two error kinds, syntax and range, are merged into
  `None`, because `Set` treats both alike. The text of `*NumError` is not
  modelled.
- The error value of `errors.New` is modelled as its message string.
- IssueRefs.RoundTrip: the lemma needs names for the owner and repository
  and a positive number. `String` also prints values that do not parse
  back to themselves, such as an empty owner or a number of 0 or below.
- The panic at src/issue-ref.go:38 is reachable: a numeral above `MaxInt`
  matches `[1-9][0-9]*`, and `Atoi` then fails
  (`IssueRefCases.PanicsOnLargeNumber`). The model keeps that behaviour in
  `Set`; see "## Findings".

## Findings

| source | as written | input that shows it | evidently intended | confidence | as-written member | corrected member |
|---|---|---|---|---|---|---|
| src/issue-ref.go:36-39 | panics whenever `Atoi` fails, with a message saying the pattern let a non-numeric number through; the pattern only admits digits, yet a numeral above `MaxInt` still makes `Atoi` fail with a range error | `foo/bar#9223372036854775808` | report a number that does not fit in an `int` as an error return, like a text that does not match | medium, not executed | IssueRefCases.PanicsOnLargeNumber | IssueRefs.IssueRef.SetChecked |
