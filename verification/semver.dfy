/**
 * `semver.valid(name)` of node-semver, as the branch filter uses it: the
 * version grammar of Semantic Versioning 2.0.0 (sections 2, 9 and 10) with
 * an optional leading `v`, at most 256 characters, and major, minor and
 * patch numbers no larger than `Number.MAX_SAFE_INTEGER`.
 */
module Semver {
  import opened Text

  const MaxLength := 256
  const MaxSafeInteger := 9007199254740991

  predicate IsAlphanumericOrHyphen(c: char) {
    IsDigit(c) || 'a' <= c <= 'z' || 'A' <= c <= 'Z' || c == '-'
  }

  /** A major, minor or patch number: a numeral without a leading zero, within the safe-integer range. */
  predicate VersionNumber(s: string) {
    Canonical(s) && DecimalValue(s) <= MaxSafeInteger
  }

  /** A pre-release identifier: a numeral without a leading zero, or alphanumerics and hyphens with a non-digit. */
  predicate PrereleaseIdentifier(s: string) {
    || Canonical(s)
    || (&& (forall i | 0 <= i < |s| :: IsAlphanumericOrHyphen(s[i]))
        && (exists i | 0 <= i < |s| :: !IsDigit(s[i])))
  }

  /** A build-metadata identifier: one or more alphanumerics and hyphens. */
  predicate BuildIdentifier(s: string) {
    |s| > 0 && forall i | 0 <= i < |s| :: IsAlphanumericOrHyphen(s[i])
  }

  predicate MainVersion(s: string) {
    var parts := Split(s, '.');
    |parts| == 3 && VersionNumber(parts[0]) && VersionNumber(parts[1]) && VersionNumber(parts[2])
  }

  predicate Prerelease(s: string) {
    var ids := Split(s, '.');
    forall i | 0 <= i < |ids| :: PrereleaseIdentifier(ids[i])
  }

  predicate Build(s: string) {
    var ids := Split(s, '.');
    forall i | 0 <= i < |ids| :: BuildIdentifier(ids[i])
  }

  /**
   * `MAJOR.MINOR.PATCH`, then optionally `-` and dot-separated pre-release
   * identifiers, then optionally `+` and dot-separated build identifiers.
   * The first `+` starts the build metadata and the first `-` before it starts
   * the pre-release part, since neither can occur earlier.
   */
  predicate Plain(s: string) {
    var head := if '+' in s then s[..FirstIndex(s, '+')] else s;
    var main := if '-' in head then head[..FirstIndex(head, '-')] else head;
    && MainVersion(main)
    && ('-' in head ==> Prerelease(head[FirstIndex(head, '-') + 1..]))
    && ('+' in s ==> Build(s[FirstIndex(s, '+') + 1..]))
  }

  /** `semver.valid(s)` returns a version (rather than null). */
  predicate Valid(s: string) {
    |s| <= MaxLength && Plain(if |s| > 0 && s[0] == 'v' then s[1..] else s)
  }

  /** `MAJOR.MINOR.PATCH` with each number written in decimal. */
  function Render(major: nat, minor: nat, patch: nat): string {
    Decimal(major) + "." + Decimal(minor) + "." + Decimal(patch)
  }

  lemma SplitAfterFirst(x: string, c: char, y: string)
    requires c !in x
    ensures Split(x + [c] + y, c) == [x] + Split(y, c)
  {
    var s := x + [c] + y;
    assert s[|x|] == c;
    assert s[..|x|] == x;
    assert s[|x| + 1..] == y;
  }

  lemma NoSeparatorInNumeral(n: nat)
    ensures '.' !in Decimal(n) && '-' !in Decimal(n) && '+' !in Decimal(n)
  {
  }

  /** Without `-` or `+`, a string is a plain version exactly when it is `MAJOR.MINOR.PATCH`. */
  lemma PlainWithoutSuffixes(s: string)
    requires '+' !in s && '-' !in s
    ensures Plain(s) == MainVersion(s)
  {
  }

  lemma {:induction false} RenderedMainVersion(major: nat, minor: nat, patch: nat)
    requires major <= MaxSafeInteger && minor <= MaxSafeInteger && patch <= MaxSafeInteger
    ensures MainVersion(Render(major, minor, patch))
  {
    var a, b, c := Decimal(major), Decimal(minor), Decimal(patch);
    NoSeparatorInNumeral(major);
    NoSeparatorInNumeral(minor);
    NoSeparatorInNumeral(patch);
    assert Render(major, minor, patch) == a + ['.'] + (b + ['.'] + c);
    SplitAfterFirst(a, '.', b + ['.'] + c);
    SplitAfterFirst(b, '.', c);
    assert Split(Render(major, minor, patch), '.') == [a, b, c];
    DecimalRoundTrip(major);
    DecimalRoundTrip(minor);
    DecimalRoundTrip(patch);
  }

  /** Every version number the grammar can hold, written out, passes the check, with or without the `v`. */
  lemma {:induction false} RenderedVersionIsValid(major: nat, minor: nat, patch: nat)
    requires major <= MaxSafeInteger && minor <= MaxSafeInteger && patch <= MaxSafeInteger
    requires |Render(major, minor, patch)| < MaxLength
    ensures Valid(Render(major, minor, patch))
    ensures Valid("v" + Render(major, minor, patch))
  {
    var s := Render(major, minor, patch);
    NoSeparatorInNumeral(major);
    NoSeparatorInNumeral(minor);
    NoSeparatorInNumeral(patch);
    assert '+' !in s && '-' !in s;
    PlainWithoutSuffixes(s);
    RenderedMainVersion(major, minor, patch);
    assert s[0] == Decimal(major)[0];
    assert ("v" + s)[1..] == s;
  }

  /** A name with no `.`, `-` or `+` is never a version: it cannot hold three numbers. */
  lemma NoDotIsNotAVersion(s: string)
    requires '.' !in s && '-' !in s && '+' !in s
    ensures !Valid(s)
  {
    var plain := if |s| > 0 && s[0] == 'v' then s[1..] else s;
    assert '.' !in plain && '-' !in plain && '+' !in plain;
    assert Split(plain, '.') == [plain];
  }

  /** `master` is not a version number, so the branch filter names it separately. */
  lemma MasterIsNotAVersion()
    ensures !Valid("master")
  {
    NoDotIsNotAVersion("master");
  }
}
