/**
  The `is_email` validator of user.py: a full match of
      \b[A-Za-z0-9._%+-]+@[A-Za-z0-9.-]+\.[A-Z|a-z]{2,}\b
  restated as a split of the string into a local part, `@`, a domain, a
  final `.` and a suffix, with the two word-boundary anchors. Inside the
  last class `|` is a literal character, so the suffix may contain it.
*/
module Email {
  import opened Strings

  predicate IsLetter(ch: char) { 'A' <= ch <= 'Z' || 'a' <= ch <= 'z' }

  predicate IsDigit(ch: char) { '0' <= ch <= '9' }

  /** `[A-Za-z0-9._%+-]` */
  predicate InLocalClass(ch: char)
  {
    IsLetter(ch) || IsDigit(ch) || ch == '.' || ch == '_' || ch == '%' || ch == '+' || ch == '-'
  }

  /** `[A-Za-z0-9.-]` */
  predicate InDomainClass(ch: char) { IsLetter(ch) || IsDigit(ch) || ch == '.' || ch == '-' }

  /** `[A-Z|a-z]` */
  predicate InSuffixClass(ch: char) { IsLetter(ch) || ch == '|' }

  /** `\w`, on the ASCII characters the classes above admit. */
  predicate IsWordChar(ch: char) { IsLetter(ch) || IsDigit(ch) || ch == '_' }

  /** `s[lo..hi]` is a non-empty run of `[A-Za-z0-9._%+-]`. */
  predicate LocalPart(s: string, lo: int, hi: int)
    requires 0 <= lo <= hi <= |s|
  {
    lo < hi && forall k :: lo <= k < hi ==> InLocalClass(s[k])
  }

  /** `s[lo..hi]` is a non-empty run of `[A-Za-z0-9.-]`. */
  predicate DomainPart(s: string, lo: int, hi: int)
    requires 0 <= lo <= hi <= |s|
  {
    lo < hi && forall k :: lo <= k < hi ==> InDomainClass(s[k])
  }

  /** `s[lo..hi]` is a run of at least two `[A-Z|a-z]`. */
  predicate SuffixPart(s: string, lo: int, hi: int)
    requires 0 <= lo <= hi <= |s|
  {
    lo + 2 <= hi && forall k :: lo <= k < hi ==> InSuffixClass(s[k])
  }

  /** The whole pattern matches `s` with its `@` at `at` and its `\.` at `dot`;
      `\b` at either end of a full match means the first and last characters
      are word characters. */
  predicate MatchesAt(s: string, at: int, dot: int)
  {
    && 0 <= at < dot < |s|
    && s[at] == '@'
    && s[dot] == '.'
    && LocalPart(s, 0, at)
    && DomainPart(s, at + 1, dot)
    && SuffixPart(s, dot + 1, |s|)
    && IsWordChar(s[0])
    && IsWordChar(s[|s| - 1])
  }

  /** `re.fullmatch` succeeds: some way of placing `@` and `\.` matches. */
  ghost predicate MatchesPattern(s: string)
  {
    exists at, dot :: MatchesAt(s, at, dot)
  }

  /** In any match, `@` is the first `@` of the string (the local part has
      none) and `\.` is the last `.` (the suffix has none). */
  lemma MatchPositionsAreCanonical(s: string, at: int, dot: int)
    requires MatchesAt(s, at, dot)
    ensures at == IndexOf(s, '@') && dot == LastIndexOf(s, '.')
  {
  }

  lemma MatchIsCanonical(s: string)
    ensures MatchesPattern(s) ==> MatchesAt(s, IndexOf(s, '@'), LastIndexOf(s, '.'))
  {
    if MatchesPattern(s) {
      var at, dot :| MatchesAt(s, at, dot);
      MatchPositionsAreCanonical(s, at, dot);
    }
  }

  /** The validator: checks the one candidate split, first `@` and last `.`. */
  function IsEmail(s: string): (b: bool)
    ensures b <==> MatchesPattern(s)
  {
    MatchIsCanonical(s);
    var at := IndexOf(s, '@');
    var dot := LastIndexOf(s, '.');
    at < |s| && MatchesAt(s, at, dot)
  }

  /** An accepted string has exactly one `@`, preceded by a non-empty local
      part over `[A-Za-z0-9._%+-]`. */
  lemma AcceptedHasOneAt(s: string)
    requires IsEmail(s)
    ensures var at := IndexOf(s, '@');
      && 1 <= at < |s|
      && LocalPart(s, 0, at)
      && forall k :: 0 <= k < |s| && s[k] == '@' ==> k == at
  {
    assert MatchesAt(s, IndexOf(s, '@'), LastIndexOf(s, '.'));
  }

  /** After the `@` of an accepted string come a non-empty domain over
      `[A-Za-z0-9.-]`, the string's last `.`, and at least two characters over
      `[A-Z|a-z]` running to the end. */
  lemma AcceptedDomainAndSuffix(s: string)
    requires IsEmail(s)
    ensures var at := IndexOf(s, '@');
      var dot := LastIndexOf(s, '.');
      && at < dot < |s|
      && DomainPart(s, at + 1, dot)
      && SuffixPart(s, dot + 1, |s|)
  {
    assert MatchesAt(s, IndexOf(s, '@'), LastIndexOf(s, '.'));
  }

  /** The `\b` anchors: an accepted string starts with a letter, digit or `_`
      and ends with a letter, so a leading `.` or `-` and a trailing `|` are
      rejected even though their classes admit them. */
  lemma AcceptedBoundaries(s: string)
    ensures IsEmail(s) ==> |s| >= 1 && (IsLetter(s[0]) || IsDigit(s[0]) || s[0] == '_') && IsLetter(s[|s| - 1])
    ensures |s| >= 1 && (s[0] == '.' || s[0] == '-') ==> !IsEmail(s)
    ensures |s| >= 1 && s[|s| - 1] == '|' ==> !IsEmail(s)
  {
    if IsEmail(s) {
      assert MatchesAt(s, IndexOf(s, '@'), LastIndexOf(s, '.'));
    }
  }

  /** An ordinary address is accepted. */
  lemma AcceptsOrdinaryAddress()
    ensures IsEmail("john.doe@example.com")
  {
    assert MatchesAt("john.doe@example.com", 8, 16);
  }

  /** `|` is a literal inside `[A-Z|a-z]`, so it may appear in the suffix as long as it is not last. */
  lemma AcceptsPipeInsideSuffix()
    ensures IsEmail("a_b@mail.c|m")
  {
    assert MatchesAt("a_b@mail.c|m", 3, 8);
  }

  /** A second `@` is rejected wherever it stands. */
  lemma RejectsSecondAt()
    ensures !IsEmail("a@b@example.com")
  {
    var s := "a@b@example.com";
    assert s[1] == '@' && s[3] == '@';
    if IsEmail(s) {
      AcceptedHasOneAt(s);
    }
  }
}
