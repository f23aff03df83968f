/** Character searches and Python's `str.split(sep)` over Dafny strings. */
module Strings {

  /** Position of the first `ch` in `s`, or `|s|` when there is none. */
  function IndexOf(s: string, ch: char): (k: nat)
    ensures k <= |s|
    ensures k < |s| ==> s[k] == ch
    ensures forall j :: 0 <= j < k ==> s[j] != ch
    decreases |s|
  {
    if |s| == 0 then 0
    else if s[0] == ch then 0
    else 1 + IndexOf(s[1..], ch)
  }

  /** Position of the last `ch` in `s`, or -1 when there is none. */
  function LastIndexOf(s: string, ch: char): (k: int)
    ensures -1 <= k < |s|
    ensures 0 <= k ==> s[k] == ch
    ensures forall j :: k < j < |s| ==> s[j] != ch
    decreases |s|
  {
    if |s| == 0 then -1
    else if s[|s| - 1] == ch then |s| - 1
    else LastIndexOf(s[..|s| - 1], ch)
  }

  /** Python's `s.split(sep)` with an explicit one-character separator:
      every occurrence of `sep` cuts, so adjacent separators give empty pieces
      and the result is never empty. */
  function Split(s: string, sep: char): (parts: seq<string>)
    ensures |parts| >= 1
    ensures forall i :: 0 <= i < |parts| ==> sep !in parts[i]
    decreases |s|
  {
    var k := IndexOf(s, sep);
    if k == |s| then [s] else [s[..k]] + Split(s[k + 1..], sep)
  }

  /** Python's `sep.join(parts)`. */
  function Join(parts: seq<string>, sep: char): string
    requires |parts| >= 1
    decreases |parts|
  {
    if |parts| == 1 then parts[0] else parts[0] + [sep] + Join(parts[1..], sep)
  }

  /** Splitting and re-joining on the same separator gives back the original string. */
  lemma {:induction false} JoinSplit(s: string, sep: char)
    ensures Join(Split(s, sep), sep) == s
    decreases |s|
  {
    var k := IndexOf(s, sep);
    if k < |s| {
      JoinSplit(s[k + 1..], sep);
      assert s == s[..k] + [sep] + s[k + 1..];
    }
  }

  /** The text after the last `sep`, or all of `s` when it has none. */
  function AfterLast(s: string, sep: char): (t: string)
    ensures sep !in t
  {
    s[LastIndexOf(s, sep) + 1..]
  }

  /** LastIndexOf is the only position with its contract. */
  lemma LastIndexOfUnique(s: string, sep: char, m: int)
    requires -1 <= m < |s|
    requires 0 <= m ==> s[m] == sep
    requires forall j :: m < j < |s| ==> s[j] != sep
    ensures m == LastIndexOf(s, sep)
  {
  }

  /** Cutting at the first separator does not change what follows the last one. */
  lemma AfterLastOfRest(s: string, sep: char, k: nat)
    requires k < |s| && s[k] == sep
    ensures AfterLast(s, sep) == AfterLast(s[k + 1..], sep)
  {
    var rest := s[k + 1..];
    var b := LastIndexOf(rest, sep);
    var m := if b >= 0 then k + 1 + b else k;
    forall j | m < j < |s|
      ensures s[j] != sep
    {
      assert s[j] == rest[j - k - 1];
    }
    LastIndexOfUnique(s, sep, m);
    assert s[m + 1..] == rest[b + 1..];
  }

  /** `s.split(sep)[-1]` is exactly the text after the last separator. */
  lemma {:induction false} LastPieceIsAfterLast(s: string, sep: char)
    ensures var parts := Split(s, sep); parts[|parts| - 1] == AfterLast(s, sep)
    decreases |s|
  {
    var k := IndexOf(s, sep);
    if k < |s| {
      var rest := s[k + 1..];
      var tail := Split(rest, sep);
      assert Split(s, sep) == [s[..k]] + tail;
      LastPieceIsAfterLast(rest, sep);
      AfterLastOfRest(s, sep, k);
    } else {
      LastIndexOfUnique(s, sep, -1);
    }
  }
}
