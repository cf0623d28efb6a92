/** The e-mail and password checks of custom.validator.ts. */
module CustomValidator {
  import opened Text
  import opened Js

  /** A character of the class `[^\s@]`. */
  predicate EmailChar(c: char) {
    !IsSpace(c) && c != '@'
  }

  /** A non-empty run of `[^\s@]`. */
  predicate EmailRun(s: string) {
    |s| > 0 && forall k :: 0 <= k < |s| ==> EmailChar(s[k])
  }

  /** `s` is `local@domain.tld` with the three runs split at `at` and `dot`. */
  predicate EmailSplitAt(s: string, at: int, dot: int) {
    && 0 <= at < dot < |s|
    && s[at] == '@' && s[dot] == '.'
    && EmailRun(s[..at]) && EmailRun(s[at + 1..dot]) && EmailRun(s[dot + 1..])
  }

  /** The language of the pattern `^[^\s@]+@[^\s@]+\.[^\s@]+$`. */
  ghost predicate MatchesEmailPattern(s: string) {
    exists at, dot :: EmailSplitAt(s, at, dot)
  }

  /** Index of the first `c` in `s`. */
  function IndexOf(s: string, c: char): (i: nat)
    requires c in s
    ensures i < |s| && s[i] == c && c !in s[..i]
  {
    if s[0] == c then 0 else 1 + IndexOf(s[1..], c)
  }

  /** The domain has a `.` with at least one character on each side. */
  predicate HasInnerDot(d: string) {
    exists j :: 0 < j < |d| - 1 && d[j] == '.'
  }

  /** `validateEmail`, stated the way the pattern reads: one `@` with a non-empty local part
    * before it, no white space, and a domain after it holding an inner dot. */
  function ValidateEmail(s: string): (ok: bool)
    ensures ok ==> 5 <= |s| && s[0] != '@'
  {
    && '@' in s
    && (forall k :: 0 <= k < |s| ==> !IsSpace(s[k]))
    && var at := IndexOf(s, '@');
       && at > 0
       && '@' !in s[at + 1..]
       && HasInnerDot(s[at + 1..])
  }

  /** A slice of a string free of white space and `@` is a run of `[^\s@]`. */
  lemma SliceIsRun(s: string, lo: int, hi: int)
    requires 0 <= lo < hi <= |s|
    requires forall k :: lo <= k < hi ==> EmailChar(s[k])
    ensures EmailRun(s[lo..hi])
  {
    var t := s[lo..hi];
    forall k | 0 <= k < |t|
      ensures EmailChar(t[k])
    {
      assert t[k] == s[lo + k];
    }
  }

  lemma ValidEmailMatches(s: string)
    requires ValidateEmail(s)
    ensures MatchesEmailPattern(s)
  {
    var at := IndexOf(s, '@');
    var d := s[at + 1..];
    var j :| 0 < j < |d| - 1 && d[j] == '.';
    var dot := at + 1 + j;
    forall k | 0 <= k < |s| && k != at
      ensures EmailChar(s[k])
    {
      if k < at {
        assert s[k] == s[..at][k];
      } else {
        assert s[k] == d[k - at - 1];
      }
    }
    SliceIsRun(s, 0, at);
    SliceIsRun(s, at + 1, dot);
    SliceIsRun(s, dot + 1, |s|);
    assert s[0..at] == s[..at];
    assert EmailSplitAt(s, at, dot);
  }

  lemma MatchesIsValidEmail(s: string, at: int, dot: int)
    requires EmailSplitAt(s, at, dot)
    ensures ValidateEmail(s)
  {
    var l, m, r := s[..at], s[at + 1..dot], s[dot + 1..];
    forall k | 0 <= k < |s| && k != at && k != dot
      ensures EmailChar(s[k])
    {
      if k < at {
        assert s[k] == l[k];
      } else if k < dot {
        assert s[k] == m[k - at - 1];
      } else {
        assert s[k] == r[k - dot - 1];
      }
    }
    assert '@' in s;
    var i := IndexOf(s, '@');
    assert i == at;
    var d := s[at + 1..];
    assert '@' !in d by {
      forall k | 0 <= k < |d|
        ensures d[k] != '@'
      {
        assert d[k] == s[at + 1 + k];
      }
    }
    assert d[dot - at - 1] == '.';
  }

  /** The check accepts exactly the strings the pattern matches. */
  lemma ValidateEmailMatchesPattern(s: string)
    ensures ValidateEmail(s) <==> MatchesEmailPattern(s)
  {
    if ValidateEmail(s) {
      ValidEmailMatches(s);
    }
    if MatchesEmailPattern(s) {
      var at, dot :| EmailSplitAt(s, at, dot);
      MatchesIsValidEmail(s, at, dot);
    }
  }

  predicate IsAsciiLetter(c: char) {
    'a' <= c <= 'z' || 'A' <= c <= 'Z'
  }

  /** `/[a-zA-Z]/.test(s)`. */
  predicate HasLetter(s: string) {
    exists i :: 0 <= i < |s| && IsAsciiLetter(s[i])
  }

  /** `/[0-9]/.test(s)`. */
  predicate HasDigit(s: string) {
    exists i :: 0 <= i < |s| && IsDigit(s[i])
  }

  /** `validatePassword`: at least six characters, one ASCII letter and one digit; no upper bound. */
  function ValidatePassword(p: string): (ok: bool)
    ensures ok ==> |p| >= 6
  {
    if |p| < 6 then false
    else HasLetter(p) && HasDigit(p)
  }

  /** Appending characters to a valid password keeps it valid. */
  lemma ValidPasswordExtends(p: string, q: string)
    requires ValidatePassword(p)
    ensures ValidatePassword(p + q)
  {
    var i :| 0 <= i < |p| && IsAsciiLetter(p[i]);
    var j :| 0 <= j < |p| && IsDigit(p[j]);
    assert (p + q)[i] == p[i] && (p + q)[j] == p[j];
  }

  /** The decorator's `validate`: non-strings are rejected before the password check. */
  function IsPasswordValid(value: JsValue): (ok: bool)
    ensures ok <==> value.Str? && ValidatePassword(value.s)
  {
    match value
    case Str(s) => ValidatePassword(s)
    case _ => false
  }
}
