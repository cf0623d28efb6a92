/**
 * String primitives of the JavaScript runtime that the services rely on:
 * `String.prototype.trim`, `split(' ')` / `join(' ')`, `includes`,
 * `toLowerCase` on ASCII letters, and decimal rendering of numbers.
 * Strings are `seq<char>`, whose elements are Unicode scalar values: a character outside the
 * Basic Multilingual Plane is one element here and two UTF-16 code units in JavaScript.
 */
module Text {

  /** The characters JavaScript's `\s` and `trim` treat as white space
    * (WhiteSpace and LineTerminator of the language standard). */
  predicate IsSpace(c: char) {
    || c == '\t' || c == '\n' || c == '\U{000B}' || c == '\U{000C}' || c == '\r' || c == ' '
    || c == '\U{00A0}' || c == '\U{1680}' || ('\U{2000}' <= c <= '\U{200A}')
    || c == '\U{2028}' || c == '\U{2029}' || c == '\U{202F}' || c == '\U{205F}'
    || c == '\U{3000}' || c == '\U{FEFF}'
  }

  predicate AllSpace(s: string) {
    forall i :: 0 <= i < |s| ==> IsSpace(s[i])
  }

  /** `s` neither starts nor ends with white space. */
  predicate Trimmed(s: string) {
    |s| > 0 ==> !IsSpace(s[0]) && !IsSpace(s[|s| - 1])
  }

  function TrimStart(s: string): (r: string)
    ensures |r| <= |s| && r == s[|s| - |r|..]
    ensures AllSpace(s[..|s| - |r|])
    ensures |r| > 0 ==> !IsSpace(r[0])
  {
    if |s| > 0 && IsSpace(s[0]) then TrimStart(s[1..]) else s
  }

  function TrimEnd(s: string): (r: string)
    ensures |r| <= |s| && r == s[..|r|]
    ensures AllSpace(s[|r|..])
    ensures |r| > 0 ==> !IsSpace(r[|r| - 1])
  {
    if |s| > 0 && IsSpace(s[|s| - 1]) then TrimEnd(s[..|s| - 1]) else s
  }

  /** `String.prototype.trim`. */
  function Trim(s: string): string {
    TrimEnd(TrimStart(s))
  }

  /** Trim removes exactly a white-space prefix and a white-space suffix. */
  lemma TrimSpec(s: string)
    ensures Trimmed(Trim(s))
    ensures exists i, j :: 0 <= i <= j <= |s| && Trim(s) == s[i..j] && AllSpace(s[..i]) && AllSpace(s[j..])
  {
    var a := TrimStart(s);
    var b := TrimEnd(a);
    var i := |s| - |a|;
    var j := i + |b|;
    assert s[i..j] == b;
    if |b| > 0 {
      assert b[0] == a[0];
    }
  }

  /** Where the trimmed text starts inside the original. */
  function TrimOffset(s: string): (k: nat)
    ensures k <= |s| && k + |Trim(s)| <= |s|
    ensures Trim(s) == s[k..k + |Trim(s)|]
  {
    var a := TrimStart(s);
    assert Trim(s) == a[..|Trim(s)|];
    |s| - |a|
  }

  lemma {:induction false} TrimStartOfSpacePrefix(pre: string, body: string)
    requires AllSpace(pre)
    requires |body| > 0 && !IsSpace(body[0])
    ensures TrimStart(pre + body) == body
  {
    if |pre| > 0 {
      assert (pre + body)[1..] == pre[1..] + body;
      TrimStartOfSpacePrefix(pre[1..], body);
    } else {
      assert pre + body == body;
    }
  }

  lemma {:induction false} TrimEndOfSpaceSuffix(body: string, post: string)
    requires AllSpace(post)
    requires |body| > 0 && !IsSpace(body[|body| - 1])
    ensures TrimEnd(body + post) == body
  {
    if |post| > 0 {
      var q := post[..|post| - 1];
      assert (body + post)[..|body + post| - 1] == body + q;
      TrimEndOfSpaceSuffix(body, q);
    } else {
      assert body + post == body;
    }
  }

  /** Trimming a text that is padded by white space on both sides gives the text back. */
  lemma TrimOfPadded(pre: string, body: string, post: string)
    requires AllSpace(pre) && AllSpace(post)
    requires |body| > 0 && !IsSpace(body[0]) && !IsSpace(body[|body| - 1])
    ensures Trim(pre + body + post) == body
  {
    assert pre + body + post == pre + (body + post);
    TrimStartOfSpacePrefix(pre, body + post);
    TrimEndOfSpaceSuffix(body, post);
  }

  /** `haystack.includes(needle)`. */
  predicate Contains(haystack: string, needle: string) {
    exists i :: 0 <= i <= |haystack| - |needle| && OccursAt(haystack, needle, i)
  }

  predicate OccursAt(haystack: string, needle: string, i: int) {
    0 <= i <= |haystack| - |needle| && haystack[i..i + |needle|] == needle
  }

  /** A text occurs in any text built around it. */
  lemma ContainsMiddle(pre: string, needle: string, post: string)
    ensures Contains(pre + needle + post, needle)
  {
    var h := pre + needle + post;
    assert h[|pre|..|pre| + |needle|] == needle;
    assert OccursAt(h, needle, |pre|);
  }

  /** Two adjacent texts occur together in any text built around them. */
  lemma ContainsAdjacent(pre: string, x: string, y: string, post: string)
    ensures Contains(pre + x + y + post, x + y)
  {
    ContainsMiddle(pre, x + y, post);
    assert pre + x + y == pre + (x + y);
  }

  /** An occurrence survives adding text in front. */
  lemma ContainsAfterPrefix(pre: string, h: string, needle: string)
    requires Contains(h, needle)
    ensures Contains(pre + h, needle)
  {
    var i :| 0 <= i <= |h| - |needle| && OccursAt(h, needle, i);
    assert (pre + h)[|pre| + i..|pre| + i + |needle|] == h[i..i + |needle|];
    assert OccursAt(pre + h, needle, |pre| + i);
  }

  /** An occurrence survives adding text behind. */
  lemma ContainsBeforeSuffix(h: string, post: string, needle: string)
    requires Contains(h, needle)
    ensures Contains(h + post, needle)
  {
    var i :| 0 <= i <= |h| - |needle| && OccursAt(h, needle, i);
    assert (h + post)[i..i + |needle|] == h[i..i + |needle|];
    assert OccursAt(h + post, needle, i);
  }

  /** The trimmed text occurs in the original. */
  lemma TrimIsContained(s: string)
    ensures Contains(s, Trim(s))
  {
    assert OccursAt(s, Trim(s), TrimOffset(s));
  }

  /** An occurrence in a prefix is an occurrence in the whole. */
  lemma ContainsInLonger(prefix: string, s: string, needle: string)
    requires prefix <= s && Contains(prefix, needle)
    ensures Contains(s, needle)
  {
    ContainsBeforeSuffix(prefix, s[|prefix|..], needle);
    assert prefix + s[|prefix|..] == s;
  }

  /** A text framed by a first and a last piece that do not start or end with white space
    * comes back unchanged from trimming a newline before it and a newline and indentation after. */
  lemma TrimOfFramed(first: string, middle: string, last: string)
    requires |first| > 0 && !IsSpace(first[0])
    requires |last| > 0 && !IsSpace(last[|last| - 1])
    ensures Trim("\n" + (first + middle + last) + "\n  ") == first + middle + last
  {
    var body := first + middle + last;
    assert body[0] == first[0];
    assert body[|body| - 1] == last[|last| - 1];
    assert AllSpace("\n") && AllSpace("\n  ");
    TrimOfPadded("\n", body, "\n  ");
  }

  /** A word that neither starts nor ends with white space, found in a text padded with white
    * space, lies between the paddings. */
  lemma OccurrenceBetweenPaddings(s: string, p: nat, q: nat, w: string, i: nat)
    requires p <= q <= |s| && AllSpace(s[..p]) && AllSpace(s[q..])
    requires |w| > 0 && !IsSpace(w[0]) && !IsSpace(w[|w| - 1])
    requires OccursAt(s, w, i)
    ensures p <= i && i + |w| <= q
  {
    forall j | 0 <= j < p
      ensures IsSpace(s[j])
    {
      assert s[..p][j] == s[j];
    }
    forall j | q <= j < |s|
      ensures IsSpace(s[j])
    {
      assert s[q..][j - q] == s[j];
    }
    assert s[i] == w[0] by {
      assert s[i..i + |w|][0] == s[i];
    }
    assert s[i + |w| - 1] == w[|w| - 1] by {
      assert s[i..i + |w|][|w| - 1] == s[i + |w| - 1];
    }
  }

  /** An occurrence that lies inside a slice is an occurrence in that slice. */
  lemma OccursInSlice(s: string, p: nat, q: nat, w: string, i: nat)
    requires p <= i && i + |w| <= q <= |s| && OccursAt(s, w, i)
    ensures OccursAt(s[p..q], w, i - p)
  {
    var u := s[p..q][i - p..i - p + |w|];
    forall j | 0 <= j < |w|
      ensures u[j] == w[j]
    {
      assert u[j] == s[p..q][i - p + j] == s[i + j];
      assert w[j] == s[i..i + |w|][j];
    }
    assert u == w;
  }

  /** An occurrence in a slice of a text is an occurrence in the text. */
  lemma OccursInEnclosing(s: string, k: nat, t: string, w: string, i: nat)
    requires k + |t| <= |s| && t == s[k..k + |t|] && OccursAt(t, w, i)
    ensures OccursAt(s, w, k + i)
  {
    var u := s[k + i..k + i + |w|];
    forall j | 0 <= j < |w|
      ensures u[j] == w[j]
    {
      assert u[j] == s[k + i + j] == t[i + j];
      assert w[j] == t[i..i + |w|][j];
    }
    assert u == w;
  }

  /** An occurrence in the original of a word that neither starts nor ends with white space is
    * an occurrence in the trimmed text. */
  lemma OccurrenceSurvivesTrim(s: string, w: string, i: nat)
    requires |w| > 0 && !IsSpace(w[0]) && !IsSpace(w[|w| - 1])
    requires OccursAt(s, w, i)
    ensures Contains(Trim(s), w)
  {
    TrimSpec(s);
    var p, q :| 0 <= p <= q <= |s| && Trim(s) == s[p..q] && AllSpace(s[..p]) && AllSpace(s[q..]);
    OccurrenceBetweenPaddings(s, p, q, w, i);
    OccursInSlice(s, p, q, w, i);
  }

  /** Trimming does not change whether a word occurs, as long as the word neither starts nor
    * ends with white space. */
  lemma ContainsTrimmed(s: string, w: string)
    requires |w| > 0 && !IsSpace(w[0]) && !IsSpace(w[|w| - 1])
    ensures Contains(Trim(s), w) <==> Contains(s, w)
  {
    if Contains(Trim(s), w) {
      var t, k := Trim(s), TrimOffset(s);
      var i :| 0 <= i <= |t| - |w| && OccursAt(t, w, i);
      OccursInEnclosing(s, k, t, w, i);
    }
    if Contains(s, w) {
      var i :| 0 <= i <= |s| - |w| && OccursAt(s, w, i);
      OccurrenceSurvivesTrim(s, w, i);
    }
  }

  function LowerChar(c: char): char {
    if 'A' <= c <= 'Z' then (c as int + 32) as char else c
  }

  /** `toLowerCase`, restricted to the ASCII letters. */
  function AsciiLower(s: string): (r: string)
    ensures |r| == |s|
    ensures forall i :: 0 <= i < |s| ==> r[i] == LowerChar(s[i])
  {
    seq(|s|, i requires 0 <= i < |s| => LowerChar(s[i]))
  }

  function Digit(d: nat): char
    requires d < 10
  {
    "0123456789"[d]
  }

  predicate IsDigit(c: char) {
    '0' <= c <= '9'
  }

  function DigitValue(c: char): nat
    requires IsDigit(c)
  {
    c as int - '0' as int
  }

  /** Decimal rendering of a natural number, as template literals print it. */
  function NatToString(n: nat): (s: string)
    ensures |s| > 0 && forall i :: 0 <= i < |s| ==> IsDigit(s[i])
    ensures n >= 10 ==> s[0] != '0'
  {
    if n < 10 then [Digit(n)] else NatToString(n / 10) + [Digit(n % 10)]
  }

  /** The value of a string of decimal digits. */
  function DigitsValue(s: string): nat
    requires forall i :: 0 <= i < |s| ==> IsDigit(s[i])
  {
    if |s| == 0 then 0 else 10 * DigitsValue(s[..|s| - 1]) + DigitValue(s[|s| - 1])
  }

  /** Reading the rendered number back gives the number. */
  lemma {:induction false} NatToStringRoundTrip(n: nat)
    ensures DigitsValue(NatToString(n)) == n
  {
    if n >= 10 {
      var s := NatToString(n);
      assert s[..|s| - 1] == NatToString(n / 10);
      NatToStringRoundTrip(n / 10);
    }
  }

  /** Distinct numbers render as distinct strings. */
  lemma NatToStringInjective(m: nat, n: nat)
    requires NatToString(m) == NatToString(n)
    ensures m == n
  {
    NatToStringRoundTrip(m);
    NatToStringRoundTrip(n);
  }

  /** `s.split(sep)` for a one-character separator. */
  function Split(s: string, sep: char): (parts: seq<string>)
    ensures |parts| >= 1
  {
    if |s| == 0 then [""]
    else if s[0] == sep then [""] + Split(s[1..], sep)
    else var rest := Split(s[1..], sep); [[s[0]] + rest[0]] + rest[1..]
  }

  /** `parts.join(sep)`. */
  function Join(parts: seq<string>, sep: string): string {
    if |parts| == 0 then ""
    else if |parts| == 1 then parts[0]
    else parts[0] + sep + Join(parts[1..], sep)
  }

  /** The first piece opens the joined string. */
  lemma JoinStartsWith(parts: seq<string>, sep: string)
    requires |parts| > 0
    ensures parts[0] <= Join(parts, sep)
  {
  }

  /** Every piece occurs in the joined string. */
  lemma {:induction false} JoinContains(parts: seq<string>, sep: string, i: nat)
    requires i < |parts|
    ensures Contains(Join(parts, sep), parts[i])
  {
    var j := Join(parts, sep);
    if i == 0 {
      JoinStartsWith(parts, sep);
      assert j[0..|parts[0]|] == parts[0];
      assert OccursAt(j, parts[0], 0);
    } else {
      JoinContains(parts[1..], sep, i - 1);
      ContainsAfterPrefix(parts[0] + sep, Join(parts[1..], sep), parts[i]);
    }
  }

  /** Number of occurrences of `c` in `s`. */
  function Count(s: string, c: char): nat {
    if |s| == 0 then 0 else (if s[0] == c then 1 else 0) + Count(s[1..], c)
  }

  /** The part of `s` before the `n`-th occurrence of `sep`, or all of `s` when there are fewer. */
  function PrefixBeforeNth(s: string, sep: char, n: nat): string
    requires n >= 1
  {
    if |s| == 0 then ""
    else if s[0] == sep then (if n == 1 then "" else [sep] + PrefixBeforeNth(s[1..], sep, n - 1))
    else [s[0]] + PrefixBeforeNth(s[1..], sep, n)
  }

  lemma JoinPrependChar(c: char, p: string, ps: seq<string>, sep: string)
    ensures Join([[c] + p] + ps, sep) == [c] + Join([p] + ps, sep)
  {
    if |ps| > 0 {
      assert ([[c] + p] + ps)[1..] == ps;
      assert ([p] + ps)[1..] == ps;
    }
  }

  /** Keeping the first `n` pieces of a split and joining them again cuts the string
    * just before its `n`-th separator. */
  lemma {:induction false} JoinTakeSplit(s: string, sep: char, n: nat)
    requires n >= 1
    ensures var parts := Split(s, sep);
      Join(parts[..if n < |parts| then n else |parts|], [sep]) == PrefixBeforeNth(s, sep, n)
  {
    var parts := Split(s, sep);
    var k := if n < |parts| then n else |parts|;
    if |s| == 0 {
    } else if s[0] == sep {
      var rest := Split(s[1..], sep);
      assert parts == [""] + rest;
      if n == 1 {
        assert parts[..k] == [""];
      } else {
        var k' := if n - 1 < |rest| then n - 1 else |rest|;
        assert k == k' + 1;
        assert parts[..k] == [""] + rest[..k'];
        assert (parts[..k])[1..] == rest[..k'];
        JoinTakeSplit(s[1..], sep, n - 1);
      }
    } else {
      var rest := Split(s[1..], sep);
      var k' := if n < |rest| then n else |rest|;
      assert k == k';
      assert parts[..k] == [[s[0]] + rest[0]] + rest[1..k];
      JoinPrependChar(s[0], rest[0], rest[1..k], [sep]);
      assert [rest[0]] + rest[1..k] == rest[..k];
      JoinTakeSplit(s[1..], sep, n);
    }
  }

  /** What `PrefixBeforeNth` means: a prefix of `s` holding fewer than `n` separators that
    * either is all of `s` or stops at a separator. */
  lemma {:induction false} PrefixBeforeNthSpec(s: string, sep: char, n: nat)
    requires n >= 1
    ensures var p := PrefixBeforeNth(s, sep, n);
      && |p| <= |s| && p == s[..|p|]
      && Count(p, sep) < n
      && (|p| == |s| || (s[|p|] == sep && Count(p, sep) == n - 1))
  {
    var p := PrefixBeforeNth(s, sep, n);
    if |s| == 0 {
    } else if s[0] == sep {
      if n > 1 {
        PrefixBeforeNthSpec(s[1..], sep, n - 1);
        var q := PrefixBeforeNth(s[1..], sep, n - 1);
        assert p == [sep] + q;
        assert p[1..] == q;
      }
    } else {
      PrefixBeforeNthSpec(s[1..], sep, n);
      var q := PrefixBeforeNth(s[1..], sep, n);
      assert p == [s[0]] + q;
      assert p[1..] == q;
    }
  }

  /** Joining the pieces of a split gives the original string back. */
  lemma {:induction false} JoinSplit(s: string, sep: char)
    ensures Join(Split(s, sep), [sep]) == s
  {
    if |s| > 0 {
      var rest := Split(s[1..], sep);
      JoinSplit(s[1..], sep);
      if s[0] == sep {
        assert ([""] + rest)[1..] == rest;
      } else {
        JoinPrependChar(s[0], rest[0], rest[1..], [sep]);
        assert [rest[0]] + rest[1..] == rest;
      }
    }
  }
}
