/**
 * The record every AI path returns, `{content, title, status}`, the vendor outcome it is
 * derived from, and the first-sentence title rule of the providers.
 */
module AiResponse {
  import opened Text
  import opened Enums

  datatype AiResponse = AiResponse(content: string, title: string, status: ContentStatus)

  /** What a vendor call comes back with: the generated text, or an exception. */
  datatype VendorOutcome = Success(text: string) | Error(message: string)

  /** The record every `catch` returns. */
  const FailedResponse := AiResponse("", "", Failed)

  predicate IsTerminator(c: char) {
    c == '.' || c == '!' || c == '?'
  }

  /** `s.split(/[.!?]/)[0]`: the text before the first `.`, `!` or `?`. */
  function FirstSegment(s: string): (r: string)
    ensures |r| <= |s| && r == s[..|r|]
    ensures forall i :: 0 <= i < |r| ==> !IsTerminator(r[i])
    ensures |r| == |s| || IsTerminator(s[|r|])
  {
    if |s| == 0 || IsTerminator(s[0]) then "" else [s[0]] + FirstSegment(s[1..])
  }

  /** `s.substring(0, 50)`. */
  function Take50(s: string): (r: string)
    ensures |r| == if |s| < 50 then |s| else 50
    ensures r == s[..|r|]
  {
    if |s| < 50 then s else s[..50]
  }

  /** `content.split(/[.!?]/)[0]?.trim() || content.substring(0, 50)`. */
  function TitleRule(content: string): (r: string)
    ensures |r| <= |content|
    ensures content != "" ==> r != ""
  {
    var segment := Trim(FirstSegment(content));
    if segment != "" then segment else Take50(content)
  }

  /** The title is a piece of the content, empty only for empty content. A non-blank first
    * sentence is the title, trimmed and untruncated, free of terminators; otherwise the
    * title is the first 50 characters. */
  lemma TitleRuleSpec(content: string)
    ensures Contains(content, TitleRule(content))
    ensures TitleRule(content) == "" <==> content == ""
    ensures var seg := Trim(FirstSegment(content));
      seg != "" ==>
        && TitleRule(content) == seg && Trimmed(seg)
        && forall i :: 0 <= i < |seg| ==> !IsTerminator(seg[i])
    ensures Trim(FirstSegment(content)) == "" ==> TitleRule(content) == Take50(content)
  {
    if Trim(FirstSegment(content)) != "" {
      SentenceTitle(content);
    } else {
      var r := Take50(content);
      assert content[0..|r|] == r;
      assert OccursAt(content, r, 0);
    }
  }

  lemma SentenceTitle(content: string)
    requires Trim(FirstSegment(content)) != ""
    ensures var seg := Trim(FirstSegment(content));
      && Contains(content, seg) && Trimmed(seg)
      && forall k :: 0 <= k < |seg| ==> !IsTerminator(seg[k])
  {
    var f := FirstSegment(content);
    TrimmedSegment(f);
    ContainsInLonger(f, content, Trim(f));
  }

  /** Trimming a text free of terminators gives a trimmed piece of it, free of terminators. */
  lemma TrimmedSegment(f: string)
    requires forall k :: 0 <= k < |f| ==> !IsTerminator(f[k])
    ensures Contains(f, Trim(f)) && Trimmed(Trim(f))
    ensures forall k :: 0 <= k < |Trim(f)| ==> !IsTerminator(Trim(f)[k])
  {
    TrimIsContained(f);
    TrimSpec(f);
    SliceFreeOfTerminators(f, TrimOffset(f), Trim(f));
  }

  /** A slice of a text free of terminators is free of them too. */
  lemma SliceFreeOfTerminators(f: string, i: nat, seg: string)
    requires i + |seg| <= |f| && seg == f[i..i + |seg|]
    requires forall k :: 0 <= k < |f| ==> !IsTerminator(f[k])
    ensures forall k :: 0 <= k < |seg| ==> !IsTerminator(seg[k])
  {
    forall k | 0 <= k < |seg|
      ensures !IsTerminator(seg[k])
    {
      assert seg[k] == f[i + k];
    }
  }
}
