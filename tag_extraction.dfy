/**
 * The style advisor's reply ends with a block such as `[TAGS: Undercut, Mullet]`.
 * The advice tab reads the suggested styles out of the first such block with
 * the regular expression `/\[TAGS:\s*(.*?)\]/`, then removes a block from the
 * shown text with `/\[TAGS:.*?\]/` and trims what is left.
 *
 * Both expressions are modelled as scans over the text, and the scans are
 * proved to find exactly the match a backtracking regular-expression engine
 * returns: the leftmost start, the greedy `\s*`, the lazy `.*?` (which never
 * crosses a line terminator).
 */
module TagExtraction {
  import opened Types
  import opened JsText

  const TagOpen: string := "[TAGS:"

  /** The literal `[TAGS:` starts at position p. */
  predicate OpensTagAt(text: string, p: nat) {
    p + |TagOpen| <= |text| && text[p..p + |TagOpen|] == TagOpen
  }

  // ---------------------------------------------------------------- the regular expressions, declaratively

  /** One way the expression can match at p: the opening literal, then (with
      `\s*`, when `skipSpace`) the whitespace text[p+6..c], then the capture
      text[c..k] of characters other than line terminators, then the `]` at k.
      Without `\s*` the capture starts right after the literal. */
  predicate MatchesAt(text: string, p: nat, c: nat, k: nat, skipSpace: bool) {
    && OpensTagAt(text, p)
    && p + |TagOpen| <= c <= k < |text|
    && (skipSpace || c == p + |TagOpen|)
    && (forall j :: p + |TagOpen| <= j < c ==> IsSpace(text[j]))
    && (forall j :: c <= j < k ==> !IsLineTerminator(text[j]))
    && text[k] == ']'
  }

  // ---------------------------------------------------------------- the scans

  /** `\s*` taken greedily from i: the end of the whitespace run. */
  function SpaceRunEnd(text: string, i: nat): (e: nat)
    requires i <= |text|
    ensures i <= e <= |text|
    ensures forall k :: i <= k < e ==> IsSpace(text[k])
    ensures e == |text| || !IsSpace(text[e])
    decreases |text| - i
  {
    if i < |text| && IsSpace(text[i]) then SpaceRunEnd(text, i + 1) else i
  }

  /** `.*?\]` from i: the first `]` at or after i, provided no line terminator
      comes before it; None when a line terminator or the end of the text
      comes first, in which case every later `]` has a line terminator
      between i and it. */
  function CloseOnLine(text: string, i: nat): (r: Option<nat>)
    requires i <= |text|
    ensures r.Some? ==> i <= r.value < |text| && text[r.value] == ']'
    ensures r.Some? ==> forall j :: i <= j < r.value ==> text[j] != ']' && !IsLineTerminator(text[j])
    ensures r.None? ==> forall k :: i <= k < |text| && text[k] == ']' ==>
      exists j :: i <= j < k && IsLineTerminator(text[j])
    decreases |text| - i
  {
    if i == |text| then None
    else if text[i] == ']' then Some(i)
    else if IsLineTerminator(text[i]) then None
    else CloseOnLine(text, i + 1)
  }

  /** A match: the block is text[start..close + 1], the capture text[capStart..close]. */
  datatype TagMatch = TagMatch(start: nat, capStart: nat, close: nat)

  /** The engine's attempt at position p. */
  function TagMatchAt(text: string, p: nat, skipSpace: bool): (m: Option<TagMatch>)
    requires p <= |text|
    ensures m.Some? ==> m.value.start == p && MatchesAt(text, p, m.value.capStart, m.value.close, skipSpace)
  {
    if !OpensTagAt(text, p) then None
    else
      var c := if skipSpace then SpaceRunEnd(text, p + |TagOpen|) else p + |TagOpen|;
      match CloseOnLine(text, c)
      case None => None
      case Some(k) => Some(TagMatch(p, c, k))
  }

  /** Scanning stops at the first position from `from` where the attempt
      succeeds; every earlier attempt failed. */
  function FirstTagMatch(text: string, from: nat, skipSpace: bool): (m: Option<TagMatch>)
    requires from <= |text|
    ensures m.Some? ==> from <= m.value.start <= |text| && TagMatchAt(text, m.value.start, skipSpace) == m
    ensures forall p :: from <= p <= |text| && (m.None? || p < m.value.start) ==>
      TagMatchAt(text, p, skipSpace).None?
    decreases |text| - from
  {
    if TagMatchAt(text, from, skipSpace).Some? then TagMatchAt(text, from, skipSpace)
    else if from == |text| then None
    else FirstTagMatch(text, from + 1, skipSpace)
  }

  // ---------------------------------------------------------------- the scans are the regular expressions

  /** Skipping characters that are neither `]` nor line terminators does not
      change where `.*?\]` closes. */
  lemma {:induction false} CloseOnLineSkip(text: string, i: nat, e: nat)
    requires i <= e <= |text|
    requires forall j :: i <= j < e ==> text[j] != ']' && !IsLineTerminator(text[j])
    ensures CloseOnLine(text, i) == CloseOnLine(text, e)
    decreases e - i
  {
    if i < e {
      CloseOnLineSkip(text, i + 1, e);
    }
  }

  /** The attempt at p succeeds exactly when the expression can match at p,
      and it returns the match the engine prefers: the longest whitespace run
      (greedy `\s*`, so backtracking into it never helps) and then the
      nearest `]` (lazy `.*?`). */
  lemma TagMatchAtIsRegexMatch(text: string, p: nat, skipSpace: bool)
    requires p <= |text|
    ensures TagMatchAt(text, p, skipSpace).Some? <==> exists c: nat, k: nat :: MatchesAt(text, p, c, k, skipSpace)
    ensures TagMatchAt(text, p, skipSpace).Some? ==>
      var m := TagMatchAt(text, p, skipSpace).value;
      && (forall c: nat, k: nat :: MatchesAt(text, p, c, k, skipSpace) ==> c <= m.capStart)
      && (forall k: nat :: MatchesAt(text, p, m.capStart, k, skipSpace) ==> m.close <= k)
  {
    var q := p + |TagOpen|;
    if OpensTagAt(text, p) {
      var e := if skipSpace then SpaceRunEnd(text, q) else q;
      forall c: nat, k: nat | MatchesAt(text, p, c, k, skipSpace)
        ensures c <= e && CloseOnLine(text, e).Some?
      {
      }
    }
  }

  /** The first match of the expression is the leftmost one, and there is
      none exactly when the expression matches nowhere. */
  lemma FirstTagMatchIsLeftmost(text: string, skipSpace: bool)
    ensures FirstTagMatch(text, 0, skipSpace).None? <==>
      forall p: nat, c: nat, k: nat :: !MatchesAt(text, p, c, k, skipSpace)
    ensures FirstTagMatch(text, 0, skipSpace).Some? ==>
      var m := FirstTagMatch(text, 0, skipSpace).value;
      && MatchesAt(text, m.start, m.capStart, m.close, skipSpace)
      && forall p: nat, c: nat, k: nat :: MatchesAt(text, p, c, k, skipSpace) ==> m.start <= p
  {
    var m := FirstTagMatch(text, 0, skipSpace);
    forall p: nat, c: nat, k: nat | MatchesAt(text, p, c, k, skipSpace)
      ensures m.Some? && m.value.start <= p
    {
      TagMatchAtIsRegexMatch(text, p, skipSpace);
    }
  }

  /** Where the plain expression matches, the one with `\s*` matches too
      (with an empty or longer whitespace run and the same `]`). */
  lemma PlainMatchImpliesSpaced(text: string, p: nat)
    requires p <= |text|
    requires TagMatchAt(text, p, false).Some?
    ensures TagMatchAt(text, p, true).Some?
    ensures TagMatchAt(text, p, true).value.close == TagMatchAt(text, p, false).value.close
  {
    var q := p + |TagOpen|;
    var e := SpaceRunEnd(text, q);
    CloseOnLineSkip(text, q, e);
  }

  // ---------------------------------------------------------------- tags

  /** `capture.split(',').map(t => t.trim())`: one tag per comma-free piece
      of the capture, the pieces joining back to the capture; a tag is its
      piece without surrounding whitespace, so there is one more tag than
      there are commas. */
  function TagsOf(capture: string): (tags: seq<string>)
    ensures |tags| == Occurrences(capture, ',') + 1
  {
    var pieces := Split(capture, ',');
    seq(|pieces|, i requires 0 <= i < |pieces| => Trim(pieces[i]))
  }

  /** The tags are comma-free and carry no whitespace at either end, and
      they are the trimmed pieces of a comma-separated reading of the
      capture. */
  lemma TagsAreTrimmedPieces(capture: string)
    ensures var tags := TagsOf(capture);
      && (forall i :: 0 <= i < |tags| ==> ',' !in tags[i])
      && (forall i :: 0 <= i < |tags| ==> tags[i] == [] || (!IsSpace(tags[i][0]) && !IsSpace(tags[i][|tags[i]| - 1])))
      && exists pieces: seq<string> ::
        && pieces != [] && Join(pieces, ',') == capture && |pieces| == |tags|
        && forall i :: 0 <= i < |pieces| ==> ',' !in pieces[i] && tags[i] == Trim(pieces[i])
  {
    var pieces := Split(capture, ',');
    JoinSplit(capture, ',');
    var tags := TagsOf(capture);
    forall i | 0 <= i < |tags| ensures ',' !in tags[i] {
      TrimIsSlice(pieces[i]);
    }
  }

  // ---------------------------------------------------------------- the advice shown

  /** What the advice tab ends up with: the suggested styles, when a block
      with a non-empty capture was found (otherwise the suggestions keep the
      empty list the request reset them to), and the text shown. */
  datatype Advice = Advice(tags: Option<seq<string>>, recommendation: string)

  /** The text with the block text[start..close + 1] cut out. */
  function Without(text: string, start: nat, close: nat): string
    requires start <= close < |text|
  {
    text[..start] + text[close + 1..]
  }

  /** The advice tab as the source has it: tags from the `\s*` expression,
      removal by the plain expression, which may find a different block or
      none at all. The tags are those of the corrected reading. */
  function AdviceAsWritten(text: string): (r: Advice)
    ensures r.tags == ExtractAdvice(text).tags
    ensures r.tags.None? ==> r.recommendation == text
  {
    match FirstTagMatch(text, 0, true)
    case Some(m) =>
      if m.capStart < m.close then
        var removed :=
          match FirstTagMatch(text, 0, false)
          case None => text
          case Some(b) => Without(text, b.start, b.close);
        Advice(Some(TagsOf(text[m.capStart..m.close])), Trim(removed))
      else Advice(None, text)
    case None => Advice(None, text)
  }

  /** The advice tab with the block the tags were read from removed. When
      tags are found, they come from a match of the expression with a
      non-empty capture, and the text shown is the reply without exactly
      that block, trimmed; otherwise the reply is shown unchanged. */
  function ExtractAdvice(text: string): (r: Advice)
    ensures r.tags.None? ==> r.recommendation == text
  {
    match FirstTagMatch(text, 0, true)
    case Some(m) =>
      if m.capStart < m.close then
        Advice(Some(TagsOf(text[m.capStart..m.close])), Trim(Without(text, m.start, m.close)))
      else Advice(None, text)
    case None => Advice(None, text)
  }

  /** Suggested styles come from a match of the expression with a non-empty
      capture, and the text shown is the reply without exactly that block,
      trimmed. */
  lemma AdviceFromMatch(text: string)
    requires ExtractAdvice(text).tags.Some?
    ensures var r := ExtractAdvice(text);
      exists p: nat, c: nat, k: nat ::
        && MatchesAt(text, p, c, k, true) && c < k
        && r.tags.value == TagsOf(text[c..k])
        && r.recommendation == Trim(Without(text, p, k))
  {
    FirstTagMatchIsLeftmost(text, true);
  }

  /** The advice for a reply, read off the leftmost match of the expression
      in the engine's preferred form: styles from a non-empty capture and
      the reply without that block, or, for an empty capture, the reply as
      it is. */
  lemma AdviceOfLeftmostBlock(text: string, p: nat, c: nat, k: nat)
    requires MatchesAt(text, p, c, k, true)
    requires forall p': nat, c': nat, k': nat :: MatchesAt(text, p', c', k', true) ==> p <= p'
    requires !IsSpace(text[c])
    requires forall j :: c <= j < k ==> text[j] != ']'
    ensures c < k ==> ExtractAdvice(text) == Advice(Some(TagsOf(text[c..k])), Trim(Without(text, p, k)))
    ensures c == k ==> ExtractAdvice(text) == Advice(None, text)
  {
    FirstTagMatchIsLeftmost(text, true);
    var m := FirstTagMatch(text, 0, true).value;
    assert m.start == p;
    TagMatchAtIsRegexMatch(text, p, true);
    assert m.capStart == c;
    assert m.close == k;
  }

  /** A reply in which the expression matches nowhere is shown unchanged and
      suggests nothing. */
  lemma AdviceWithoutBlock(text: string)
    requires forall p: nat, c: nat, k: nat :: !MatchesAt(text, p, c, k, true)
    ensures ExtractAdvice(text) == Advice(None, text)
  {
    FirstTagMatchIsLeftmost(text, true);
  }

  /** When the whitespace after `[TAGS:` holds no line terminator, both
      expressions find the same block and the source's advice is the
      corrected one. */
  lemma AsWrittenAgreesOnOneLine(text: string)
    requires FirstTagMatch(text, 0, true).Some?
    requires var m := FirstTagMatch(text, 0, true).value;
      forall j :: m.start + |TagOpen| <= j < m.capStart ==> !IsLineTerminator(text[j])
    ensures AdviceAsWritten(text) == ExtractAdvice(text)
  {
    var m := FirstTagMatch(text, 0, true).value;
    var q := m.start + |TagOpen|;
    CloseOnLineSkip(text, q, m.capStart);
    assert TagMatchAt(text, m.start, false) == Some(TagMatch(m.start, q, m.close));
    var b := FirstTagMatch(text, 0, false);
    assert b.Some?;
    if b.value.start < m.start {
      PlainMatchImpliesSpaced(text, b.value.start);
    }
    assert b.value.start == m.start;
  }

  /** The reply `[TAGS:` newline `Buzz Cut]`. */
  const NewlineReply: string := "[TAGS:\nBuzz Cut]"

  /** In that reply `\s*` crosses the line break and the capture is `Buzz Cut`. */
  lemma NewlineReplySpacedMatch()
    ensures FirstTagMatch(NewlineReply, 0, true) == Some(TagMatch(0, 7, 15))
    ensures NewlineReply[7..15] == "Buzz Cut"
  {
    var t := NewlineReply;
    assert OpensTagAt(t, 0);
    assert IsSpace(t[6]) && !IsSpace(t[7]);
    assert SpaceRunEnd(t, 6) == 7;
    assert t[15] == ']';
    assert forall j :: 7 <= j < 15 ==> t[j] != ']' && !IsLineTerminator(t[j]);
    assert CloseOnLine(t, 7) == Some(15);
  }

  /** The plain expression's `.` stops at the line break, and no other `[`
      opens a block, so it matches nowhere in that reply. */
  lemma NewlineReplyPlainNone()
    ensures FirstTagMatch(NewlineReply, 0, false).None?
  {
    var t := NewlineReply;
    assert t[6] == '\n';
    assert CloseOnLine(t, 6).None?;
    assert forall j :: 1 <= j < |t| ==> t[j] != '[';
    forall p | 0 <= p <= |t| ensures !OpensTagAt(t, p) || p == 0 {
      if 0 < p <= |t| - 6 {
        assert t[p..p + 6][0] == t[p] != '[';
      }
    }
  }

  /** As written, the line break after `[TAGS:` lets `\s*` read the tag
      `Buzz Cut`, but the plain expression's `.` cannot cross it, so the
      block stays in the text shown. The corrected reading shows nothing. */
  lemma AsWrittenKeepsBlock()
    ensures AdviceAsWritten(NewlineReply).tags == Some(TagsOf("Buzz Cut"))
    ensures AdviceAsWritten(NewlineReply).recommendation == Trim(NewlineReply)
    ensures ExtractAdvice(NewlineReply) == Advice(Some(TagsOf("Buzz Cut")), "")
  {
    NewlineReplySpacedMatch();
    NewlineReplyPlainNone();
    assert Without(NewlineReply, 0, 15) == "";
  }

  /** Corrected: whenever styles are suggested, they are read from the
      leftmost block the expression matches, and exactly that block is cut
      out of the text shown. */
  lemma ExtractedBlockIsGone(text: string)
    requires ExtractAdvice(text).tags.Some?
    ensures exists p: nat, c: nat, k: nat ::
      && MatchesAt(text, p, c, k, true)
      && (forall p': nat, c': nat, k': nat :: MatchesAt(text, p', c', k', true) ==> p <= p')
      && ExtractAdvice(text).tags.value == TagsOf(text[c..k])
      && ExtractAdvice(text).recommendation == Trim(text[..p] + text[k + 1..])
  {
    FirstTagMatchIsLeftmost(text, true);
    var m := FirstTagMatch(text, 0, true).value;
    assert MatchesAt(text, m.start, m.capStart, m.close, true);
  }
}
