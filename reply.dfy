/** How the service's reply is cut down to the JSON document before it is
    parsed: the reply is stripped, the text inside a "```json" fence (or,
    failing that, a plain "```" fence) is taken, and that is stripped again. */
module ReplyText {
  import opened Text

  const FENCE: string := "```"
  const JSON_FENCE: string := "```json"

  /** The text contains no backtick at all. */
  predicate NoBacktick(s: string)
  {
    forall k :: 0 <= k < |s| ==> s[k] != '`'
  }

  /** The fence extraction exactly as the profile code writes it.  An
      unclosed "```json" fence makes the closing `find` return -1, which the
      slice reads as "up to the last character"; a single plain fence makes
      `rfind` return the opening fence itself, so the slice is empty. */
  function ExtractJsonAsWritten(text: string): (r: string)
    ensures |r| <= |text|
    ensures !Contains(text, FENCE) ==> r == text
  {
    JsonFenceHasFence(text);
    if Contains(text, JSON_FENCE) then
      var start := Find(text, JSON_FENCE, 0) + |JSON_FENCE|;
      PySlice(text, start, Find(text, FENCE, start))
    else if Contains(text, FENCE) then
      var start := Find(text, FENCE, 0) + |FENCE|;
      PySlice(text, start, RFind(text, FENCE))
    else
      text
  }

  /** The fence extraction as evidently intended: the text after the opening
      fence up to the closing fence, or to the end of the text when there is
      no closing fence. */
  function ExtractJson(text: string): (r: string)
    ensures |r| <= |text|
    ensures !Contains(text, FENCE) ==> r == text
  {
    JsonFenceHasFence(text);
    if Contains(text, JSON_FENCE) then
      var start := Find(text, JSON_FENCE, 0) + |JSON_FENCE|;
      var end := Find(text, FENCE, start);
      if end == -1 then text[start..] else text[start..end]
    else if Contains(text, FENCE) then
      var start := Find(text, FENCE, 0) + |FENCE|;
      var end := RFind(text, FENCE);
      if end < start then text[start..] else text[start..end]
    else
      text
  }

  /** The reply as the profile code hands it to the JSON parser: stripped,
      cut down by the extraction as written, stripped again. */
  function CleanReplyAsWritten(raw: string): string
  {
    Strip(ExtractJsonAsWritten(Strip(raw)))
  }

  /** The same cleaning with the corrected extraction. */
  function CleanReplyCorrected(raw: string): string
  {
    Strip(ExtractJson(Strip(raw)))
  }

  /** A "```json" fence is also a plain fence. */
  lemma JsonFenceHasFence(text: string)
    ensures Contains(text, JSON_FENCE) ==> Contains(text, FENCE)
  {
    if Contains(text, JSON_FENCE) {
      var i: nat :| i <= |text| && OccursAt(text, JSON_FENCE, i);
      assert text[i..i + 3] == text[i..i + 7][..3];
      assert OccursAt(text, FENCE, i);
    }
  }

  /** An occurrence of `pat` at j fixes the character at j + d. */
  lemma OccursAtChar(text: string, pat: string, j: nat, d: nat)
    requires d < |pat|
    ensures OccursAt(text, pat, j) ==> j + d < |text| && text[j + d] == pat[d]
  {
    if OccursAt(text, pat, j) {
      assert text[j..j + |pat|][d] == text[j + d];
    }
  }

  /** No fence starts on a character that is not a backtick. */
  lemma NoFenceBelow(text: string, pat: string, lo: nat, hi: nat)
    requires |pat| > 0 && pat[0] == '`'
    requires hi <= |text| && forall k :: lo <= k < hi ==> text[k] != '`'
    ensures forall j: nat :: lo <= j < hi ==> !OccursAt(text, pat, j)
  {
    forall j: nat | lo <= j < hi
      ensures !OccursAt(text, pat, j)
    {
      OccursAtChar(text, pat, j, 0);
    }
  }

  /** Past the last backtick no fence starts. */
  lemma NoFenceFrom(text: string, pat: string, lo: nat)
    requires |pat| > 0 && pat[0] == '`'
    requires forall k :: lo <= k < |text| ==> text[k] != '`'
    ensures forall j: nat :: lo <= j ==> !OccursAt(text, pat, j)
  {
    forall j: nat | lo <= j
      ensures !OccursAt(text, pat, j)
    {
      OccursAtChar(text, pat, j, 0);
    }
  }

  /** `find` returns the first occurrence at or after `start`. */
  lemma FindIs(text: string, pat: string, start: nat, p: nat)
    requires start <= p && OccursAt(text, pat, p)
    requires forall j: nat :: start <= j < p ==> !OccursAt(text, pat, j)
    ensures Find(text, pat, start) == p
  {
  }

  /** Where the opening "```json" fence of pre + "```json" + rest is found. */
  lemma OpeningJsonFence(pre: string, rest: string)
    requires NoBacktick(pre)
    ensures Contains(pre + JSON_FENCE + rest, JSON_FENCE)
    ensures Find(pre + JSON_FENCE + rest, JSON_FENCE, 0) == |pre|
  {
    var text := pre + JSON_FENCE + rest;
    assert text[|pre|..|pre| + 7] == JSON_FENCE;
    assert OccursAt(text, JSON_FENCE, |pre|);
    NoFenceBelow(text, JSON_FENCE, 0, |pre|);
    FindIs(text, JSON_FENCE, 0, |pre|);
  }

  /** A reply with a closed "```json" fence around a body without backticks:
      both versions return the body. */
  lemma JsonFenceRoundTrip(pre: string, body: string, post: string)
    requires NoBacktick(pre) && NoBacktick(body)
    ensures ExtractJsonAsWritten(pre + JSON_FENCE + body + FENCE + post) == body
    ensures ExtractJson(pre + JSON_FENCE + body + FENCE + post) == body
  {
    var text := pre + JSON_FENCE + body + FENCE + post;
    JsonFenceOpens(pre, body, post);
    JsonFenceCloses(pre, body, post);
    MiddlePiece(pre + JSON_FENCE, body, FENCE + post);
    Regroup(pre, JSON_FENCE, body, FENCE, post);
    PySliceInPythonTerms(text, |pre| + 7, |pre| + 7 + |body|);
  }

  lemma JsonFenceOpens(pre: string, body: string, post: string)
    requires NoBacktick(pre)
    ensures Contains(pre + JSON_FENCE + body + FENCE + post, JSON_FENCE)
    ensures Find(pre + JSON_FENCE + body + FENCE + post, JSON_FENCE, 0) == |pre|
  {
    Regroup(pre, JSON_FENCE, body, FENCE, post);
    OpeningJsonFence(pre, body + FENCE + post);
  }

  lemma JsonFenceCloses(pre: string, body: string, post: string)
    requires NoBacktick(body)
    ensures Find(pre + JSON_FENCE + body + FENCE + post, FENCE, |pre| + 7) == |pre| + 7 + |body|
  {
    var text := pre + JSON_FENCE + body + FENCE + post;
    var start := |pre| + 7;
    var close := start + |body|;
    MiddlePiece(pre + JSON_FENCE + body, FENCE, post);
    assert OccursAt(text, FENCE, close);
    BodyKeepsItsPlace(pre + JSON_FENCE, body, FENCE + post);
    Regroup(pre, JSON_FENCE, body, FENCE, post);
    NoFenceBelow(text, FENCE, start, close);
    FindIs(text, FENCE, start, close);
  }

  /** The characters of the middle piece keep their positions. */
  lemma BodyKeepsItsPlace(a: string, b: string, c: string)
    ensures forall k :: |a| <= k < |a| + |b| ==> (a + b + c)[k] == b[k - |a|]
  {
  }

  lemma Regroup(a: string, b: string, c: string, d: string, e: string)
    ensures a + b + c + d + e == a + b + (c + d + e)
  {
  }

  /** The middle one of three joined pieces is found where it was put. */
  lemma MiddlePiece(a: string, b: string, c: string)
    ensures (a + b + c)[|a|..|a| + |b|] == b
  {
  }

  /** A reply whose "```json" fence is never closed, with a non-empty body
      without backticks: as written, the last character of the body is lost;
      the corrected version returns the whole body. */
  lemma UnclosedJsonFence(pre: string, body: string)
    requires NoBacktick(pre) && NoBacktick(body) && body != ""
    ensures ExtractJsonAsWritten(pre + JSON_FENCE + body) == body[..|body| - 1]
    ensures ExtractJson(pre + JSON_FENCE + body) == body
  {
    var text := pre + JSON_FENCE + body;
    var start := |pre| + 7;
    OpeningJsonFence(pre, body);
    NoFenceFrom(text, FENCE, start);
    assert Find(text, FENCE, start) == -1;
    assert text[start..|text| - 1] == body[..|body| - 1];
    assert text[start..] == body;
  }

  /** With no "```json" fence and the plain fence at p as the last one,
      the text after the fence up to the end is what the corrected version
      returns, and the extraction as written returns nothing. */
  lemma LonePlainFence(text: string, p: nat)
    requires !Contains(text, JSON_FENCE) && OccursAt(text, FENCE, p)
    requires forall k :: 0 <= k < p ==> text[k] != '`'
    requires forall k :: p + 3 <= k < |text| ==> text[k] != '`'
    ensures ExtractJsonAsWritten(text) == ""
    ensures ExtractJson(text) == text[p + 3..]
  {
    NoFenceBelow(text, FENCE, 0, p);
    FindIs(text, FENCE, 0, p);
    LastFenceIs(text, p);
  }

  /** The fence at q is the last one when no backtick follows it. */
  lemma LastFenceIs(text: string, q: nat)
    requires OccursAt(text, FENCE, q)
    requires forall k :: q + 3 <= k < |text| ==> text[k] != '`'
    ensures RFind(text, FENCE) == q
  {
    NoFenceFrom(text, FENCE, q + 3);
    OccursAtChar(text, FENCE, q + 1, 2);
    OccursAtChar(text, FENCE, q + 2, 1);
  }

  /** A reply with one plain fence, no "```json" fence, and a body without
      backticks after it: as written, the result is empty; the corrected
      version returns the body. */
  lemma SinglePlainFenceBody(pre: string, body: string)
    requires NoBacktick(pre) && NoBacktick(body)
    requires !Contains(pre + FENCE + body, JSON_FENCE)
    ensures ExtractJsonAsWritten(pre + FENCE + body) == ""
    ensures ExtractJson(pre + FENCE + body) == body
  {
    var text := pre + FENCE + body;
    var p := |pre|;
    assert text[p..p + 3] == FENCE;
    assert text[p + 3..] == body;
    LonePlainFence(text, p);
  }

  /** With no "```json" fence, the first plain fence at p and the last one
      at q > p, both versions return the text between them. */
  lemma ClosedPlainFence(text: string, p: nat, q: nat)
    requires !Contains(text, JSON_FENCE) && OccursAt(text, FENCE, p) && OccursAt(text, FENCE, q)
    requires p + 3 <= q
    requires forall k :: 0 <= k < p ==> text[k] != '`'
    requires forall k :: q + 3 <= k < |text| ==> text[k] != '`'
    ensures ExtractJsonAsWritten(text) == text[p + 3..q]
    ensures ExtractJson(text) == text[p + 3..q]
  {
    NoFenceBelow(text, FENCE, 0, p);
    FindIs(text, FENCE, 0, p);
    LastFenceIs(text, q);
  }

  /** A reply with a closed plain fence around a body without backticks,
      followed by text without backticks, and no "```json" fence: both
      versions return the body. */
  lemma PlainFenceRoundTrip(pre: string, body: string, post: string)
    requires NoBacktick(pre) && NoBacktick(body) && NoBacktick(post)
    requires !Contains(pre + FENCE + body + FENCE + post, JSON_FENCE)
    ensures ExtractJsonAsWritten(pre + FENCE + body + FENCE + post) == body
    ensures ExtractJson(pre + FENCE + body + FENCE + post) == body
  {
    var text := pre + FENCE + body + FENCE + post;
    var p := |pre|;
    var close := p + 3 + |body|;
    assert text[p..p + 3] == FENCE;
    assert text[close..close + 3] == FENCE;
    assert text[p + 3..close] == body;
    assert forall k :: close + 3 <= k < |text| ==> text[k] == post[k - close - 3];
    ClosedPlainFence(text, p, close);
  }

  /** A concrete reply on which the extraction as written loses the closing
      brace: "```json{}" gives "{". */
  lemma UnclosedJsonFenceExample()
    ensures ExtractJsonAsWritten("```json{}") == "{"
    ensures ExtractJson("```json{}") == "{}"
  {
    assert "```json{}" == "" + JSON_FENCE + "{}";
    UnclosedJsonFence("", "{}");
  }

  /** A concrete reply on which the extraction as written loses everything:
      "```{}" gives "". */
  lemma SinglePlainFenceExample()
    ensures ExtractJsonAsWritten("```{}") == ""
    ensures ExtractJson("```{}") == "{}"
  {
    assert "```{}" == "" + FENCE + "{}";
    assert !Contains("```{}", JSON_FENCE);
    SinglePlainFenceBody("", "{}");
  }

  /** A reply without any fence is only stripped, by both versions. */
  lemma CleanUnfenced(raw: string)
    requires !Contains(Strip(raw), FENCE)
    ensures CleanReplyAsWritten(raw) == Strip(raw)
    ensures CleanReplyCorrected(raw) == Strip(raw)
  {
    var _, _ := StripProperties(raw);
  }

  /** A reply whose stripped text has a closed "```json" fence around a body
      without backticks yields the stripped body, in both versions. */
  lemma CleanJsonFenced(raw: string, pre: string, body: string, post: string)
    requires Strip(raw) == pre + JSON_FENCE + body + FENCE + post
    requires NoBacktick(pre) && NoBacktick(body)
    ensures CleanReplyAsWritten(raw) == Strip(body)
    ensures CleanReplyCorrected(raw) == Strip(body)
  {
    JsonFenceRoundTrip(pre, body, post);
  }

  /** A reply whose stripped text opens a "```json" fence that is never
      closed: the parser is handed the body without its last character, and
      the corrected cleaning hands it the whole body. */
  lemma CleanUnclosedJsonFence(raw: string, pre: string, body: string)
    requires Strip(raw) == pre + JSON_FENCE + body
    requires NoBacktick(pre) && NoBacktick(body) && body != ""
    ensures CleanReplyAsWritten(raw) == Strip(body[..|body| - 1])
    ensures CleanReplyCorrected(raw) == Strip(body)
  {
    UnclosedJsonFence(pre, body);
  }
}
