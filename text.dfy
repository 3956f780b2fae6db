/** Python string operations the profile code relies on: substring test
    and search (`in`, `find`, `rfind`), slicing with Python's index rules,
    and `strip`. */
module Text {

  /** `pat` occurs in `text` starting at position i. */
  predicate OccursAt(text: string, pat: string, i: nat)
  {
    i + |pat| <= |text| && text[i..i + |pat|] == pat
  }

  /** Python's `pat in text`. */
  predicate Contains(text: string, pat: string)
  {
    exists i: nat :: i <= |text| && OccursAt(text, pat, i)
  }

  lemma ContainsTransitive(text: string, part: string, pat: string)
    requires Contains(text, part) && Contains(part, pat)
    ensures Contains(text, pat)
  {
    var p: nat :| p <= |text| && OccursAt(text, part, p);
    var i: nat :| i <= |part| && OccursAt(part, pat, i);
    forall q | 0 <= q < |pat| ensures text[p + i + q] == pat[q] {
      assert text[p + i + q] == text[p..p + |part|][i + q];
      assert part[i + q] == part[i..i + |pat|][q];
    }
    assert text[p + i..p + i + |pat|] == pat;
    assert OccursAt(text, pat, p + i);
  }

  /** Python's `s.find(pat, start)`: the first position at or after `start`
      where `pat` occurs, or -1. */
  function Find(s: string, pat: string, start: nat): (r: int)
    ensures r == -1 || (start <= r && OccursAt(s, pat, r))
    ensures r == -1 ==> forall i: nat :: start <= i ==> !OccursAt(s, pat, i)
    ensures r != -1 ==> forall i: nat :: start <= i < r ==> !OccursAt(s, pat, i)
    decreases |s| - start
  {
    if start + |pat| > |s| then -1
    else if OccursAt(s, pat, start) then start
    else Find(s, pat, start + 1)
  }

  /** The last position at or below `i` where `pat` occurs, or -1. */
  function RFindFrom(s: string, pat: string, i: int): (r: int)
    ensures r == -1 || (0 <= r <= i && OccursAt(s, pat, r))
    ensures forall j: nat :: r < j <= i ==> !OccursAt(s, pat, j)
    decreases i + 1
  {
    if i < 0 then -1
    else if OccursAt(s, pat, i) then i
    else RFindFrom(s, pat, i - 1)
  }

  /** Python's `s.rfind(pat)`: the last position where `pat` occurs, or -1. */
  function RFind(s: string, pat: string): (r: int)
    ensures r == -1 || (0 <= r && OccursAt(s, pat, r))
    ensures forall j: nat :: r < j ==> !OccursAt(s, pat, j)
  {
    RFindFrom(s, pat, |s| - |pat|)
  }

  /** How Python reads a slice bound on a sequence of length n: negative
      bounds count from the end, and out-of-range bounds are clamped. */
  function SliceBound(i: int, n: nat): (r: nat)
    ensures r <= n
    ensures 0 <= i <= n ==> r == i
    ensures i < 0 && 0 <= n + i ==> r == n + i
    ensures i > n ==> r == n
    ensures i < 0 && n + i < 0 ==> r == 0
  {
    if i < 0 then (if i + n < 0 then 0 else i + n)
    else if i > n then n
    else i
  }

  /** Python's `s[lo:hi]`: empty when the bounds cross. */
  function PySlice(s: string, lo: int, hi: int): (r: string)
    ensures |r| <= |s|
    ensures SliceBound(lo, |s|) < SliceBound(hi, |s|) ==> r == s[SliceBound(lo, |s|)..SliceBound(hi, |s|)]
    ensures SliceBound(hi, |s|) <= SliceBound(lo, |s|) ==> r == ""
  {
    var a := SliceBound(lo, |s|);
    var b := SliceBound(hi, |s|);
    if a < b then s[a..b] else ""
  }

  /** Slices in Python's terms: bounds inside the text select the piece
      between them, -1 as the upper bound stops before the last character,
      crossed bounds give the empty text, and an upper bound past the end
      reads as the end. */
  lemma PySliceInPythonTerms(s: string, lo: int, hi: int)
    ensures 0 <= lo <= hi <= |s| ==> PySlice(s, lo, hi) == s[lo..hi]
    ensures 0 <= lo < |s| ==> PySlice(s, lo, -1) == s[lo..|s| - 1]
    ensures 0 <= hi <= lo ==> PySlice(s, lo, hi) == ""
    ensures 0 <= lo <= |s| < hi ==> PySlice(s, lo, hi) == s[lo..]
    ensures |s| <= lo ==> PySlice(s, lo, hi) == ""
  {
  }

  /** The characters Python's `str.strip()` removes (`str.isspace`). */
  predicate IsSpace(c: char)
  {
    ('\t' <= c <= '\r') || ('\U{1C}' <= c <= ' ') || c == '\U{85}' || c == '\U{A0}' || c == '\U{1680}'
    || ('\U{2000}' <= c <= '\U{200A}') || c == '\U{2028}' || c == '\U{2029}' || c == '\U{202F}'
    || c == '\U{205F}' || c == '\U{3000}'
  }

  function TrimStart(s: string): (r: string)
    ensures |r| <= |s| && r == s[|s| - |r|..]
    ensures forall k :: 0 <= k < |s| - |r| ==> IsSpace(s[k])
    ensures r == "" || !IsSpace(r[0])
  {
    if s != "" && IsSpace(s[0]) then TrimStart(s[1..]) else s
  }

  function TrimEnd(s: string): (r: string)
    ensures |r| <= |s| && r == s[..|r|]
    ensures forall k :: |r| <= k < |s| ==> IsSpace(s[k])
    ensures r == "" || !IsSpace(r[|r| - 1])
  {
    if s != "" && IsSpace(s[|s| - 1]) then TrimEnd(s[..|s| - 1]) else s
  }

  /** Python's `s.strip()`. */
  function Strip(s: string): string
  {
    TrimEnd(TrimStart(s))
  }

  /** Strip removes exactly the whitespace around the text: what is left is
      a piece of the input that neither starts nor ends with whitespace, and
      everything cut off is whitespace; stripping again changes nothing. */
  lemma StripProperties(s: string) returns (i: nat, j: nat)
    ensures i <= j <= |s| && Strip(s) == s[i..j]
    ensures forall k :: 0 <= k < i ==> IsSpace(s[k])
    ensures forall k :: j <= k < |s| ==> IsSpace(s[k])
    ensures Strip(s) == "" || (!IsSpace(Strip(s)[0]) && !IsSpace(Strip(s)[|Strip(s)| - 1]))
    ensures Strip(Strip(s)) == Strip(s)
  {
    i, j := StripPiece(s);
    StripEnds(s);
    StripIdempotent(s);
  }

  /** Strip keeps s[i..j], with only whitespace before i and from j on. */
  lemma StripPiece(s: string) returns (i: nat, j: nat)
    ensures i <= j <= |s| && Strip(s) == s[i..j]
    ensures forall k :: 0 <= k < i ==> IsSpace(s[k])
    ensures forall k :: j <= k < |s| ==> IsSpace(s[k])
  {
    var t := TrimStart(s);
    var r := TrimEnd(t);
    i := |s| - |t|;
    j := i + |r|;
    assert t == s[i..];
    assert r == s[i..j];
    assert forall k :: j <= k < |s| ==> s[k] == t[k - i];
  }

  lemma StripEnds(s: string)
    ensures Strip(s) == "" || (!IsSpace(Strip(s)[0]) && !IsSpace(Strip(s)[|Strip(s)| - 1]))
  {
    var t := TrimStart(s);
    var r := TrimEnd(t);
    if r != "" {
      assert r[0] == t[0];
    }
  }

  lemma StripIdempotent(s: string)
    ensures Strip(Strip(s)) == Strip(s)
  {
    StripEnds(s);
  }
}
