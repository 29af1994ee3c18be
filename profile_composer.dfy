/**
 * `searchPersonInfo` (src/lib/openai-search.ts:172-270): turns one reply of
 * the search model into the profile fragment the page shows. The reply is
 * a parameter (the SDK call is not modelled); so is the date string.
 */
module ProfileComposer {
  import opened Wrappers
  import opened Text
  import opened Completions

  datatype ProspectingInput = ProspectingInput(name: string, email: Option<string>, company: Option<string>)

  datatype SearchResult = SearchResult(html: string, searchDate: string)

  // ---------------------------------------------------------------------------
  // Fence extraction (src/lib/openai-search.ts:232-243).

  /**
   * The regular expression `/OPEN\s*([\s\S]*?)\s*```/` first matches at the
   * first `open` (index `i`), and its lazy group ends at the first fence at or
   * after `i + |open|` (index `f`).
   */
  predicate FirstMatch(s: string, open: string, i: nat, f: nat) {
    && OccursAt(s, open, i) && Absent(s, open, 0, i)
    && i + |open| <= f
    && OccursAt(s, Fence, f) && Absent(s, Fence, i + |open|, f)
  }

  /** `p` does not occur in `s` at any index from `lo` up to (not including) `hi`. */
  predicate Absent(s: string, p: string, lo: nat, hi: nat) {
    forall j :: lo <= j < hi ==> !OccursAt(s, p, j)
  }

  /** Where the expression first matches: the opening and the closing fence, or None when it does not match. */
  function FirstMatchAt(s: string, open: string): (r: Option<(nat, nat)>)
    requires open != []
    ensures r.Some? ==> FirstMatch(s, open, r.value.0, r.value.1)
    ensures r.None? ==> forall i: nat, f: nat :: !FirstMatch(s, open, i, f)
  {
    var i := IndexOf(s, open, 0);
    if i.None? then
      NoFirstMatch(s, open);
      None
    else
      var f := IndexOf(s, Fence, i.value + |open|);
      if f.None? then
        NoClosingFence(s, open, i.value);
        None
      else
        Some((i.value, f.value))
  }

  /** The text between the fences of the first match, or None when the expression does not match. */
  function MatchedText(s: string, open: string): (r: Option<string>)
    requires open != []
  {
    var m := FirstMatchAt(s, open);
    if m.Some? then Some(s[m.value.0 + |open|..m.value.1]) else None
  }

  /**
   * The capture group of that first match, or None when the expression does
   * not match. The group excludes the whitespace that the two `\s*` take, so
   * it is the trimmed text between the fences.
   */
  function FencedCapture(s: string, open: string): Option<string>
    requires open != []
  {
    match MatchedText(s, open)
    case Some(t) => Some(Trim(t))
    case None => None
  }

  /** The expression fails exactly when no opening fence has a closing fence after it. */
  lemma FencedCaptureNone(s: string, open: string)
    requires open != []
    ensures FencedCapture(s, open).None? <==> forall i: nat, f: nat :: !FirstMatch(s, open, i, f)
  {
    var m := FirstMatchAt(s, open);
    if m.Some? {
      assert FirstMatch(s, open, m.value.0, m.value.1);
    }
  }

  lemma NoFirstMatch(s: string, open: string)
    requires forall j :: 0 <= j ==> !OccursAt(s, open, j)
    ensures forall i: nat, f: nat :: !FirstMatch(s, open, i, f)
  {
  }

  lemma NoClosingFence(s: string, open: string, i: nat)
    requires OccursAt(s, open, i) && Absent(s, open, 0, i)
    requires forall j :: i + |open| <= j ==> !OccursAt(s, Fence, j)
    ensures forall i2: nat, f: nat :: !FirstMatch(s, open, i2, f)
  {
  }

  /** Two first occurrences from the same index are the same occurrence. */
  lemma FirstUnique(s: string, p: string, from: nat, f: nat, f2: nat)
    requires from <= f && OccursAt(s, p, f) && Absent(s, p, from, f)
    requires from <= f2 && OccursAt(s, p, f2) && Absent(s, p, from, f2)
    ensures f == f2
  {
  }

  /** Two first matches are the same match. */
  lemma FirstMatchUnique(s: string, open: string, i: nat, f: nat, i2: nat, f2: nat)
    requires FirstMatch(s, open, i, f) && FirstMatch(s, open, i2, f2)
    ensures i == i2 && f == f2
  {
    FirstUnique(s, open, 0, i, i2);
    FirstUnique(s, Fence, i + |open|, f, f2);
  }

  /** The search finds any first match. */
  lemma FirstMatchAtFinds(s: string, open: string, i: nat, f: nat)
    requires open != [] && FirstMatch(s, open, i, f)
    ensures FirstMatchAt(s, open) == Some((i, f))
  {
    var m := FirstMatchAt(s, open);
    assert m.Some?;
    FirstMatchUnique(s, open, i, f, m.value.0, m.value.1);
  }

  /** The capture is determined: any first match gives it. */
  lemma FencedCaptureOfFirstMatch(s: string, open: string, i: nat, f: nat)
    requires open != [] && FirstMatch(s, open, i, f)
    ensures FencedCapture(s, open) == Some(Trim(s[i + |open|..f]))
  {
    MatchedTextOfFirstMatch(s, open, i, f);
  }

  lemma MatchedTextOfFirstMatch(s: string, open: string, i: nat, f: nat)
    requires open != [] && FirstMatch(s, open, i, f)
    ensures MatchedText(s, open) == Some(s[i + |open|..f])
  {
    FirstMatchAtFinds(s, open, i, f);
  }

  /**
   * Lines 229-243: the content of the first ```` ```html ```` block, or of the
   * first bare ```` ``` ```` block when there is no ```` ```html ````; the
   * whole content when the expression does not match or captures nothing.
   */
  function ExtractBody(content: string): string {
    if Contains(content, HtmlFence) then CaptureOr(content, HtmlFence)
    else if Contains(content, Fence) then CaptureOr(content, Fence)
    else content
  }

  /** `if (matches && matches[1]) cleanedHtml = matches[1].trim()`. */
  function CaptureOr(content: string, open: string): string
    requires open != []
  {
    match FencedCapture(content, open)
    case Some(cap) => if cap != "" then Trim(cap) else content
    case None => content
  }

  // ---------------------------------------------------------------------------
  // Marker stripping (src/lib/openai-search.ts:246-250).

  /** An anchored `^p` removed once. */
  function DropLeading(s: string, p: string): (r: string)
    ensures StartsWith(s, p) ==> s == p + r
    ensures !StartsWith(s, p) ==> r == s
  {
    if StartsWith(s, p) then s[|p|..] else s
  }

  /** An anchored `p$` removed once. */
  function DropTrailing(s: string, p: string): (r: string)
    ensures EndsWith(s, p) ==> s == r + p
    ensures !EndsWith(s, p) ==> r == s
  {
    if EndsWith(s, p) then s[..|s| - |p|] else s
  }

  /**
   * `replace(/^LEAD|TAIL$/g, '')`: a leading `lead` is removed, then a
   * trailing `tail` of what is left (matches do not overlap).
   */
  function DropEdges(s: string, lead: string, tail: string): string {
    DropTrailing(DropLeading(s, lead), tail)
  }

  /** `replace(/^html|^HTML/g, '')`: one word at the very start, with no whitespace. */
  function DropWord(s: string): string {
    if StartsWith(s, "html") then s[4..] else DropLeading(s, "HTML")
  }

  /** Lines 246-250. */
  function StripMarkers(s: string): string {
    Trim(DropEdges(DropWord(DropEdges(s, Fence, Fence)), "<html>", "</html>"))
  }

  /** `cleanedHtml` as it enters the wrapper. */
  function CleanContent(content: string): string {
    StripMarkers(ExtractBody(content))
  }

  // ---------------------------------------------------------------------------
  // Sources and wrapper (src/lib/openai-search.ts:187, 203-214, 253-261).

  /** The link of one source. */
  function Anchor(c: Citation): string {
    "<a href=\"" + c.url + "\" target=\"_blank\">" + c.title + "</a>"
  }

  function SourceItem(c: Citation): string {
    "\n                <li>\n                  " + Anchor(c) + "\n                </li>\n              "
  }

  /** `sources.map(...).join('')`. */
  function SourceItems(cs: seq<Citation>): string {
    if cs == [] then "" else SourceItem(cs[0]) + SourceItems(cs[1..])
  }

  const SourcesHead: string := "\n          <div class=\"sources-section\">\n            <h2>Sources</h2>\n            <ul>\n              "
  const SourcesTail: string := "\n            </ul>\n          </div>"

  function SourcesBlock(cs: seq<Citation>): string {
    SourcesHead + SourceItems(cs) + SourcesTail
  }

  /**
   * `sourcesHtml`: the block for the collected citations, or "" when the
   * annotations are absent, hold no citation, or the loop threw (the inner
   * `catch` swallows the error).
   */
  function SourcesHtml(annotations: Option<seq<Annotation>>): (r: string)
    ensures annotations.None? ==> r == ""
  {
    match annotations
    case None => ""
    case Some(anns) =>
      var cs := CitationsOf(anns);
      if Scanned(anns) < |anns| || cs == [] then "" else SourcesBlock(cs)
  }

  const WrapOpen: string := "\n    <div class=\"lead-profile\">\n      <div class=\"profile-header\">\n        "
  const DateOpen: string := "\n        <p class=\"last-updated\">"
  const HeaderClose: string := "</p>\n      </div>\n      "
  const WrapClose: string := "\n    </div>"

  /** The profile header with the name and the date, the body, then the sources block. */
  function WrapProfile(name: string, date: string, body: string, sources: string): string {
    WrapOpen + ("<h1>" + name + "</h1>") + DateOpen + ("Last updated: " + date) + HeaderClose
      + (body + "\n      " + sources) + WrapClose
  }

  /** The html the call returns for a reply. */
  function ComposedHtml(input: ProspectingInput, reply: Completion, date: string): string {
    WrapProfile(input.name, date, CleanContent(reply.content.GetOr("")), SourcesHtml(reply.annotations))
  }

  /**
   * `searchPersonInfo` after the SDK call: a failed call is rethrown
   * unchanged; otherwise the citations are collected by the loop and the
   * fragment is assembled.
   */
  method SearchPersonInfo(input: ProspectingInput, reply: Result<Completion>, today: string)
    returns (r: Result<SearchResult>)
    ensures reply.Failure? ==> r == Failure(reply.error)
    ensures reply.Success? ==> r == Success(SearchResult(ComposedHtml(input, reply.value, today), today))
  {
    if reply.Failure? {
      return Failure(reply.error);
    }
    var response := reply.value;
    var htmlContent := response.content.GetOr("");
    var sourcesHtml := "";
    if response.annotations.Some? {
      var sources, threw := CollectCitations(response.annotations.value);
      if !threw && |sources| > 0 {
        sourcesHtml := SourcesBlock(sources);
      }
    }
    var cleanedHtml := ExtractBody(htmlContent);
    cleanedHtml := StripMarkers(cleanedHtml);
    r := Success(SearchResult(WrapProfile(input.name, today, cleanedHtml, sourcesHtml), today));
  }

  // ---------------------------------------------------------------------------
  // Properties.

  /** The first ```` ```html ```` block is found whatever follows it, and text before it is ignored. */
  lemma FencedCaptureOfBlock(a: string, t: string, b: string, open: string)
    requires open == HtmlFence || open == Fence
    requires NoBacktick(a) && NoBacktick(t)
    ensures FencedCapture(a + open + t + Fence + b, open) == Some(Trim(t))
  {
    var s := a + open + t + Fence + b;
    var i := |a|;
    var f := |a| + |open| + |t|;
    assert s[i..i + |open|] == open;
    forall j | 0 <= j < i ensures !OccursAt(s, open, j) {
      assert s[j] == a[j];
    }
    assert s[f..f + 3] == Fence;
    forall j | i + |open| <= j < f ensures !OccursAt(s, Fence, j) {
      assert s[j] == t[j - i - |open|];
    }
    assert FirstMatch(s, open, i, f);
    assert s[i + |open|..f] == t;
    FencedCaptureOfFirstMatch(s, open, i, f);
  }

  /**
   * When the content holds a ```` ```html ```` block with non-blank text,
   * the body is that text, trimmed, and everything outside the fences is
   * discarded.
   */
  lemma ExtractBodyOfHtmlBlock(a: string, t: string, b: string)
    requires NoBacktick(a) && NoBacktick(t) && Trim(t) != ""
    ensures ExtractBody(a + HtmlFence + t + Fence + b) == Trim(t)
  {
    var s := a + HtmlFence + t + Fence + b;
    FencedCaptureOfBlock(a, t, b, HtmlFence);
    CaptureOfBlock(HtmlFence, t, s);
  }

  /** The same for a bare ```` ``` ```` block in content that has no ```` ```html ````. */
  lemma ExtractBodyOfBareBlock(a: string, t: string, b: string)
    requires NoBacktick(a) && NoBacktick(t) && Trim(t) != ""
    requires !Contains(a + Fence + t + Fence + b, HtmlFence)
    ensures ExtractBody(a + Fence + t + Fence + b) == Trim(t)
  {
    var s := a + Fence + t + Fence + b;
    FencedCaptureOfBlock(a, t, b, Fence);
    CaptureOfBlock(Fence, t, s);
  }

  lemma CaptureOfBlock(open: string, t: string, s: string)
    requires open != [] && Trim(t) != ""
    requires FencedCapture(s, open) == Some(Trim(t))
    ensures Contains(s, open) && CaptureOr(s, open) == Trim(t)
  {
    var m := FirstMatchAt(s, open);
    assert OccursAt(s, open, m.value.0);
    CaptureOfTrimmed(s, open, t);
  }

  lemma CaptureOfTrimmed(s: string, open: string, t: string)
    requires open != [] && Trim(t) != ""
    requires FencedCapture(s, open) == Some(Trim(t))
    ensures CaptureOr(s, open) == Trim(t)
  {
    TrimIdempotent(t);
  }

  /** Content without any fence is passed on whole. */
  lemma ExtractBodyWithoutFence(content: string)
    requires !Contains(content, Fence)
    ensures ExtractBody(content) == content
  {
    if Contains(content, HtmlFence) {
      var i :| 0 <= i <= |content| && OccursAt(content, HtmlFence, i);
      assert content[i..i + 3] == content[i..i + 7][..3];
      assert OccursAt(content, Fence, i);
    }
  }

  lemma TrimIdempotent(s: string)
    ensures Trim(Trim(s)) == Trim(s)
  {
    TrimOfTrimmed(Trim(s));
  }

  lemma DropLeadingMiss(s: string, p: string)
    requires p != [] && (s == [] || s[0] != p[0])
    ensures DropLeading(s, p) == s
  {
  }

  lemma DropTrailingMiss(s: string, p: string)
    requires p != [] && (s == [] || s[|s| - 1] != p[|p| - 1])
    ensures DropTrailing(s, p) == s
  {
  }

  lemma DropLeadingHit(p: string, u: string)
    ensures DropLeading(p + u, p) == u
  {
    assert (p + u)[..|p|] == p;
  }

  lemma DropTrailingHit(u: string, p: string)
    ensures DropTrailing(u + p, p) == u
  {
    assert (u + p)[|u|..] == p;
  }

  /** Text that starts with neither "html" nor "HTML" keeps its first word. */
  lemma DropWordMiss(s: string)
    requires s == [] || (s[0] != 'h' && s[0] != 'H')
    ensures DropWord(s) == s
  {
    if s != [] {
      DropLeadingMiss(s, "html");
      DropLeadingMiss(s, "HTML");
    }
  }

  /** An `<html>...</html>` wrapper is removed and the text inside is trimmed. */
  lemma StripMarkersOfHtmlTags(t: string)
    ensures StripMarkers("<html>" + t + "</html>") == Trim(t)
  {
    var s := "<html>" + t + "</html>";
    assert s == "<html>" + (t + "</html>");
    StripMarkersOfTags(s, t);
  }

  lemma StripMarkersOfTags(s: string, t: string)
    requires s == "<html>" + (t + "</html>")
    ensures StripMarkers(s) == Trim(t)
  {
    assert s[0] == '<' && s[|s| - 1] == '>';
    DropLeadingMiss(s, Fence);
    DropTrailingMiss(s, Fence);
    DropWordMiss(s);
    DropLeadingHit("<html>", t + "</html>");
    DropTrailingHit(t, "</html>");
  }

  /**
   * Stripping markers keeps a middle slice of the text and trims it: at most
   * a "```", a word and an "<html>" (13 characters) go from the front, and at
   * most a "</html>" and a "```" (10 characters) from the back.
   */
  lemma StripMarkersInfix(s: string)
    ensures exists i, j :: 0 <= i <= j <= |s| && i <= 13 && |s| - j <= 10 && StripMarkers(s) == Trim(s[i..j])
  {
    var i, j := MarkersInfix(s);
    assert StripMarkers(s) == Trim(s[i..j]);
  }

  /** The markers removed before trimming come off the two ends only. */
  lemma MarkersInfix(s: string) returns (i: nat, j: nat)
    ensures i <= j <= |s| && i <= 13 && |s| - j <= 10
    ensures DropEdges(DropWord(DropEdges(s, Fence, Fence)), "<html>", "</html>") == s[i..j]
  {
    i, j := LayersInfix(s, Fence, Fence, "<html>", "</html>");
  }

  /** The two marker layers come off the two ends only. */
  lemma LayersInfix(s: string, lead: string, tail: string, tag: string, endTag: string) returns (i: nat, j: nat)
    ensures i <= j <= |s| && i <= |lead| + 4 + |tag| && |s| - j <= |tail| + |endTag|
    ensures DropEdges(DropWord(DropEdges(s, lead, tail)), tag, endTag) == s[i..j]
  {
    var b := DropEdges(s, lead, tail);
    var i1, j1 := EdgesSlice(s, lead, tail);
    var k, l := TagsInfix(b, tag, endTag);
    SliceOfSlice(s, b, i1, j1, DropEdges(DropWord(b), tag, endTag), k, l);
    i, j := i1 + k, i1 + l;
  }

  /** The word and the tags come off the two ends only. */
  lemma TagsInfix(b: string, tag: string, endTag: string) returns (i: nat, j: nat)
    ensures i <= j <= |b| && i <= 4 + |tag| && |b| - j <= |endTag|
    ensures DropEdges(DropWord(b), tag, endTag) == b[i..j]
  {
    var c := DropWord(b);
    WordSlice(b);
    var i3, j3 := EdgesSlice(c, tag, endTag);
    SliceOfSlice(b, c, |b| - |c|, |b|, DropEdges(c, tag, endTag), i3, j3);
    i, j := |b| - |c| + i3, |b| - |c| + j3;
  }

  /** Removing an anchored lead and tail keeps a middle slice. */
  lemma EdgesSlice(x: string, lead: string, tail: string) returns (i: nat, j: nat)
    ensures i <= j <= |x| && i <= |lead| && |x| - j <= |tail|
    ensures DropEdges(x, lead, tail) == x[i..j]
  {
    var a := DropLeading(x, lead);
    LeadingSlice(x, lead);
    var b := DropTrailing(a, tail);
    TrailingSlice(a, tail);
    i := |x| - |a|;
    SliceOfSlice(x, a, i, |x|, b, 0, |b|);
    j := i + |b|;
  }

  lemma SliceOfSlice(s: string, x: string, i: nat, j: nat, y: string, k: nat, l: nat)
    requires i <= j <= |s| && x == s[i..j]
    requires k <= l <= |x| && y == x[k..l]
    ensures y == s[i + k..i + l]
  {
    forall n | 0 <= n < |y|
      ensures y[n] == s[i + k..i + l][n]
    {
      assert y[n] == x[k + n] == s[i + k + n];
    }
  }

  lemma LeadingSlice(x: string, p: string)
    ensures |x| - |p| <= |DropLeading(x, p)| <= |x|
    ensures DropLeading(x, p) == x[|x| - |DropLeading(x, p)|..|x|]
  {
  }

  lemma TrailingSlice(x: string, p: string)
    ensures |x| - |p| <= |DropTrailing(x, p)| <= |x|
    ensures DropTrailing(x, p) == x[0..|DropTrailing(x, p)|]
  {
  }

  lemma WordSlice(x: string)
    ensures |x| - 4 <= |DropWord(x)| <= |x|
    ensures DropWord(x) == x[|x| - |DropWord(x)|..|x|]
  {
  }

  /**
   * Text whose first character cannot start a marker and whose last cannot
   * end one is only trimmed.
   */
  lemma StripMarkersOfPlain(t: string)
    requires t != [] ==> t[0] != '`' && t[0] != 'h' && t[0] != 'H' && t[0] != '<'
    requires t != [] ==> t[|t| - 1] != '`' && t[|t| - 1] != '>'
    ensures StripMarkers(t) == Trim(t)
  {
    PlainKeepsMarkers(t);
  }

  lemma PlainKeepsMarkers(t: string)
    requires t != [] ==> t[0] != '`' && t[0] != 'h' && t[0] != 'H' && t[0] != '<'
    requires t != [] ==> t[|t| - 1] != '`' && t[|t| - 1] != '>'
    ensures DropEdges(DropWord(DropEdges(t, Fence, Fence)), "<html>", "</html>") == t
  {
    DropLeadingMiss(t, Fence);
    DropTrailingMiss(t, Fence);
    DropWordMiss(t);
    DropLeadingMiss(t, "<html>");
    DropTrailingMiss(t, "</html>");
  }

  /**
   * Only one leading `html` word is removed per call: of "htmlhtml" followed
   * by plain text `x`, one call leaves "html" + `x` and a second call `x`.
   */
  lemma StripMarkersNotIdempotent(x: string)
    requires x != [] && x[0] != '<' && x[|x| - 1] !in "`>"
    requires !IsSpace(x[0]) && !IsSpace(x[|x| - 1])
    ensures StripMarkers("htmlhtml" + x) == "html" + x
    ensures StripMarkers("html" + x) == x
  {
    var y := "html" + x;
    StripMarkersAfterWord(x, y);
    WordPrefixEdges(x);
    StripMarkersAfterWord(y, "htmlhtml" + x);
  }

  /** "html" in front of `x` gives a text that starts with 'h' and ends as `x` does, and twice is "htmlhtml". */
  lemma WordPrefixEdges(x: string)
    requires x != []
    ensures var y := "html" + x; y[0] == 'h' && y[|y| - 1] == x[|x| - 1]
    ensures "htmlhtml" + x == "html" + ("html" + x)
  {
    assert "htmlhtml" == "html" + "html";
  }

  lemma StripMarkersAfterWord(x: string, s: string)
    requires x != [] && x[0] != '<' && x[|x| - 1] !in "`>"
    requires !IsSpace(x[0]) && !IsSpace(x[|x| - 1])
    requires s == "html" + x
    ensures StripMarkers(s) == x
  {
    assert s[0] == 'h' && s[|s| - 1] == x[|x| - 1];
    DropLeadingMiss(s, Fence);
    DropTrailingMiss(s, Fence);
    assert s[..4] == "html" && s[4..] == x;
    assert DropWord(s) == x;
    DropLeadingMiss(x, "<html>");
    DropTrailingMiss(x, "</html>");
    TrimOfTrimmed(x);
  }

  /** Joining the items keeps the citations' order: items of a concatenation are concatenated items. */
  lemma {:induction false} SourceItemsAppend(a: seq<Citation>, b: seq<Citation>)
    ensures SourceItems(a + b) == SourceItems(a) + SourceItems(b)
  {
    if a == [] {
      assert a + b == b;
    } else {
      assert (a + b)[1..] == a[1..] + b;
      SourceItemsAppend(a[1..], b);
    }
  }

  /** Every citation gets its link in the items. */
  lemma {:induction false} SourceItemsHaveLinks(cs: seq<Citation>, c: Citation)
    requires c in cs
    ensures Contains(SourceItems(cs), Anchor(c))
  {
    var item := SourceItem(cs[0]);
    if cs[0] == c {
      var a := Anchor(c);
      ContainsSelf(a);
      ContainsAppend(a, "\n                <li>\n                  ", a);
      ContainsAppend("\n                <li>\n                  " + a, "\n                </li>\n              ", a);
      ContainsAppend(item, SourceItems(cs[1..]), a);
    } else {
      SourceItemsHaveLinks(cs[1..], c);
      ContainsAppend(SourceItems(cs[1..]), item, Anchor(c));
    }
  }

  /**
   * The sources block is empty exactly when the annotations are absent, hold
   * no `url_citation`, or the loop threw; otherwise it links every collected
   * citation.
   */
  lemma SourcesHtmlCases(annotations: Option<seq<Annotation>>)
    ensures SourcesHtml(annotations) == "" <==>
      annotations.None? || Scanned(annotations.value) < |annotations.value| || CitationsOf(annotations.value) == []
    ensures forall c ::
      (annotations.Some? && Scanned(annotations.value) == |annotations.value| && c in CitationsOf(annotations.value))
      ==> Contains(SourcesHtml(annotations), Anchor(c))
  {
    forall c | annotations.Some? && Scanned(annotations.value) == |annotations.value| && c in CitationsOf(annotations.value)
      ensures Contains(SourcesHtml(annotations), Anchor(c))
    {
      var cs := CitationsOf(annotations.value);
      SourceItemsHaveLinks(cs, c);
      var items := SourceItems(cs);
      ContainsSlice(SourcesHead + items + SourcesTail, |SourcesHead|, |SourcesHead| + |items|, Anchor(c));
      assert (SourcesHead + items + SourcesTail)[|SourcesHead|..|SourcesHead| + |items|] == items;
    }
  }

  /**
   * The fragment shows the name in the `<h1>`, the date after "Last
   * updated: ", the cleaned body and the sources block, in that order.
   */
  lemma WrapProfileShows(name: string, date: string, body: string, sources: string)
    ensures Contains(WrapProfile(name, date, body, sources), "<h1>" + name + "</h1>")
    ensures Contains(WrapProfile(name, date, body, sources), "Last updated: " + date)
    ensures Contains(WrapProfile(name, date, body, sources), body + "\n      " + sources)
    ensures StartsWith(WrapProfile(name, date, body, sources), WrapOpen)
  {
    var h := "<h1>" + name + "</h1>";
    var d := "Last updated: " + date;
    var tail := body + "\n      " + sources;
    var w := WrapProfile(name, date, body, sources);
    ContainsSelf(h);
    ContainsAppend(h, WrapOpen, h);
    ContainsAppend(WrapOpen + h, DateOpen, h);
    ContainsAppend(WrapOpen + h + DateOpen, d, h);
    ContainsAppend(WrapOpen + h + DateOpen + d, HeaderClose, h);
    ContainsAppend(WrapOpen + h + DateOpen + d + HeaderClose, tail, h);
    ContainsAppend(WrapOpen + h + DateOpen + d + HeaderClose + tail, WrapClose, h);
    ContainsSelf(d);
    ContainsAppend(d, WrapOpen + h + DateOpen, d);
    ContainsAppend(WrapOpen + h + DateOpen + d, HeaderClose, d);
    ContainsAppend(WrapOpen + h + DateOpen + d + HeaderClose, tail, d);
    ContainsAppend(WrapOpen + h + DateOpen + d + HeaderClose + tail, WrapClose, d);
    ContainsSelf(tail);
    ContainsAppend(tail, WrapOpen + h + DateOpen + d + HeaderClose, tail);
    ContainsAppend(WrapOpen + h + DateOpen + d + HeaderClose + tail, WrapClose, tail);
    assert w[..|WrapOpen|] == WrapOpen;
  }

  /** The html of a successful call is never empty (so the route's `if (htmlResult)` always holds). */
  lemma ComposedHtmlNonEmpty(input: ProspectingInput, reply: Completion, date: string)
    ensures ComposedHtml(input, reply, date) != ""
  {
    WrapProfileShows(input.name, date, CleanContent(reply.content.GetOr("")), SourcesHtml(reply.annotations));
  }

  /** A reply without content is composed as if its content were "". */
  lemma NullContentIsEmpty(input: ProspectingInput, anns: Option<seq<Annotation>>, date: string)
    ensures ComposedHtml(input, Completion(None, anns), date) == ComposedHtml(input, Completion(Some(""), anns), date)
  {
  }
}
