/**
 * The part of an OpenAI chat-completion reply that the application reads:
 * the first choice's message content and its annotations, and the loop that
 * collects `url_citation` annotations into an ordered list of sources
 * (src/lib/openai-search.ts:190-201 and src/lib/openai.ts:335-346 run the
 * same loop).
 */
module Completions {
  import opened Wrappers

  /** The `url_citation` payload of an annotation. */
  datatype Citation = Citation(url: string, title: string)

  /**
   * One entry of `message.annotations`. `NullAnnotation` is a `null` entry:
   * reading `annotation.type` on it throws.
   */
  datatype Annotation =
    | NullAnnotation
    | Annotation(kind: string, citation: Option<Citation>)

  /** `response.choices[0].message`: content and annotations may be absent. */
  datatype Completion = Completion(content: Option<string>, annotations: Option<seq<Annotation>>)

  /** The condition of the loop body: `annotation.type === 'url_citation' && annotation.url_citation`. */
  predicate IsUrlCitation(a: Annotation) {
    a.Annotation? && a.kind == "url_citation" && a.citation.Some?
  }

  /** The sources the loop pushes, in order, for annotations that are all non-null. */
  function CitationsOf(anns: seq<Annotation>): (cs: seq<Citation>)
    ensures |cs| <= |anns|
  {
    if anns == [] then []
    else
      var rest := CitationsOf(anns[1..]);
      if IsUrlCitation(anns[0]) then [anns[0].citation.value] + rest else rest
  }

  /** How many annotations the loop gets through: up to the first `null` entry, or all of them. */
  function Scanned(anns: seq<Annotation>): (n: nat)
    ensures n <= |anns|
    ensures forall i :: 0 <= i < n ==> anns[i] != NullAnnotation
    ensures n < |anns| ==> anns[n] == NullAnnotation
  {
    if anns == [] || anns[0] == NullAnnotation then 0 else 1 + Scanned(anns[1..])
  }

  /** Collecting sources from two runs of annotations gives the two lists one after the other. */
  lemma {:induction false} CitationsOfAppend(a: seq<Annotation>, b: seq<Annotation>)
    ensures CitationsOf(a + b) == CitationsOf(a) + CitationsOf(b)
  {
    if a == [] {
      assert a + b == b;
    } else {
      assert (a + b)[1..] == a[1..] + b;
      CitationsOfAppend(a[1..], b);
    }
  }

  /** A citation is collected exactly when some annotation is a `url_citation` carrying it. */
  lemma {:induction false} CitationsOfMember(anns: seq<Annotation>, c: Citation)
    ensures c in CitationsOf(anns) <==>
      exists i :: 0 <= i < |anns| && IsUrlCitation(anns[i]) && anns[i].citation.value == c
  {
    if anns != [] {
      CitationsOfMember(anns[1..], c);
      if c in CitationsOf(anns[1..]) {
        var i :| 0 <= i < |anns[1..]| && IsUrlCitation(anns[1..][i]) && anns[1..][i].citation.value == c;
        assert anns[i + 1] == anns[1..][i];
      }
      if exists i :: 0 <= i < |anns| && IsUrlCitation(anns[i]) && anns[i].citation.value == c {
        var i :| 0 <= i < |anns| && IsUrlCitation(anns[i]) && anns[i].citation.value == c;
        if i > 0 {
          assert anns[1..][i - 1] == anns[i];
        }
      }
    }
  }

  /**
   * The `for (const annotation of annotations)` loop: pushes the citation of
   * every `url_citation` annotation in order, and stops by throwing at the
   * first `null` entry; `threw` tells whether it did, `sources` holds what
   * was pushed before that.
   */
  method CollectCitations(anns: seq<Annotation>) returns (sources: seq<Citation>, threw: bool)
    ensures sources == CitationsOf(anns[..Scanned(anns)])
    ensures threw <==> Scanned(anns) < |anns|
    ensures !threw ==> sources == CitationsOf(anns)
  {
    sources := [];
    threw := false;
    var i := 0;
    while i < |anns|
      invariant 0 <= i <= Scanned(anns)
      invariant sources == CitationsOf(anns[..i])
    {
      var a := anns[i];
      if a == NullAnnotation {
        threw := true;
        return;
      }
      CitationsOfAppend(anns[..i], [a]);
      assert anns[..i + 1] == anns[..i] + [a];
      if IsUrlCitation(a) {
        sources := sources + [a.citation.value];
      }
      i := i + 1;
    }
    assert anns[..i] == anns;
  }
}
