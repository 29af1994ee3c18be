/**
 * `generateProspects` (src/lib/openai.ts:147-434): asks the web-search model
 * for a JSON profile, falls back to the plain model when that call fails,
 * and shapes the answer into a one-element result list.
 *
 * The two SDK replies, `JSON.parse` and the ISO timestamp are parameters.
 */
module Prospects {
  import opened Wrappers
  import opened Text
  import opened Completions

  /** A JSON value as `JSON.parse` builds it. */
  datatype Json =
    | JNull
    | JBool(b: bool)
    | JNum(n: int)
    | JStr(s: string)
    | JArr(items: seq<Json>)
    | JObj(fields: map<string, Json>)

  /** The two models, in the order they are tried. */
  datatype ModelName = SearchPreview | Gpt4

  datatype ProspectingPrompt = ProspectingPrompt(name: string, email: Option<string>, company: Option<string>)

  const KeyMissing: string := "OPENAI_API_KEY is not defined"
  const EmptyResponse: string := "Empty response from API"

  // The texts of the standard record.
  const NotFormatted: string := "The information was found but could not be properly formatted."
  const TryAgain: string := "Please try another search or contact the developer."
  const NotStructured: string := "Information could not be properly structured"
  const InfoFound: string := "Information Found"

  /** `iso.split('T')[0]`: the text before the first 'T'. */
  function DatePart(iso: string): (d: string)
    ensures StartsWith(iso, d)
    ensures forall i :: 0 <= i < |d| ==> d[i] != 'T'
    ensures |d| < |iso| ==> iso[|d|] == 'T'
  {
    if iso == [] || iso[0] == 'T' then []
    else
      var rest := DatePart(iso[1..]);
      assert iso[1..][..|rest|] == iso[1..|rest| + 1];
      [iso[0]] + rest
  }

  function SourceJson(c: Citation): Json {
    JObj(map["url" := JStr(c.url), "title" := JStr(c.title)])
  }

  /** The `sources` array, one `{url, title}` object per citation, in order. */
  function SourcesJson(cs: seq<Citation>): (j: Json)
    ensures j.JArr? && |j.items| == |cs|
    ensures forall i :: 0 <= i < |cs| ==>
      j.items[i].JObj? && j.items[i].fields.Keys == {"url", "title"} &&
      j.items[i].fields["url"] == JStr(cs[i].url) && j.items[i].fields["title"] == JStr(cs[i].title)
  {
    JArr(seq(|cs|, i requires 0 <= i < |cs| => SourceJson(cs[i])))
  }

  /** `sources` is set only when some source was found. */
  function SourcesField(cs: seq<Citation>): map<string, Json> {
    if |cs| > 0 then map["sources" := SourcesJson(cs)] else map[]
  }

  /** Lines 376-391: the parsed object with `id`, `search_date` and, when there are sources, `sources` set. */
  function ShapeParsed(m: map<string, Json>, date: string, sources: seq<Citation>): map<string, Json> {
    m["id" := JNum(1)]["search_date" := JStr(date)] + SourcesField(sources)
  }

  /** Lines 393-428: the standard record returned when the content is not a JSON object. */
  function FallbackRecord(input: ProspectingPrompt, sources: seq<Citation>, date: string, content: string): map<string, Json> {
    FallbackBody(input, content)["id" := JNum(1)]["search_date" := JStr(date)] + SourcesField(sources)
  }

  /** The fields of the standard record other than `id`, `search_date` and `sources`. */
  function FallbackBody(input: ProspectingPrompt, content: string): map<string, Json> {
    var company := if Truthy(input.company) then input.company.value else "Unknown";
    map[
      "full_name" := JStr(input.name),
      "professional_profile" := JObj(map[
        "current_role" := JObj(map["title" := JStr(InfoFound), "company" := JStr(company)]),
        "location" := JStr("Unknown")]),
      "contact_details" := JObj(map[]),
      "content" := JObj(map[]),
      "business_activities" := JObj(map[]),
      "personal_insights" := JObj(map[
        "professional_interests" := JArr([JStr(NotStructured)])]),
      "engagement_recommendations" := JObj(map[
        "talking_points" := JArr([
          JStr(NotFormatted),
          JStr(TryAgain)])]),
      "raw_content" := JObj(map["fullContent" := JStr(content)])
    ]
  }

  /** The record made from non-empty content: the parsed object reshaped, or the standard record. */
  function Shape(input: ProspectingPrompt, content: string, parsed: Option<map<string, Json>>,
                 sources: seq<Citation>, date: string): map<string, Json> {
    match parsed
    case Some(m) => ShapeParsed(m, date, sources)
    case None => FallbackRecord(input, sources, date, content)
  }

  /** The primary call is abandoned for the secondary when it throws or its annotation loop throws. */
  predicate UsesSecondary(primary: Result<Completion>) {
    || primary.Failure?
    || (primary.value.annotations.Some? && Scanned(primary.value.annotations.value) < |primary.value.annotations.value|)
  }

  /** The sources pushed while handling the primary reply (kept even when the secondary is then used). */
  function PrimarySources(primary: Result<Completion>): seq<Citation> {
    if primary.Success? && primary.value.annotations.Some? then
      var anns := primary.value.annotations.value;
      CitationsOf(anns[..Scanned(anns)])
    else []
  }

  /** The reply whose content is used. */
  function Answer(primary: Result<Completion>, secondary: Result<Completion>): Result<Completion> {
    if UsesSecondary(primary) then secondary else primary
  }

  /**
   * The `try` around the primary call (lines 319-346): the reply is taken
   * and its annotations scanned; `done` is false when the call or the loop
   * threw, and `sources` keeps what the loop pushed either way.
   */
  method HandlePrimary(primary: Result<Completion>) returns (response: Completion, sources: seq<Citation>, done: bool)
    ensures done == !UsesSecondary(primary)
    ensures sources == PrimarySources(primary)
    ensures done ==> primary == Success(response)
  {
    sources := [];
    response := Completion(None, None);
    done := false;
    if primary.Success? {
      response := primary.value;
      done := true;
      if response.annotations.Some? {
        var found, threw := CollectCitations(response.annotations.value);
        sources := found;
        done := !threw;
      }
    }
  }

  /**
   * `generateProspects`. `hasKey` tells whether `OPENAI_API_KEY` is set;
   * `primary` and `secondary` are what the two SDK calls return or throw;
   * `parse` is `JSON.parse` followed by the property assignments (None when
   * either throws); `iso` is `new Date().toISOString()`.
   */
  method GenerateProspects(input: ProspectingPrompt, hasKey: bool, primary: Result<Completion>, secondary: Result<Completion>,
                           parse: string -> Option<map<string, Json>>, iso: string)
    returns (r: Result<seq<Json>>, calls: seq<ModelName>)
    ensures !hasKey ==> r == Failure(KeyMissing) && calls == []
    ensures hasKey ==> calls == (if UsesSecondary(primary) then [SearchPreview, Gpt4] else [SearchPreview])
    ensures hasKey && Answer(primary, secondary).Failure? ==> r == Failure(Answer(primary, secondary).error)
    ensures hasKey && Answer(primary, secondary).Success? ==>
      var content := Answer(primary, secondary).value.content;
      && (!Truthy(content) ==> r == Failure(EmptyResponse))
      && (Truthy(content) ==>
            r == Success([JObj(Shape(input, content.value, parse(content.value), PrimarySources(primary), DatePart(iso)))]))
  {
    if !hasKey {
      return Failure(KeyMissing), [];
    }
    var response, sources, primaryDone := HandlePrimary(primary);
    calls := [SearchPreview];
    if !primaryDone {
      calls := calls + [Gpt4];
      if secondary.Failure? {
        return Failure(secondary.error), calls;
      }
      response := secondary.value;
    }
    assert Answer(primary, secondary) == Success(response);
    var content := response.content;
    if !Truthy(content) {
      return Failure(EmptyResponse), calls;
    }
    var currentDate := DatePart(iso);
    r := Success([JObj(Shape(input, content.value, parse(content.value), sources, currentDate))]);
  }

  // ---------------------------------------------------------------------------
  // Properties.

  /** The secondary model is called only when the primary call fails, and then no citation is kept. */
  lemma SourcesOnlyFromPrimary(primary: Result<Completion>)
    ensures primary.Failure? ==> UsesSecondary(primary) && PrimarySources(primary) == []
    ensures primary.Success? && primary.value.annotations.None? ==> !UsesSecondary(primary) && PrimarySources(primary) == []
    ensures primary.Success? && primary.value.annotations.Some? && !UsesSecondary(primary) ==>
      PrimarySources(primary) == CitationsOf(primary.value.annotations.value)
  {
    if primary.Success? && primary.value.annotations.Some? {
      var anns := primary.value.annotations.value;
      assert anns[..|anns|] == anns;
    }
  }

  /** Every record carries `id` 1 and the date part of the timestamp, and the found sources when there are any. */
  lemma ShapeStamps(input: ProspectingPrompt, content: string, parsed: Option<map<string, Json>>,
                    sources: seq<Citation>, date: string)
    ensures "id" in Shape(input, content, parsed, sources, date) && Shape(input, content, parsed, sources, date)["id"] == JNum(1)
    ensures "search_date" in Shape(input, content, parsed, sources, date)
    ensures Shape(input, content, parsed, sources, date)["search_date"] == JStr(date)
    ensures |sources| > 0 ==>
      "sources" in Shape(input, content, parsed, sources, date) && Shape(input, content, parsed, sources, date)["sources"] == SourcesJson(sources)
  {
    match parsed
    case Some(m) => StampedWith(ShapeParsed(m, date, sources), m["id" := JNum(1)]["search_date" := JStr(date)], sources, date);
    case None => StampedWith(FallbackRecord(input, sources, date, content), FallbackBody(input, content)["id" := JNum(1)]["search_date" := JStr(date)], sources, date);
  }

  /** A record built as `base + SourcesField(sources)` keeps `base`'s stamps and adds the sources. */
  lemma StampedWith(r: map<string, Json>, base: map<string, Json>, sources: seq<Citation>, date: string)
    requires r == base + SourcesField(sources)
    requires "id" in base && base["id"] == JNum(1) && "search_date" in base && base["search_date"] == JStr(date)
    ensures "id" in r && r["id"] == JNum(1) && "search_date" in r && r["search_date"] == JStr(date)
    ensures |sources| > 0 ==> "sources" in r && r["sources"] == SourcesJson(sources)
  {
  }

  /**
   * With no sources, the parsed object keeps whatever `sources` it had; the
   * other fields are the parsed ones except `id` and `search_date`.
   */
  lemma ShapeParsedKeeps(m: map<string, Json>, date: string, sources: seq<Citation>, k: string)
    requires k != "id" && k != "search_date" && (k == "sources" ==> |sources| == 0)
    ensures k in ShapeParsed(m, date, sources) <==> k in m
    ensures k in m ==> ShapeParsed(m, date, sources)[k] == m[k]
  {
  }

  /** The standard record has a `sources` field exactly when sources were found. */
  lemma FallbackSourcesIff(input: ProspectingPrompt, sources: seq<Citation>, date: string, content: string)
    ensures "sources" in FallbackRecord(input, sources, date, content) <==> |sources| > 0
  {
  }

  /** The standard record names the person, their company or "Unknown", and keeps the raw content. */
  lemma FallbackFields(input: ProspectingPrompt, sources: seq<Citation>, date: string, content: string)
    ensures FallbackRecord(input, sources, date, content)["full_name"] == JStr(input.name)
    ensures var role := FallbackRecord(input, sources, date, content)["professional_profile"];
      role.JObj? && "current_role" in role.fields && role.fields["current_role"].JObj?
      && "company" in role.fields["current_role"].fields
      && role.fields["current_role"].fields["company"] == JStr(if Truthy(input.company) then input.company.value else "Unknown")
    ensures FallbackRecord(input, sources, date, content)["raw_content"] == JObj(map["fullContent" := JStr(content)])
  {
  }
}
