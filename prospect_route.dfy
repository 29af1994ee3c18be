/**
 * The `POST /api/generate-prospects` handler
 * (src/app/api/generate-prospects/route.ts): input validation, the API key
 * check, up to `MAX_RETRIES` sequential search attempts with exponential
 * backoff, and the fallback page served when the search cannot be done.
 *
 * The search is an oracle: `outcomes[k - 1]` is what attempt `k` returns
 * (the profile html, or the message of the error it throws). Nothing
 * sleeps; each requested delay is recorded in the returned trace.
 */
module ProspectRoute {
  import opened Wrappers
  import opened Text

  const MaxRetries: nat := 3

  /** The parsed request body `{ name, email, company }`. */
  datatype Body = Body(name: Option<string>, email: Option<string>, company: Option<string>)

  /** The JSON response: its status and the fields present in the body. */
  datatype Response = Response(status: int, error: Option<string>, details: Option<string>, html: Option<string>)

  /** What the handler does, in order: call the search (attempt number) or wait (milliseconds). */
  datatype Step = Search(attempt: nat) | Sleep(ms: nat)

  const NameRequired: string := "Name is required"
  const KeyRequired: string := "OpenAI API key is required for this operation. Please configure your API key."
  const Unavailable: string := "Search service unavailable after multiple attempts. Please try again later."
  const RequestError: string := "Request error, please try again"
  const UnknownPerson: string := "Unknown Person"

  // ---------------------------------------------------------------------------
  // Fallback page (src/app/api/generate-prospects/route.ts:13-46).

  const FallbackOpen: string := "\n  <div class=\"lead-profile\">\n    <div class=\"profile-header\">\n      "
  const FallbackDate: string := "\n      <p class=\"last-updated\">Last updated: "
  const FallbackIssue: string :=
    "</p>\n    </div>\n    \n    <div class=\"error-message\">\n      <h2>We encountered an issue retrieving information</h2>\n"
    + "      <p>We're sorry, but we couldn't retrieve the complete profile information at this time.</p>\n      \n"
    + "      <h3>What we know:</h3>\n      <ul>\n        "
  const Suggestions: string :=
    "\n      </ul>\n      \n      <h3>Suggestions:</h3>\n      <ul>\n"
    + "        <li>Try your search again in a few minutes</li>\n"
    + "        <li>Check your internet connection</li>\n"
    + "        <li>Verify the API key configuration</li>\n"
    + "        <li>Try a different name or company</li>\n"
    + "      </ul>\n    </div>\n  </div>"

  function NameItem(name: string): string {
    "<li><strong>Name:</strong> " + name + "</li>"
  }

  /** The Company item, present only for a truthy company. */
  function CompanyItem(company: Option<string>): (r: string)
    ensures r == "" <==> !Truthy(company)
  {
    if Truthy(company) then "<li><strong>Company:</strong> " + company.value + "</li>" else ""
  }

  /** The "What we know" list items. */
  function KnownItems(name: string, company: Option<string>): string {
    NameItem(name) + "\n        " + CompanyItem(company)
  }

  /** `generateFallbackHtml(name, company)`; the date string is a parameter. */
  function FallbackHtml(name: string, company: Option<string>, date: string): string {
    FallbackOpen + ("<h1>" + name + "</h1>") + FallbackDate + date + FallbackIssue + KnownItems(name, company) + Suggestions
  }

  // ---------------------------------------------------------------------------
  // Retry schedule (src/app/api/generate-prospects/route.ts:84-112).

  function Pow2(k: nat): (r: nat)
    ensures r >= 1
  {
    if k == 0 then 1 else 2 * Pow2(k - 1)
  }

  /** The delay requested after failed attempt `k`: `1000 * Math.pow(2, k - 1)`. */
  function Backoff(k: nat): nat
    requires k >= 1
  {
    1000 * Pow2(k - 1)
  }

  /** Attempts 1..k, each followed by the delay requested after it failed. */
  function Retried(k: nat): (t: seq<Step>)
    ensures |t| == 2 * k
  {
    if k == 0 then [] else Retried(k - 1) + [Search(k), Sleep(Backoff(k))]
  }

  /** The steps of a run that makes `n` attempts: the last attempt is not followed by a delay. */
  function Schedule(n: nat): (t: seq<Step>)
    requires n >= 1
    ensures |t| == 2 * n - 1 && t[|t| - 1] == Search(n)
  {
    Retried(n - 1) + [Search(n)]
  }

  /** How many attempts the loop makes: up to and including the first success, at most `MaxRetries`. */
  function Attempts(outcomes: seq<Result<string>>): (n: nat)
    requires |outcomes| == MaxRetries
    ensures 1 <= n <= MaxRetries
    ensures forall k :: 0 <= k < n - 1 ==> outcomes[k].Failure?
    ensures n < MaxRetries ==> outcomes[n - 1].Success?
  {
    if outcomes[0].Success? then 1 else if outcomes[1].Success? then 2 else 3
  }

  /** `String(lastError)`: the message of the last failure among `os`, or "null" when none failed. */
  function LastError(os: seq<Result<string>>): string {
    if os == [] then "null"
    else if os[|os| - 1].Failure? then os[|os| - 1].error
    else LastError(os[..|os| - 1])
  }

  // ---------------------------------------------------------------------------
  // The handler.

  /** The name the outer `catch` uses: the re-read body's truthy name, or "Unknown Person". */
  function SafeName(reread: Option<Body>): string {
    if reread.Some? && Truthy(reread.value.name) then reread.value.name.value else UnknownPerson
  }

  function SafeCompany(reread: Option<Body>): Option<string> {
    if reread.Some? then reread.value.company else None
  }

  /**
   * `POST`. `body` is the parsed request body, or the message of the error
   * parsing it threw; `reread` is what the outer `catch` gets when it reads
   * the body again; `hasKey` tells whether `OPENAI_API_KEY` is set.
   */
  method Post(body: Result<Body>, reread: Option<Body>, hasKey: bool, outcomes: seq<Result<string>>, today: string)
    returns (resp: Response, trace: seq<Step>)
    requires |outcomes| == MaxRetries
    ensures body.Failure? ==>
      (trace == [] &&
       resp == Response(200, Some(RequestError), Some(body.error), Some(FallbackHtml(SafeName(reread), SafeCompany(reread), today))))
    ensures body.Success? && !Truthy(body.value.name) ==>
      trace == [] && resp == Response(400, Some(NameRequired), None, None)
    ensures body.Success? && Truthy(body.value.name) && !hasKey ==>
      (trace == [] &&
       resp == Response(200, Some(KeyRequired), None, Some(FallbackHtml(body.value.name.value, body.value.company, today))))
    ensures body.Success? && Truthy(body.value.name) && hasKey ==>
      var n := Attempts(outcomes);
      && trace == Schedule(n)
      && (outcomes[n - 1].Success? && outcomes[n - 1].value != "" ==>
            resp == Response(200, None, None, Some(outcomes[n - 1].value)))
      && (!(outcomes[n - 1].Success? && outcomes[n - 1].value != "") ==>
            resp == Response(200, Some(Unavailable), Some(LastError(outcomes[..n])),
                             Some(FallbackHtml(body.value.name.value, body.value.company, today))))
  {
    trace := [];
    if body.Failure? {
      resp := Response(200, Some(RequestError), Some(body.error), Some(FallbackHtml(SafeName(reread), SafeCompany(reread), today)));
      return;
    }
    var name := body.value.name;
    var company := body.value.company;
    if !Truthy(name) {
      resp := Response(400, Some(NameRequired), None, None);
      return;
    }
    if !hasKey {
      resp := Response(200, Some(KeyRequired), None, Some(FallbackHtml(name.value, company, today)));
      return;
    }
    var lastError: Option<string> := None;
    var htmlResult: Option<string> := None;
    var attempt := 1;
    while attempt <= MaxRetries
      invariant 1 <= attempt <= MaxRetries + 1
      invariant forall k :: 0 <= k < attempt - 1 ==> outcomes[k].Failure?
      invariant htmlResult.None?
      invariant lastError == (if attempt == 1 then None else Some(outcomes[attempt - 2].error))
      invariant attempt <= MaxRetries ==> trace == Retried(attempt - 1)
      invariant attempt == MaxRetries + 1 ==> trace == Schedule(MaxRetries)
    {
      trace := trace + [Search(attempt)];
      var outcome := outcomes[attempt - 1];
      if outcome.Success? {
        htmlResult := Some(outcome.value);
        break;
      }
      lastError := Some(outcome.error);
      if attempt < MaxRetries {
        trace := trace + [Sleep(Backoff(attempt))];
      }
      attempt := attempt + 1;
    }
    var n := Attempts(outcomes);
    assert htmlResult.Some? ==> n == attempt;
    assert htmlResult.None? ==> n == MaxRetries;
    LastErrorOfFailures(outcomes[..n], lastError);
    if htmlResult.Some? && htmlResult.value != "" {
      resp := Response(200, None, None, htmlResult);
    } else {
      var details := if lastError.Some? then lastError.value else "null";
      resp := Response(200, Some(Unavailable), Some(details), Some(FallbackHtml(name.value, company, today)));
    }
  }

  /** The message kept in `lastError` is the last failure's, whichever way the loop ended. */
  lemma LastErrorOfFailures(os: seq<Result<string>>, lastError: Option<string>)
    requires os != []
    requires forall k :: 0 <= k < |os| - 1 ==> os[k].Failure?
    requires lastError == (if os[|os| - 1].Failure? then Some(os[|os| - 1].error)
                          else if |os| == 1 then None else Some(os[|os| - 2].error))
    ensures LastError(os) == (if lastError.Some? then lastError.value else "null")
  {
    if os[|os| - 1].Success? && |os| > 1 {
      assert os[..|os| - 1][|os| - 2] == os[|os| - 2];
    }
  }

  // ---------------------------------------------------------------------------
  // Properties of the schedule.

  /** The attempt numbers in a trace, in order. */
  function Searches(t: seq<Step>): (r: seq<nat>)
    ensures |r| <= |t|
  {
    if t == [] then []
    else (if t[0].Search? then [t[0].attempt] else []) + Searches(t[1..])
  }

  /** The delays in a trace, in order. */
  function Sleeps(t: seq<Step>): (r: seq<nat>)
    ensures |r| <= |t|
  {
    if t == [] then []
    else (if t[0].Sleep? then [t[0].ms] else []) + Sleeps(t[1..])
  }

  function Sum(xs: seq<nat>): nat {
    if xs == [] then 0 else xs[0] + Sum(xs[1..])
  }

  lemma {:induction false} SearchesAppend(a: seq<Step>, b: seq<Step>)
    ensures Searches(a + b) == Searches(a) + Searches(b)
  {
    if a == [] {
      assert a + b == b;
    } else {
      var h := if a[0].Search? then [a[0].attempt] else [];
      assert (a + b)[0] == a[0];
      assert (a + b)[1..] == a[1..] + b;
      SearchesAppend(a[1..], b);
      calc {
        Searches(a + b);
        h + Searches(a[1..] + b);
        h + (Searches(a[1..]) + Searches(b));
        (h + Searches(a[1..])) + Searches(b);
        Searches(a) + Searches(b);
      }
    }
  }

  lemma {:induction false} SleepsAppend(a: seq<Step>, b: seq<Step>)
    ensures Sleeps(a + b) == Sleeps(a) + Sleeps(b)
  {
    if a == [] {
      assert a + b == b;
    } else {
      var h := if a[0].Sleep? then [a[0].ms] else [];
      assert (a + b)[0] == a[0];
      assert (a + b)[1..] == a[1..] + b;
      SleepsAppend(a[1..], b);
      calc {
        Sleeps(a + b);
        h + Sleeps(a[1..] + b);
        h + (Sleeps(a[1..]) + Sleeps(b));
        (h + Sleeps(a[1..])) + Sleeps(b);
        Sleeps(a) + Sleeps(b);
      }
    }
  }

  lemma RetryPair(k: nat)
    requires k >= 1
    ensures Searches([Search(k), Sleep(Backoff(k))]) == [k]
    ensures Sleeps([Search(k), Sleep(Backoff(k))]) == [Backoff(k)]
  {
    assert [Search(k), Sleep(Backoff(k))][1..] == [Sleep(Backoff(k))];
  }

  /** Attempts 1, 2, ..., k are made in that order, each followed by the delay after it. */
  lemma {:induction false} RetriedSteps(k: nat)
    ensures |Searches(Retried(k))| == k && forall i :: 0 <= i < k ==> Searches(Retried(k))[i] == i + 1
    ensures |Sleeps(Retried(k))| == k && forall i :: 0 <= i < k ==> Sleeps(Retried(k))[i] == Backoff(i + 1)
  {
    if k > 0 {
      RetriedSteps(k - 1);
      SearchesAppend(Retried(k - 1), [Search(k), Sleep(Backoff(k))]);
      SleepsAppend(Retried(k - 1), [Search(k), Sleep(Backoff(k))]);
      RetryPair(k);
    }
  }

  /**
   * A run of `n` attempts calls the search exactly `n` times, strictly in the
   * order 1..n, and waits 1000 * 2^(k-1) ms after each failed attempt k < n
   * and after no other.
   */
  lemma ScheduleSteps(n: nat)
    requires n >= 1
    ensures |Searches(Schedule(n))| == n && forall i :: 0 <= i < n ==> Searches(Schedule(n))[i] == i + 1
    ensures |Sleeps(Schedule(n))| == n - 1 && forall i :: 0 <= i < n - 1 ==> Sleeps(Schedule(n))[i] == Backoff(i + 1)
  {
    RetriedSteps(n - 1);
    SearchesAppend(Retried(n - 1), [Search(n)]);
    SleepsAppend(Retried(n - 1), [Search(n)]);
  }

  /** The delays requested after attempts 1..k add up to 1000 * (2^k - 1) ms. */
  lemma {:induction false} TotalBackoff(k: nat)
    ensures Sum(Sleeps(Retried(k))) == 1000 * (Pow2(k) - 1)
  {
    if k > 0 {
      TotalBackoff(k - 1);
      SleepsAppend(Retried(k - 1), [Search(k), Sleep(Backoff(k))]);
      RetryPair(k);
      SumAppend(Sleeps(Retried(k - 1)), [Backoff(k)]);
      assert Sum([Backoff(k)]) == Backoff(k);
      assert Pow2(k) == 2 * Pow2(k - 1);
    }
  }

  lemma {:induction false} SumAppend(a: seq<nat>, b: seq<nat>)
    ensures Sum(a + b) == Sum(a) + Sum(b)
  {
    if a == [] {
      assert a + b == b;
    } else {
      assert (a + b)[1..] == a[1..] + b;
      SumAppend(a[1..], b);
    }
  }

  /** However the retries end, the handler waits at most 3000 ms in total (1000 then 2000). */
  lemma BackoffAtMost3000(n: nat)
    requires 1 <= n <= MaxRetries
    ensures Sum(Sleeps(Schedule(n))) == 1000 * (Pow2(n - 1) - 1) <= 3000
  {
    TotalBackoff(n - 1);
    SleepsAppend(Retried(n - 1), [Search(n)]);
    assert Sleeps([Search(n)]) == [];
    assert Sleeps(Retried(n - 1)) + [] == Sleeps(Retried(n - 1));
    assert Pow2(2) == 4;
  }

  // ---------------------------------------------------------------------------
  // Properties of the fallback page.

  /** The name appears in the heading and in the "What we know" list, and the page ends with the four suggestions. */
  lemma FallbackShowsName(name: string, company: Option<string>, date: string)
    ensures Contains(FallbackHtml(name, company, date), "<h1>" + name + "</h1>")
    ensures Contains(FallbackHtml(name, company, date), KnownItems(name, company))
    ensures StartsWith(KnownItems(name, company), NameItem(name))
    ensures EndsWith(FallbackHtml(name, company, date), Suggestions)
  {
    FallbackHasHeading(name, company, date);
    FallbackHasKnown(name, company, date);
    KnownStartsWithName(name, company);
    FallbackEndsWithSuggestions(name, company, date);
  }

  lemma KnownStartsWithName(name: string, company: Option<string>)
    ensures StartsWith(KnownItems(name, company), NameItem(name))
  {
    assert KnownItems(name, company)[..|NameItem(name)|] == NameItem(name);
  }

  lemma FallbackEndsWithSuggestions(name: string, company: Option<string>, date: string)
    ensures EndsWith(FallbackHtml(name, company, date), Suggestions)
  {
    var p := FallbackOpen + ("<h1>" + name + "</h1>") + FallbackDate + date + FallbackIssue + KnownItems(name, company);
    var w := p + Suggestions;
    assert w[|p|..] == Suggestions;
  }

  lemma FallbackHasHeading(name: string, company: Option<string>, date: string)
    ensures Contains(FallbackHtml(name, company, date), "<h1>" + name + "</h1>")
  {
    var h := "<h1>" + name + "</h1>";
    var k := KnownItems(name, company);
    ContainsSelf(h);
    ContainsAppend(h, FallbackOpen, h);
    var p := FallbackOpen + h;
    ContainsAppend(p, FallbackDate, h);
    p := p + FallbackDate;
    ContainsAppend(p, date, h);
    p := p + date;
    ContainsAppend(p, FallbackIssue, h);
    p := p + FallbackIssue;
    ContainsAppend(p, k, h);
    p := p + k;
    ContainsAppend(p, Suggestions, h);
  }

  lemma FallbackHasKnown(name: string, company: Option<string>, date: string)
    ensures Contains(FallbackHtml(name, company, date), KnownItems(name, company))
  {
    var k := KnownItems(name, company);
    var p := FallbackOpen + ("<h1>" + name + "</h1>") + FallbackDate + date + FallbackIssue;
    ContainsSelf(k);
    ContainsAppend(k, p, k);
    ContainsAppend(p + k, Suggestions, k);
  }

  /**
   * The list has a Company item exactly when the company is truthy, and it
   * shows that company; an absent or empty company gives the same page as
   * no company at all.
   */
  lemma FallbackCompanyIff(name: string, company: Option<string>, date: string)
    ensures KnownItems(name, company) == NameItem(name) + "\n        " <==> !Truthy(company)
    ensures Truthy(company) ==>
      EndsWith(KnownItems(name, company), "<li><strong>Company:</strong> " + company.value + "</li>")
    ensures FallbackHtml(name, company, date) == FallbackHtml(name, None, date) <==> !Truthy(company)
  {
    KnownCompanyIff(name, company);
    KnownCompanyIff(name, None);
    FallbackLength(name, company, date);
    FallbackLength(name, None, date);
  }

  lemma KnownCompanyIff(name: string, company: Option<string>)
    ensures KnownItems(name, company) == NameItem(name) + "\n        " <==> !Truthy(company)
    ensures |KnownItems(name, company)| == |NameItem(name) + "\n        "| + |CompanyItem(company)|
    ensures Truthy(company) ==>
      EndsWith(KnownItems(name, company), "<li><strong>Company:</strong> " + company.value + "</li>")
  {
    var k := KnownItems(name, company);
    if Truthy(company) {
      assert k[|k| - |CompanyItem(company)|..] == CompanyItem(company);
    }
  }

  /** The page is the fixed text around the heading, the date and the list. */
  lemma FallbackLength(name: string, company: Option<string>, date: string)
    ensures var pre := FallbackOpen + ("<h1>" + name + "</h1>") + FallbackDate + date + FallbackIssue;
      FallbackHtml(name, company, date) == pre + KnownItems(name, company) + Suggestions
      && |FallbackHtml(name, company, date)| == |pre| + |KnownItems(name, company)| + |Suggestions|
  {
  }
}
