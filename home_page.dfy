/**
 * The search page (src/app/page.tsx): the form state, the search history
 * kept in `localStorage` under `leadgeniusHistory`, the history filter, and
 * what a submission does with the route's reply.
 *
 * React state becomes the fields of `Home`; an effect that recomputes
 * `filteredHistory` whenever `history` or `searchTerm` changes is folded into
 * every method that changes either, so `Valid()` holds between events.
 * `localStorage` is the field `stored`; `Date.now()` and the ISO timestamp
 * are parameters.
 */
module HomePage {
  import opened Wrappers
  import opened Text
  import ProspectRoute

  /** The query part of a history entry; stored entries may lack `email` or `company`. */
  datatype Query = Query(name: string, email: Option<string>, company: Option<string>)

  /** `HistoryEntry` (lines 14-23). */
  datatype Entry = Entry(id: string, query: Query, timestamp: string, html: string)

  /**
   * What `localStorage.getItem('leadgeniusHistory')` holds: nothing (or the
   * empty string), a JSON list of entries, or text `JSON.parse` rejects.
   */
  datatype Stored = Missing | Saved(entries: seq<Entry>) | Corrupt

  /**
   * What a handler created in one render closes over: the history and the
   * form fields as they were in that render.
   */
  datatype Snapshot = Snapshot(history: seq<Entry>, query: Query)

  const NoteDefault: string := "There might have been an issue with the search, but we found some results"
  const NoContent: string := "Failed to search for person - no content found"

  // ---------------------------------------------------------------------------
  // The history filter (lines 68-84).

  /** The filter's test, for a term already lower-cased: name, company, email or the saved html contains it. */
  predicate Matches(e: Entry, term: string) {
    || Contains(Lower(e.query.name), term)
    || (Truthy(e.query.company) && Contains(Lower(e.query.company.value), term))
    || (Truthy(e.query.email) && Contains(Lower(e.query.email.value), term))
    || Contains(Lower(e.html), term)
  }

  /** `history.filter(...)`: the matching entries, in their order. */
  function Filter(h: seq<Entry>, term: string): (r: seq<Entry>)
    ensures |r| <= |h|
    ensures forall e :: e in r ==> e in h && Matches(e, term)
  {
    if h == [] then [] else (if Matches(h[0], term) then [h[0]] else []) + Filter(h[1..], term)
  }

  /** An entry survives the filter exactly when it is in the history and matches. */
  lemma {:induction false} FilterMember(h: seq<Entry>, term: string, e: Entry)
    ensures e in Filter(h, term) <==> e in h && Matches(e, term)
  {
    if h != [] {
      FilterMember(h[1..], term, e);
      assert h == [h[0]] + h[1..];
    }
  }

  /** Filtering a concatenation filters each part and keeps their order. */
  lemma {:induction false} FilterAppend(a: seq<Entry>, b: seq<Entry>, term: string)
    ensures Filter(a + b, term) == Filter(a, term) + Filter(b, term)
  {
    if a == [] {
      assert a + b == b;
    } else {
      TailOfAppend(a, b);
      FilterAppend(a[1..], b, term);
      var h := if Matches(a[0], term) then [a[0]] else [];
      Reassociate(h, Filter(a[1..], term), Filter(b, term));
    }
  }

  /** The tail of a concatenation with a non-empty front. */
  lemma TailOfAppend(a: seq<Entry>, b: seq<Entry>)
    requires a != []
    ensures (a + b)[0] == a[0] && (a + b)[1..] == a[1..] + b
  {
  }

  lemma Reassociate(x: seq<Entry>, y: seq<Entry>, z: seq<Entry>)
    ensures x + (y + z) == (x + y) + z
  {
  }

  /** Filtering twice with the same term is filtering once. */
  lemma {:induction false} FilterIdempotent(h: seq<Entry>, term: string)
    ensures Filter(Filter(h, term), term) == Filter(h, term)
  {
    if h != [] {
      FilterIdempotent(h[1..], term);
      var head := if Matches(h[0], term) then [h[0]] else [];
      FilterAppend(head, Filter(h[1..], term), term);
      if Matches(h[0], term) {
        assert head[1..] == [];
      }
    }
  }

  /**
   * `filteredHistory` as the effect computes it: the whole history when the
   * term trims to nothing (is all whitespace, by `Text.TrimEmptyIff`), otherwise the entries matching the
   * lower-cased (untrimmed) term.
   */
  function FilterHistory(h: seq<Entry>, searchTerm: string): (r: seq<Entry>)
    ensures |r| <= |h|
  {
    if AllSpace(searchTerm) then h else Filter(h, Lower(searchTerm))
  }

  /** The listed entries are those of the history that match the term, or all of them when it is blank. */
  lemma FilterHistoryMember(h: seq<Entry>, searchTerm: string, e: Entry)
    ensures e in FilterHistory(h, searchTerm) <==> e in h && (AllSpace(searchTerm) || Matches(e, Lower(searchTerm)))
  {
    if !AllSpace(searchTerm) {
      FilterMember(h, Lower(searchTerm), e);
    }
  }

  /** Applying the same search again to its own result changes nothing. */
  lemma FilterHistoryIdempotent(h: seq<Entry>, searchTerm: string)
    ensures FilterHistory(FilterHistory(h, searchTerm), searchTerm) == FilterHistory(h, searchTerm)
  {
    if !AllSpace(searchTerm) {
      FilterIdempotent(h, Lower(searchTerm));
    }
  }

  /** A new entry put at the front of the history is listed first when it matches, and not at all otherwise. */
  lemma FilterHistoryOfNewEntry(e: Entry, h: seq<Entry>, searchTerm: string)
    ensures FilterHistory([e] + h, searchTerm) ==
      (if AllSpace(searchTerm) || Matches(e, Lower(searchTerm)) then [e] else []) + FilterHistory(h, searchTerm)
  {
    if !AllSpace(searchTerm) {
      FilterAppend([e], h, Lower(searchTerm));
      assert [e][1..] == [];
    }
  }

  // ---------------------------------------------------------------------------
  // Deleting entries (lines 110-114).

  /** `history.filter(entry => entry.id !== id)`. */
  function RemoveId(h: seq<Entry>, id: string): (r: seq<Entry>)
    ensures |r| <= |h|
    ensures forall e :: e in r ==> e in h && e.id != id
  {
    if h == [] then []
    else (if h[0].id != id then [h[0]] else []) + RemoveId(h[1..], id)
  }

  /** Every entry of the history that does not carry the id is kept. */
  lemma {:induction false} RemoveIdKeeps(h: seq<Entry>, id: string, e: Entry)
    requires e in h && e.id != id
    ensures e in RemoveId(h, id)
  {
    if h[0] != e {
      RemoveIdKeeps(h[1..], id, e);
    }
  }

  /** Deleting an id no entry carries leaves the history as it was. */
  lemma {:induction false} RemoveIdAbsent(h: seq<Entry>, id: string)
    requires forall e :: e in h ==> e.id != id
    ensures RemoveId(h, id) == h
  {
    if h != [] {
      RemoveIdAbsent(h[1..], id);
      assert h == [h[0]] + h[1..];
    }
  }

  /** Deleting from a concatenation deletes from each part. */
  lemma {:induction false} RemoveIdAppend(a: seq<Entry>, b: seq<Entry>, id: string)
    ensures RemoveId(a + b, id) == RemoveId(a, id) + RemoveId(b, id)
  {
    if a == [] {
      assert a + b == b;
    } else {
      TailOfAppend(a, b);
      RemoveIdAppend(a[1..], b, id);
      var h := if a[0].id != id then [a[0]] else [];
      Reassociate(h, RemoveId(a[1..], id), RemoveId(b, id));
    }
  }

  /** Deleting then filtering lists the same entries as filtering then deleting. */
  lemma {:induction false} RemoveIdFilter(h: seq<Entry>, id: string, term: string)
    ensures Filter(RemoveId(h, id), term) == RemoveId(Filter(h, term), id)
  {
    if h != [] {
      RemoveIdFilter(h[1..], id, term);
      var kept := if h[0].id != id then [h[0]] else [];
      var matched := if Matches(h[0], term) then [h[0]] else [];
      FilterAppend(kept, RemoveId(h[1..], id), term);
      RemoveIdAppend(matched, Filter(h[1..], term), id);
      assert Filter(kept, term) == RemoveId(matched, id) by {
        if h[0].id != id {
          assert kept[1..] == [];
        }
        if Matches(h[0], term) {
          assert matched[1..] == [];
        }
      }
    }
  }

  // ---------------------------------------------------------------------------
  // What a submission shows (lines 146-165).

  /** The page's state after a submission settles: the message, the result and whether the result is saved. */
  datatype Outcome = Outcome(error: Option<string>, html: Option<string>)

  /** `response.ok`. */
  predicate Ok(status: int) {
    200 <= status <= 299
  }

  /**
   * `fetched` is the parsed reply of `POST /api/generate-prospects`, or the
   * message of the error `fetch` or `response.json()` threw.
   */
  function SubmitOutcome(fetched: Result<ProspectRoute.Response>): Outcome {
    match fetched
    case Failure(msg) => Outcome(Some(msg), None)
    case Success(data) =>
      if Truthy(data.html) then
        var note := if Truthy(data.error) || !Ok(data.status)
          then Some("Note: " + (if Truthy(data.error) then data.error.value else NoteDefault))
          else None;
        Outcome(note, data.html)
      else
        Outcome(Some(if Truthy(data.error) then data.error.value
                     else if Truthy(data.details) then data.details.value
                     else NoContent), None)
  }

  /**
   * A result is shown exactly when the reply carries non-empty html, and it
   * is that html; a shown result carries a note exactly when the reply is not
   * ok or names an error; with no result there is always a message, and a
   * non-empty one unless a thrown error had an empty message.
   */
  lemma SubmitOutcomeCases(fetched: Result<ProspectRoute.Response>)
    ensures SubmitOutcome(fetched).html.Some? <==> fetched.Success? && Truthy(fetched.value.html)
    ensures SubmitOutcome(fetched).html.Some? ==> SubmitOutcome(fetched).html == fetched.value.html
    ensures SubmitOutcome(fetched).html.Some? ==>
      (SubmitOutcome(fetched).error.Some? <==> Truthy(fetched.value.error) || !Ok(fetched.value.status))
    ensures SubmitOutcome(fetched).html.Some? && SubmitOutcome(fetched).error.Some? ==>
      StartsWith(SubmitOutcome(fetched).error.value, "Note: ")
    ensures SubmitOutcome(fetched).html.None? ==> SubmitOutcome(fetched).error.Some?
    ensures SubmitOutcome(fetched).html.None? && fetched.Success? ==> Truthy(SubmitOutcome(fetched).error)
  {
    if fetched.Success? && Truthy(fetched.value.html) && SubmitOutcome(fetched).error.Some? {
      var e := if Truthy(fetched.value.error) then fetched.value.error.value else NoteDefault;
      assert SubmitOutcome(fetched).error.value == "Note: " + e;
      assert ("Note: " + e)[..|"Note: "|] == "Note: ";
    }
  }

  /**
   * What the page makes of the route's replies: a found profile is shown
   * without a note; every fallback page the route serves (search
   * unavailable, no API key, unreadable request) is shown under a note
   * naming the route's error; a missing name leaves only that message.
   */
  lemma RouteRepliesShown(name: string, company: Option<string>, date: string, details: string, html: string)
    requires html != ""
    ensures SubmitOutcome(Success(ProspectRoute.Response(200, None, None, Some(html)))) == Outcome(None, Some(html))
    ensures var fallback := ProspectRoute.FallbackHtml(name, company, date);
      && SubmitOutcome(Success(ProspectRoute.Response(200, Some(ProspectRoute.Unavailable), Some(details), Some(fallback))))
         == Outcome(Some("Note: " + ProspectRoute.Unavailable), Some(fallback))
      && SubmitOutcome(Success(ProspectRoute.Response(200, Some(ProspectRoute.KeyRequired), None, Some(fallback))))
         == Outcome(Some("Note: " + ProspectRoute.KeyRequired), Some(fallback))
      && SubmitOutcome(Success(ProspectRoute.Response(200, Some(ProspectRoute.RequestError), Some(details), Some(fallback))))
         == Outcome(Some("Note: " + ProspectRoute.RequestError), Some(fallback))
    ensures SubmitOutcome(Success(ProspectRoute.Response(400, Some(ProspectRoute.NameRequired), None, None)))
      == Outcome(Some(ProspectRoute.NameRequired), None)
  {
    ProspectRoute.FallbackShowsName(name, company, date);
    assert |ProspectRoute.Suggestions| > 0;
    assert |ProspectRoute.Unavailable| > 0 && |ProspectRoute.KeyRequired| > 0;
    assert |ProspectRoute.RequestError| > 0 && |ProspectRoute.NameRequired| > 0;
  }

  // ---------------------------------------------------------------------------
  // The page component.

  class Home {
    var name: string
    var email: string
    var company: string
    var loading: bool
    var resultHtml: Option<string>
    var error: Option<string>
    var history: seq<Entry>
    var showHistory: bool
    var searchTerm: string
    var filteredHistory: seq<Entry>
    /** The `leadgeniusHistory` item of `localStorage`. */
    var stored: Stored

    /**
     * The state between events: the filter effect has run, and storage holds
     * the history (or nothing, before the first write with no saved history).
     */
    predicate Valid()
      reads this
    {
      && filteredHistory == FilterHistory(history, searchTerm)
      && (stored == Saved(history) || (stored == Missing && history == []))
    }

    /**
     * The first render and the mount effect (lines 26-65): a saved list
     * becomes the history; unparsable text is replaced by an empty list.
     */
    constructor Mount(saved: Stored)
      ensures Valid()
      ensures name == "" && email == "" && company == ""
      ensures !loading && resultHtml == None && error == None && !showHistory && searchTerm == ""
      ensures history == (if saved.Saved? then saved.entries else [])
      ensures stored == (if saved.Corrupt? then Saved([]) else saved)
    {
      name, email, company := "", "", "";
      loading := false;
      resultHtml := None;
      error := None;
      showHistory := false;
      searchTerm := "";
      match saved {
        case Missing =>
          history := [];
          stored := Missing;
        case Saved(entries) =>
          history := entries;
          stored := saved;
        case Corrupt =>
          history := [];
          stored := Saved([]);
      }
      filteredHistory := history;
    }

    /** Typing in the history search box; the filter effect follows. */
    method SetSearchTerm(term: string)
      requires Valid()
      modifies this
      ensures Valid()
      ensures searchTerm == term && filteredHistory == FilterHistory(history, term)
      ensures history == old(history) && stored == old(stored)
      ensures name == old(name) && email == old(email) && company == old(company)
      ensures loading == old(loading) && resultHtml == old(resultHtml) && error == old(error)
      ensures showHistory == old(showHistory)
    {
      searchTerm := term;
      filteredHistory := FilterHistory(history, term);
    }

    /** The history and the form fields a handler created now would see. */
    function Seen(): (v: Snapshot)
      reads this
      ensures v.history == history && v.query.name == name
      ensures v.query.email == Some(email) && v.query.company == Some(company)
    {
      Snapshot(history, Query(name, Some(email), Some(company)))
    }

    /**
     * `saveToHistory` (lines 87-98) as called from a handler of the render
     * `seen` describes: the new entry, made from that render's form fields,
     * goes in front of that render's history, and storage is rewritten with
     * the new list.
     */
    method SaveFrom(seen: Snapshot, html: string, id: string, timestamp: string)
      requires Valid()
      modifies this
      ensures Valid()
      ensures history == [Entry(id, seen.query, timestamp, html)] + seen.history
      ensures stored == Saved(history)
      ensures searchTerm == old(searchTerm)
      ensures name == old(name) && email == old(email) && company == old(company)
      ensures loading == old(loading) && resultHtml == old(resultHtml) && error == old(error)
      ensures showHistory == old(showHistory)
    {
      history := [Entry(id, seen.query, timestamp, html)] + seen.history;
      stored := Saved(history);
      filteredHistory := FilterHistory(history, searchTerm);
    }

    /**
     * `saveToHistory` (lines 87-98) called in the current render: the new
     * entry, made from the current form fields, goes first.
     */
    method SaveToHistory(html: string, id: string, timestamp: string)
      requires Valid()
      modifies this
      ensures Valid()
      ensures history == [Entry(id, Query(name, Some(email), Some(company)), timestamp, html)] + old(history)
      ensures stored == Saved(history)
      ensures searchTerm == old(searchTerm)
      ensures name == old(name) && email == old(email) && company == old(company)
      ensures loading == old(loading) && resultHtml == old(resultHtml) && error == old(error)
      ensures showHistory == old(showHistory)
    {
      SaveFrom(Seen(), html, id, timestamp);
    }

    /** `loadFromHistory` (lines 101-107): the entry's query fills the form and its html is shown again. */
    method LoadFromHistory(entry: Entry)
      requires Valid()
      modifies this
      ensures Valid()
      ensures name == entry.query.name
      ensures email == (if Truthy(entry.query.email) then entry.query.email.value else "")
      ensures company == (if Truthy(entry.query.company) then entry.query.company.value else "")
      ensures resultHtml == Some(entry.html) && !showHistory
      ensures history == old(history) && filteredHistory == old(filteredHistory) && stored == old(stored)
      ensures searchTerm == old(searchTerm) && loading == old(loading) && error == old(error)
    {
      name := entry.query.name;
      email := if Truthy(entry.query.email) then entry.query.email.value else "";
      company := if Truthy(entry.query.company) then entry.query.company.value else "";
      resultHtml := Some(entry.html);
      showHistory := false;
    }

    /** `deleteHistoryEntry` (lines 110-114): every entry with the id goes, from the history and from storage. */
    method DeleteHistoryEntry(id: string)
      requires Valid()
      modifies this
      ensures Valid()
      ensures history == RemoveId(old(history), id) && stored == Saved(history)
      ensures forall e :: e in history ==> e.id != id
      ensures searchTerm == old(searchTerm)
      ensures name == old(name) && email == old(email) && company == old(company)
      ensures loading == old(loading) && resultHtml == old(resultHtml) && error == old(error)
      ensures showHistory == old(showHistory)
    {
      history := RemoveId(history, id);
      stored := Saved(history);
      filteredHistory := FilterHistory(history, searchTerm);
    }

    /** `clearAllHistory` (lines 117-121). */
    method ClearAllHistory()
      requires Valid()
      modifies this
      ensures Valid()
      ensures history == [] && filteredHistory == [] && stored == Saved([])
      ensures searchTerm == old(searchTerm)
      ensures name == old(name) && email == old(email) && company == old(company)
      ensures loading == old(loading) && resultHtml == old(resultHtml) && error == old(error)
      ensures showHistory == old(showHistory)
    {
      history := [];
      filteredHistory := [];
      stored := Saved([]);
    }

    /**
     * The synchronous start of `handleSubmit` (lines 123-127): loading is
     * on, the message and the result are cleared. The handler goes on with
     * the history and form fields of the render it was created in, which
     * are returned.
     */
    method StartSubmit() returns (seen: Snapshot)
      requires Valid()
      modifies this
      ensures Valid() && seen == old(Seen())
      ensures loading && error.None? && resultHtml.None?
      ensures history == old(history) && stored == old(stored) && filteredHistory == old(filteredHistory)
      ensures searchTerm == old(searchTerm) && showHistory == old(showHistory)
      ensures name == old(name) && email == old(email) && company == old(company)
    {
      seen := Seen();
      loading := true;
      error := None;
      resultHtml := None;
    }

    /**
     * The rest of `handleSubmit` (lines 129-168), once the request has
     * settled, possibly after other events: a reply with html sets the note
     * and the result, and is saved in front of the history `seen` at the
     * start, so entries saved, deleted or cleared meanwhile are overwritten;
     * any other outcome sets only the message, leaving a result loaded
     * meanwhile on show. Loading ends in every case.
     */
    method FinishSubmit(seen: Snapshot, fetched: Result<ProspectRoute.Response>, id: string, timestamp: string)
      requires Valid()
      modifies this
      ensures Valid()
      ensures var out := SubmitOutcome(fetched);
        && error == (if out.error.Some? then out.error else old(error))
        && resultHtml == (if out.html.Some? then out.html else old(resultHtml))
      ensures !loading
      ensures SubmitOutcome(fetched).html.Some? ==>
        history == [Entry(id, seen.query, timestamp, resultHtml.value)] + seen.history
        && stored == Saved(history)
      ensures SubmitOutcome(fetched).html.None? ==> history == old(history) && stored == old(stored)
      ensures searchTerm == old(searchTerm) && showHistory == old(showHistory)
      ensures name == old(name) && email == old(email) && company == old(company)
    {
      match fetched {
        case Failure(msg) =>
          error := Some(msg);
        case Success(data) =>
          if Truthy(data.html) {
            if Truthy(data.error) || !Ok(data.status) {
              error := Some("Note: " + (if Truthy(data.error) then data.error.value else NoteDefault));
            }
            resultHtml := data.html;
            SaveFrom(seen, data.html.value, id, timestamp);
          } else {
            error := Some(if Truthy(data.error) then data.error.value
                          else if Truthy(data.details) then data.details.value
                          else NoContent);
          }
      }
      loading := false;
    }

    /**
     * `handleSubmit` (lines 123-169) when nothing else happens while the
     * request is in flight: the message and result are those of
     * `SubmitOutcome`, a shown result is saved first in the history with the
     * given id and timestamp, and loading ends.
     */
    method HandleSubmit(fetched: Result<ProspectRoute.Response>, id: string, timestamp: string)
      requires Valid()
      modifies this
      ensures Valid()
      ensures error == SubmitOutcome(fetched).error && resultHtml == SubmitOutcome(fetched).html
      ensures !loading
      ensures resultHtml.Some? ==>
        history == [Entry(id, Query(name, Some(email), Some(company)), timestamp, resultHtml.value)] + old(history)
        && stored == Saved(history)
      ensures resultHtml.None? ==> history == old(history) && stored == old(stored)
      ensures searchTerm == old(searchTerm) && showHistory == old(showHistory)
      ensures name == old(name) && email == old(email) && company == old(company)
    {
      var seen := StartSubmit();
      FinishSubmit(seen, fetched, id, timestamp);
    }
  }
}
