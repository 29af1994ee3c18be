# LeadGenAI prospect search, modelled in Dafny

LeadGenAI is a Next.js application. A user enters a person's name, and
optionally an email and a company. The application asks an OpenAI
web-search model for an HTML profile of that person and shows it.

This project models the logic around that one unreliable call:

- **Route** (`ProspectRoute`): the `POST /api/generate-prospects` handler.
  It validates the request, checks for the API key, and makes up to three
  sequential search attempts with exponential backoff. When the search
  cannot be done it serves a fixed fallback page.
- **Composer** (`ProfileComposer`, with `Completions`): `searchPersonInfo`.
  It collects `url_citation` annotations into a sources block, extracts the
  body of a fenced code block, strips leftover markers, and wraps the body
  in a header with the name and date.
- **Prospect shaper** (`Prospects`): `generateProspects`. The primary model
  is tried first and the secondary model only when the primary fails. It
  raises an error on empty content and shapes the parsed JSON, or a fixed
  fallback record, into a one-element result list.
- **Client cleaner and post-processor** (`Sanitizer`, `PostProcessor`):
  `cleanHtml`, and the effect that makes `h2` sections collapsible and sends
  links to a new tab.
- **Search page** (`HomePage`): the history list (save, load, delete, clear,
  filter), its `localStorage` mirror, and how a submission reacts to the
  route's reply.

`Wrappers` holds `Option` and `Result`. `Text` holds the JavaScript string
primitives the code relies on: the `\s`/`trim` whitespace class, `trim`,
`includes`, the first occurrence of a substring, and `toLowerCase`.

Each regular expression is written out as a recursive function over
`string`, with left-to-right, non-overlapping semantics. A lazy group ends at
the first closing fence:

- `/```html|```/g` in `Sanitizer.StripFences`
- `/(\r?\n){2,}/g` in `Sanitizer.CollapseBreaks`
- `/```html\s*([\s\S]*?)\s*```/` in `ProfileComposer.FencedCapture`
- `/^```|```$/g` in `ProfileComposer.DropEdges`

The SDK replies, `JSON.parse`, `fetch`, `localStorage` and the clock are
parameters of the operations that use them.

Two properties one might expect of this code do not hold, and the model
follows the code:

- A sanitiser is usually expected to be idempotent. Neither `cleanHtml` nor
  the composer's marker strip is, because each strips only one leading
  `html` word per call. `Sanitizer.CleanHtmlNotIdempotent` and
  `ProfileComposer.StripMarkersNotIdempotent` exhibit this. No idempotence
  is claimed for them.
- The heading pass and the link rewrite are idempotent
  (`PostProcessor.PassIdempotent`, `PostProcessor.FixNodesIdempotent`).
  However, the component never resets its `processedSections` flag. A new
  search clears the result first, so its html is shown by a freshly mounted
  view and is processed. An entry loaded from the history while a result is
  already shown reaches the mounted view, and its html is not processed at
  all (`PostProcessor.ResultView.Reload`).
- `cleanHtml` collapses runs of two or more line breaks, but its output can
  still hold two line breaks in a row: a "\n" before a lone "\r" is not part
  of a run (`Sanitizer.CollapseMayKeepBreakPair`). What the collapse does
  guarantee is that no two line feeds are adjacent.

## Model

| member | source | states |
|---|---|---|
| Text.TrimIsInfix | src/components/LeadResultDisplay.tsx:27 | `trim` removes only whitespace: its result is a slice of the input with whitespace on both sides. |
| Text.TrimEmptyIff | src/app/page.tsx:69 | `!searchTerm.trim()` holds exactly when every character of the term is whitespace. |
| Text.IndexOf | src/lib/openai-search.ts:233 | The first occurrence of a pattern at or after a position: it occurs there, nowhere earlier, and None means nowhere. |
| Text.Lower | src/app/page.tsx:74-80 | `toLowerCase` keeps the length and lower-cases each ASCII letter, leaving every other character as it is. |
| Sanitizer.StripFencesRemovesAll | src/components/LeadResultDisplay.tsx:21 | After the global fence removal no "```" substring remains anywhere. |
| Sanitizer.StripFencesPlain | src/components/LeadResultDisplay.tsx:21 | Text without backticks passes the fence removal unchanged, whatever follows it. |
| Sanitizer.StripFencesBlock | src/components/LeadResultDisplay.tsx:21 | A "```html … ```" block loses exactly its two fences. |
| Sanitizer.CleanHtmlOfFencedBlock | src/components/LeadResultDisplay.tsx:19-33 | Cleaning a fenced block gives the same result as cleaning its contents. |
| Sanitizer.StripLeadingTagEffect | src/components/LeadResultDisplay.tsx:24 | A leading `<html>` is dropped. Otherwise a leading `html` or `HTML` is dropped with all the whitespace after it, so the rest does not start with whitespace. Any other text is kept. |
| Sanitizer.CollapseNoBlankLine | src/components/LeadResultDisplay.tsx:30 | After collapsing, no two line feeds are adjacent. |
| Sanitizer.CollapsePlainPrefix | src/components/LeadResultDisplay.tsx:30 | Text without line breaks in front of any rest passes through collapsing unchanged. |
| Sanitizer.CollapseLoneBreak | src/components/LeadResultDisplay.tsx:30 | A single line break, "\n" or "\r\n", not followed by another is kept as it is. |
| Sanitizer.CollapseLongRun | src/components/LeadResultDisplay.tsx:30 | A whole run of two or more line breaks, not followed by another, becomes one "\n". |
| Sanitizer.CollapseMayKeepBreakPair | src/components/LeadResultDisplay.tsx:30 | "\n\n\r\r\n\n" collapses to "\n\r\n", which is itself a run of two line breaks: the output is free of adjacent line feeds, not of runs. |
| Sanitizer.CollapseKeepsText | src/components/LeadResultDisplay.tsx:30 | Collapsing changes only line breaks: every other character survives, in order. |
| Sanitizer.CollapseNoBreaks | src/components/LeadResultDisplay.tsx:30 | Text without line breaks is not changed by the collapse. |
| Sanitizer.CollapseKeepsNoFence | src/components/LeadResultDisplay.tsx:30 | Collapsing never creates a "```". |
| Sanitizer.CleanHtmlShape | src/components/LeadResultDisplay.tsx:19-33 | `cleanHtml` output has no "```", no leading or trailing whitespace, and no two adjacent line feeds. |
| Sanitizer.CleanHtmlDropsLeadingWord | src/components/LeadResultDisplay.tsx:24 | Of "html " followed by plain text, exactly the text is kept. |
| Sanitizer.CleanHtmlNotIdempotent | src/components/LeadResultDisplay.tsx:24 | "html html x" cleans to "html x" and then to "x": only one leading token is stripped per call. |
| Completions.Scanned | src/lib/openai-search.ts:194-201 | The loop gets through the annotations up to the first `null` one, where reading `type` throws. |
| Completions.CitationsOfMember | src/lib/openai-search.ts:194-201 | A citation is collected exactly when some annotation is a `url_citation` carrying it. |
| Completions.CitationsOfAppend | src/lib/openai-search.ts:194-201 | Collection is order-preserving: two runs of annotations give their citation lists one after the other. |
| Completions.CollectCitations | src/lib/openai-search.ts:192-201 | The `for … of` loop pushes, in order, the citations before the first `null` annotation, and reports whether it threw there. |
| ProfileComposer.FirstMatchAt | src/lib/openai-search.ts:233-235 | Where the expression first matches: the first opening fence and the first "```" after it; None only when no opening fence has a closing fence after it. |
| ProfileComposer.FencedCaptureNone | src/lib/openai-search.ts:233-235 | The capture is missing exactly when no opening fence has a closing fence after it. |
| ProfileComposer.FencedCaptureOfFirstMatch | src/lib/openai-search.ts:233-235 | Whenever a first opening fence with a later closing fence exists, the capture is that trimmed text. |
| ProfileComposer.FencedCaptureOfBlock | src/lib/openai-search.ts:233-241 | In text without other backticks, the capture of `a + open + t + "```" + b` is `t` trimmed. |
| ProfileComposer.ExtractBodyOfHtmlBlock | src/lib/openai-search.ts:232-236 | Content holding a "```html" block yields exactly the trimmed block body; the text outside it is dropped. This is the instance with no backtick before or inside the block; `ProfileComposer.FencedCaptureOfFirstMatch` states the general case. |
| ProfileComposer.ExtractBodyOfBareBlock | src/lib/openai-search.ts:237-242 | Without "```html", a bare "```" block yields exactly its trimmed body. |
| ProfileComposer.ExtractBodyWithoutFence | src/lib/openai-search.ts:229-243 | Content without any fence is left as it is. |
| ProfileComposer.DropLeading | src/lib/openai-search.ts:247-249 | An anchored `^p` replace removes one leading `p` when present and nothing otherwise. |
| ProfileComposer.DropTrailing | src/lib/openai-search.ts:247-249 | An anchored `p$` replace removes one trailing `p` when present and nothing otherwise. |
| ProfileComposer.StripMarkersInfix | src/lib/openai-search.ts:246-250 | Stripping markers trims a middle slice of the text: at most 13 characters (a fence, a word, an `<html>`) go from the front and at most 10 (an `</html>`, a fence) from the back. |
| ProfileComposer.StripMarkersOfHtmlTags | src/lib/openai-search.ts:249-250 | `<html>t</html>` becomes `t` trimmed. |
| ProfileComposer.StripMarkersOfPlain | src/lib/openai-search.ts:246-250 | Text that starts and ends with no marker character is only trimmed. |
| ProfileComposer.StripMarkersNotIdempotent | src/lib/openai-search.ts:248 | "htmlhtml" + x becomes "html" + x, and only a second pass gives x. |
| ProfileComposer.SourceItemsHaveLinks | src/lib/openai-search.ts:208-212 | The list holds a `<a href=url target="_blank">title</a>` item for every collected citation. |
| ProfileComposer.SourcesHtmlCases | src/lib/openai-search.ts:187-219 | The sources block is empty exactly when there are no annotations, the loop threw, or no citation was found; otherwise it links every citation. |
| ProfileComposer.WrapProfileShows | src/lib/openai-search.ts:253-261 | The wrapped page starts with the wrapper and shows the name in `<h1>`, "Last updated: " with the date, and the body followed by the sources. |
| ProfileComposer.ComposedHtmlNonEmpty | src/lib/openai-search.ts:253-265 | The composed page is never empty, so the route always finds a truthy html on a successful search. |
| ProfileComposer.NullContentIsEmpty | src/lib/openai-search.ts:184 | A null model content is treated as the empty string. |
| ProfileComposer.SearchPersonInfo | src/lib/openai-search.ts:172-270 | An API failure is rethrown unchanged; otherwise the result is the composed page and `searchDate` is the same date string. |
| ProspectRoute.CompanyItem | src/app/api/generate-prospects/route.ts:34 | The Company item is present exactly when `company` is truthy. |
| ProspectRoute.Attempts | src/app/api/generate-prospects/route.ts:84-99 | The number of attempts is between 1 and 3; every attempt before the last failed, and fewer than 3 means the last succeeded. |
| ProspectRoute.Schedule | src/app/api/generate-prospects/route.ts:84-110 | The trace of n attempts has 2n-1 steps and ends with the n-th search, with no delay after it. |
| ProspectRoute.Post | src/app/api/generate-prospects/route.ts:48-159 | An unreadable body gives the outer-catch fallback. A missing name gives 400 with only the error and no search. With no key, the key error and the fallback are returned and no search is made. Otherwise the attempts follow `Schedule`, and the reply is either the first successful html with no error, or the "unavailable" error with the last failure's message and the fallback. |
| ProspectRoute.LastErrorOfFailures | src/app/api/generate-prospects/route.ts:101-125 | `details` is the message of the last failed attempt. |
| ProspectRoute.ScheduleSteps | src/app/api/generate-prospects/route.ts:84-110 | The searches are attempts 1..n in order, and the delay after failed attempt k is 1000·2^(k-1). |
| ProspectRoute.TotalBackoff | src/app/api/generate-prospects/route.ts:105-110 | The delays of k retried attempts add up to 1000·(2^k - 1). |
| ProspectRoute.BackoffAtMost3000 | src/app/api/generate-prospects/route.ts:105-110 | With at most 3 attempts (the constant on line 5) the total delay is at most 3000 ms. |
| ProspectRoute.FallbackShowsName | src/app/api/generate-prospects/route.ts:13-46 | The fallback shows the name in `<h1>` and in the "What we know" list, and always ends with the same four suggestions. |
| ProspectRoute.FallbackCompanyIff | src/app/api/generate-prospects/route.ts:31-35 | The fallback has a Company item if and only if `company` is truthy, and it then names the company. |
| Prospects.DatePart | src/lib/openai.ts:381 | `split('T')[0]` is the longest prefix of the timestamp without a 'T'. |
| Prospects.SourcesJson | src/lib/openai.ts:386 | The `sources` array has one item per citation, in order. Each item is an object with exactly the keys `url` and `title`, holding the citation's url and title as strings. |
| Prospects.HandlePrimary | src/lib/openai.ts:319-346 | The primary reply is used exactly when neither the call nor its annotation loop throws; the sources pushed before any throw are kept. |
| Prospects.GenerateProspects | src/lib/openai.ts:147-434 | A missing key fails before any call. The secondary model is called only when the primary path throws, and its failure is rethrown. Empty content fails with "Empty response from API". Otherwise the result is a single record shaped from the parsed JSON or the fallback record. |
| Prospects.SourcesOnlyFromPrimary | src/lib/openai.ts:316-346 | When the primary call fails no citation is kept; when it succeeds without throwing, the sources are exactly its `url_citation` annotations, in order. |
| Prospects.ShapeStamps | src/lib/openai.ts:381-425 | Every record has `id` 1 and `search_date` equal to the date part, and the sources when there are any. |
| Prospects.ShapeParsedKeeps | src/lib/openai.ts:378-387 | Every other field of the parsed object is kept as it was. |
| Prospects.FallbackSourcesIff | src/lib/openai.ts:424 | The fallback record has `sources` exactly when sources were found. |
| Prospects.FallbackFields | src/lib/openai.ts:402-427 | The fallback record has `full_name` set to the input name, the company or "Unknown", and the raw content under `raw_content.fullContent`. |
| PostProcessor.Run | src/components/LeadResultDisplay.tsx:60-66 | The siblings taken into a new wrapper are all the non-heading nodes up to the next `h2`. |
| PostProcessor.Mark | src/components/LeadResultDisplay.tsx:46-52 | A processed heading is marked, keeps its text, has exactly one icon: the one it had, or ▼ when it had none, and has a click handler. (Also line 91.) |
| PostProcessor.PassWellFormed | src/components/LeadResultDisplay.tsx:54-84 | After the pass, every heading with a click handler is marked, has its icon, and is directly followed by the section it toggles. (Also line 91.) |
| PostProcessor.PassMarksAll | src/components/LeadResultDisplay.tsx:44-47 | After the pass every `h2` carries the `data-processed` marker. |
| PostProcessor.PassOfProcessed | src/components/LeadResultDisplay.tsx:46 | Headings already marked are skipped: a fully marked list is left unchanged. |
| PostProcessor.PassIdempotent | src/components/LeadResultDisplay.tsx:44-104 | Running the heading pass twice is running it once. |
| PostProcessor.PassKeepsContent | src/components/LeadResultDisplay.tsx:58-84 | Wrapping loses no element and reorders no element text: the sibling elements go into the wrapper in their original order. |
| PostProcessor.PassKeepsLinks | src/components/LeadResultDisplay.tsx:73-81 | Every link survives the wrapping, in order. |
| PostProcessor.FixAll | src/components/LeadResultDisplay.tsx:107-113 | After the rewrite every link has a target. A link that had one is unchanged; any other gets `_blank` and `noopener noreferrer`. |
| PostProcessor.FixNodesLinks | src/components/LeadResultDisplay.tsx:107-113 | Every link of the container, nested or not, is rewritten in document order. |
| PostProcessor.FixNodesContent | src/components/LeadResultDisplay.tsx:107-113 | The link rewrite leaves the text unchanged. |
| PostProcessor.FixNodesIdempotent | src/components/LeadResultDisplay.tsx:107-113 | A second link rewrite changes nothing. |
| PostProcessor.ToggleEffect | src/components/LeadResultDisplay.tsx:91-102 | A click flips only its heading's section, sets the icon to ► when hidden and ▼ when shown, and keeps the handlers' invariant. |
| PostProcessor.ToggleTwice | src/components/LeadResultDisplay.tsx:91-102 | Two clicks restore the section and the icon. |
| PostProcessor.ToggleKeepsContent | src/components/LeadResultDisplay.tsx:91-102 | Showing and hiding moves no text. |
| PostProcessor.ResultView.Mount | src/components/LeadResultDisplay.tsx:14-16 | The view starts with the parsed nodes and with `processedSections` false. |
| PostProcessor.ResultView.RunEffect | src/components/LeadResultDisplay.tsx:36-127 | Once the flag is set, the effect changes nothing. Otherwise it leaves the link-rewritten result of the heading pass and sets the flag. |
| PostProcessor.ResultView.MarkHeadings | src/components/LeadResultDisplay.tsx:42-104 | The heading-by-heading loop computes the heading pass. |
| PostProcessor.ResultView.ProcessHeading | src/components/LeadResultDisplay.tsx:46-84 | One heading is processed, and its section is wrapped unless one already follows. |
| PostProcessor.ResultView.FixLinks | src/components/LeadResultDisplay.tsx:107-113 | The loop over the nodes computes the link rewrite. |
| PostProcessor.ResultView.Click | src/components/LeadResultDisplay.tsx:91-102 | A click updates the nodes as `Toggle` says. |
| PostProcessor.ResultView.Reload | src/components/LeadResultDisplay.tsx:16 | New html reaching a mounted view replaces the nodes but keeps the flag, so a later effect run leaves them unprocessed. The page does this only for a history entry loaded while a result is shown. (Also lines 37, 127.) |
| HomePage.FilterMember | src/app/page.tsx:75-81 | An entry survives the filter exactly when it is in the history and its name, truthy company, truthy email or html contains the term. |
| HomePage.FilterAppend | src/app/page.tsx:75-81 | The filter keeps order: a concatenation filters part by part. |
| HomePage.FilterIdempotent | src/app/page.tsx:75-81 | Filtering twice with the same term is filtering once. |
| HomePage.FilterHistoryMember | src/app/page.tsx:68-84 | The listed entries are the whole history for a blank term, and otherwise the entries matching the lower-cased, untrimmed term. |
| HomePage.FilterHistoryIdempotent | src/app/page.tsx:68-84 | Applying the search to its own result changes nothing. |
| HomePage.FilterHistoryOfNewEntry | src/app/page.tsx:68-98 | A newly saved entry is listed first if it matches, and not at all otherwise; the rest of the list is unchanged. |
| HomePage.RemoveId | src/app/page.tsx:111 | Deleting keeps only entries of the history that do not carry the id. |
| HomePage.RemoveIdKeeps | src/app/page.tsx:111 | Every entry with a different id is kept. |
| HomePage.RemoveIdAbsent | src/app/page.tsx:111 | Deleting an id that no entry has leaves the history unchanged. |
| HomePage.RemoveIdAppend | src/app/page.tsx:111 | Deleting keeps order: a concatenation is deleted from part by part. |
| HomePage.RemoveIdFilter | src/app/page.tsx:75-81 | Deleting then filtering lists the same entries as filtering then deleting. (Also line 111.) |
| HomePage.SubmitOutcomeCases | src/app/page.tsx:146-165 | A result is shown exactly when the reply has non-empty html. It then has a "Note: " message exactly when the reply is not ok or names an error. Without html there is always a message. |
| HomePage.RouteRepliesShown | src/app/page.tsx:146-165 | A found profile is shown without a note. Each of the route's fallback pages is shown under a note naming the route's error. A missing name gives only that message. |
| HomePage.Home.Mount | src/app/page.tsx:26-54 | A saved list becomes the history. Unparsable text leaves the history empty and stores an empty list. |
| HomePage.Home.SetSearchTerm | src/app/page.tsx:68-84 | The new term is set (line 36) and the filtered list is recomputed. |
| HomePage.Home.SaveFrom | src/app/page.tsx:87-98 | The new entry, made from the form fields of the render the caller belongs to, goes in front of that render's history; storage holds the new list. |
| HomePage.Home.SaveToHistory | src/app/page.tsx:87-98 | The new entry, made from the form fields, goes first; previous entries are unchanged and in order; storage holds the new list. |
| HomePage.Home.LoadFromHistory | src/app/page.tsx:101-107 | The form gets the entry's name, with a missing email or company as ''. Its html is shown and the history panel closes. |
| HomePage.Home.DeleteHistoryEntry | src/app/page.tsx:110-114 | Exactly the entries with the id are removed, from the history and from storage. |
| HomePage.Home.ClearAllHistory | src/app/page.tsx:117-121 | The history, the filtered list and storage are all emptied. |
| HomePage.Home.StartSubmit | src/app/page.tsx:123-127 | Loading starts, and the message and result are cleared. The history and form fields of the current render are returned for the rest of the handler. |
| HomePage.Home.FinishSubmit | src/app/page.tsx:129-168 | A reply with html sets the result and the note, and is saved in front of the history seen at the start, overwriting changes made meanwhile. Other outcomes set only the message and keep a result loaded meanwhile. Loading ends. |
| HomePage.Home.HandleSubmit | src/app/page.tsx:123-169 | With nothing in between, the message and result are those of `SubmitOutcome`. A shown result is saved first in the history. Loading ends in every case. |

## Left out

- OpenAI SDK calls: each call's reply, or the error it throws, is a parameter (`Result<Completion>`, or the route's per-attempt `outcomes`). Prompt texts are not modelled.
- An empty `choices` array: the model assumes `choices[0]` exists, as the code does, so a reply carries only content and annotations.
- Clock and dates: `toLocaleDateString`, `toISOString` and `Date.now` are string parameters. `formatDate` (src/app/page.tsx:172-181) is host formatting and is not modelled.
- Sleeping: `setTimeout` is not modelled; each requested delay is recorded as a `Sleep` step of the returned trace.
- `JSON.parse`: the request body, the stored history and the model content arrive already parsed, or as a parse failure. In `generateProspects` a parsed value that is not an object is treated like a parse failure. A parsed JSON array is not modelled.
- `sources: undefined` in the fallback record is modelled as an absent key, which is how `JSON.stringify` renders it.
- `fetch`, `response.json()` and `localStorage` are parameters or the `stored` field. A thrown value that is not an `Error` is not modelled on the page, because `fetch` and `response.json()` throw `Error`s.
- ProspectRoute.Post: requires exactly three search outcomes, one per possible attempt; attempts after the first success read none of them.
- `Text.Lower`: lower-cases the ASCII range only; Unicode case mapping is not modelled.
- DOM and React: event listeners become the `clickable` flag of a heading; hover effects and cursor styling (src/components/LeadResultDisplay.tsx:86-88, 115-124) are not modelled. Theme, sidebar and JSX rendering are not modelled.
- PostProcessor.ResultView.RunEffect: `nodes` are the element children of one parent; the same pass over the children of every other parent is not composed into one document. An `h2` nested inside an element that an earlier heading's wrapper takes is not modelled: the wrapper gets a deep copy (src/components/LeadResultDisplay.tsx:74), the later visit changes only the detached original, and the copy stays unprocessed. The links inside a heading are not modelled. Parsing the cleaned html into nodes is not modelled; `Mount` and `Reload` take the parsed nodes, which carry no click handler.
- PostProcessor.PassKeepsContent: text nodes directly under the parent are not modelled. The wrap loop walks `nextElementSibling` (src/components/LeadResultDisplay.tsx:61-65), so such text stays where it was while the elements around it move into the wrapper; it then follows the wrapper instead of standing among those elements.
- PostProcessor.ResultView.FixLinks: rewrites the links node by node. The source visits them in `querySelectorAll('a')` order; the result is the same because each link's update is independent of the others.
- `src/app/api/test-openai/route.ts`, `src/app/layout.tsx`, `next.config.ts` and `setup.py` are not part of this model.
