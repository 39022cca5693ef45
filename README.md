# URL shortener: a Dafny model

This project models the logic of a small URL-shortening web application. A
visitor submits a long URL, optionally with a custom slug, and gets back
`<origin>/<slug>`. Visiting that link, either through the redirect page or
through the redirect edge function, sends the visitor to the stored URL and
adds one to the link's click count. The page also keeps the five most recent
links in local storage.

The hosted `urls` table is modelled as a class `Store.UrlTable` holding a
`map<string, Row>` keyed by slug. The browser pages become classes whose
fields are their component state. The pure parts are functions:
- URL normalisation;
- the slug sanitiser;
- the history update;
- the response choice of the edge function.

Modules, one per source file or shared concern:

- `Wrappers`: `Option`, standing for `undefined`/`null`.
- `Seqs`: `Filter`, `Take` (`slice(0, n)`) and subsequences, with their lemmas.
- `Text`: ECMAScript `String.prototype.trim`.
- `UrlForm`: `UrlShortenerForm.tsx`. It holds the `^https?://` rule, `validateUrl`, the custom-slug field and `handleSubmit`.
- `Store`: the `urls` table. It holds the single-row select, the insert and the click-count write.
- `ShortenPage`: `Index.tsx`. It holds normalisation, `generateRandomSlug`, the history and `handleShorten`.
- `RedirectPage`: `Redirect.tsx`, with `redirectToUrl`.
- `EdgeRedirect`: `supabase/functions/redirect/index.ts`, the request handler.
- `RoundTrip`: properties that span the components.

Things outside the program become parameters:
- The URL parser (`new URL`) is a function parameter. `parses` gives its verdict and `pathnameOf` gives the parsed pathname, or `None` when it throws.
- `Math.random()` is a sequence of draws, each in `[0, 1)`.
- The clock and the page origin are plain values.
- How each table call ends is a parameter: normally, with an `error`, or by throwing.

## Model

| member | source | states |
|---|---|---|
| Text.Trim | url-shortner/frontend/src/pages/Index.tsx:46 | the result has no whitespace at either end; it is the input with only whitespace removed before and after it; it is empty exactly when the input is all whitespace |
| Text.TrimIdempotent | url-shortner/frontend/src/components/UrlShortenerForm.tsx:32 | trimming twice gives the same string as trimming once |
| UrlForm.WithDefaultScheme | url-shortner/frontend/src/components/UrlShortenerForm.tsx:21 | the result matches `^https?://`; the input survives unchanged as its suffix; it is the input itself when the input already has a scheme, and `https://` + input otherwise |
| UrlForm.WithDefaultSchemeIdempotent | url-shortner/frontend/src/components/UrlShortenerForm.tsx:21 | applying the scheme rule to its own result changes nothing |
| UrlForm.ValidateUrl | url-shortner/frontend/src/components/UrlShortenerForm.tsx:18-27 | the URL check is the parser's verdict on the input itself when it has a scheme, and on `https://` + input otherwise |
| UrlForm.SanitizeSlug | url-shortner/frontend/src/components/UrlShortenerForm.tsx:95 | the sanitised slug holds only `[a-zA-Z0-9-_]`; it is a subsequence of the input; every allowed character keeps all its occurrences and every other character has none |
| UrlForm.SanitizeSlugKeepsSlugText | url-shortner/frontend/src/components/UrlShortenerForm.tsx:95 | input made only of allowed characters passes unchanged |
| UrlForm.SanitizeSlugIdempotent | url-shortner/frontend/src/components/UrlShortenerForm.tsx:95 | sanitising twice changes nothing |
| UrlForm.SlugFieldValue | url-shortner/frontend/src/components/UrlShortenerForm.tsx:95-98 | the custom-slug field never holds more than 30 characters; it holds only allowed characters; it is a subsequence of what was typed |
| UrlForm.HandleSubmit | url-shortner/frontend/src/components/UrlShortenerForm.tsx:29-44 | whitespace-only input gives "Please enter a URL" and nothing else does; a URL the check rejects gives the invalid-URL message; `onShorten` is called exactly when neither applies; it receives the raw URL, and the custom slug is absent exactly when the field is empty |
| UrlForm.FieldErrorAfterSubmit | url-shortner/frontend/src/components/UrlShortenerForm.tsx:29-44 | after a submit the URL field shows the message of the rejection, and it is cleared exactly when the URL goes to `onShorten` |
| Store.SelectSingle | url-shortner/frontend/src/pages/Redirect.tsx:26-30 | a row is found exactly when the call succeeds and the slug is a key, and it is that key's row; a throw is reported as a throw; a missing slug is reported as an error, never as empty data |
| Store.SetClickCount | url-shortner/frontend/src/pages/Redirect.tsx:50-53 | the update by slug sets that row's count to the given value and keeps its URL and creation time; every other row and the key set are unchanged |
| Store.CountVisit | url-shortner/frontend/supabase/functions/redirect/index.ts:43-46 | writing `(click_count or 0) + 1` raises that slug's count by exactly one and keeps its URL; no other row changes |
| Store.Visits | url-shortner/frontend/supabase/functions/redirect/index.ts:43-46 | repeated counted visits never add or remove rows |
| Store.VisitsCount | url-shortner/frontend/supabase/functions/redirect/index.ts:43-46 | after `n` counted visits the count is the old count plus `n`; the URL is unchanged and every other row is as before |
| Store.UrlTable.Select | url-shortner/frontend/src/pages/Index.tsx:56-60 | the table's single-row select finds a row exactly when the call succeeds and the slug is a key |
| Store.UrlTable.Insert | url-shortner/frontend/src/pages/Index.tsx:74-81 | the insert succeeds exactly when the call does not fail and the slug is not yet a key; then the table gains that one row, with the URL, the creation time and no count written; otherwise the table is unchanged |
| Store.UrlTable.UpdateClickCount | url-shortner/frontend/src/pages/Redirect.tsx:50-55 | a successful write is `SetClickCount`; a failed one leaves the table as it was |
| ShortenPage.NormalizeUrl | url-shortner/frontend/src/pages/Index.tsx:46-49 | the stored URL starts with `http://` or `https://`; it is the trimmed input when that already did, and `https://` + the trimmed input otherwise; it has no whitespace at either end |
| ShortenPage.ProcessUrl | url-shortner/frontend/src/pages/Index.tsx:46-49 | the trim-then-prefix steps yield `NormalizeUrl` of the input |
| ShortenPage.NormalizeUrlIdempotent | url-shortner/frontend/src/pages/Index.tsx:46-49 | normalising an already normalised URL changes nothing |
| ShortenPage.PickIndex | url-shortner/frontend/src/pages/Index.tsx:126 | `floor(random * 62)` is a valid position in the alphabet, and it is the floor of the product |
| ShortenPage.SlugFromDraws | url-shortner/frontend/src/pages/Index.tsx:122-129 | the slug built from six draws has six characters, all from `a-zA-Z0-9` |
| ShortenPage.GenerateRandomSlug | url-shortner/frontend/src/pages/Index.tsx:122-129 | the loop yields a six-character slug over the 62-character alphabet; character `i` is the one draw `i` picks |
| ShortenPage.DrawForIndex | url-shortner/frontend/src/pages/Index.tsx:126 | the draw `k / 62` is a possible random value, and it picks position `k` |
| ShortenPage.EveryGeneratedSlugIsDrawn | url-shortner/frontend/src/pages/Index.tsx:122-129 | every six-character string over the alphabet is produced by some draws, so the generator yields exactly the strings of that length and alphabet |
| ShortenPage.LoadHistory | url-shortner/frontend/src/pages/Index.tsx:25-32 | the loaded history is the first five stored entries, or all of them when fewer are stored; it is empty when nothing usable is stored |
| ShortenPage.PushRecent | url-shortner/frontend/src/pages/Index.tsx:36 | the new history has one to five entries; the new link comes first; no later entry has its slug; the later entries are a subsequence of the old history, so they keep their relative order |
| ShortenPage.PushRecentAddsOnlyLink | url-shortner/frontend/src/pages/Index.tsx:36 | every entry after the first was already in the old history |
| ShortenPage.PushRecentKeepsRecent | url-shortner/frontend/src/pages/Index.tsx:36 | an old entry whose slug differs from the new link's, with fewer than four such entries before it, is kept at position one plus their count, so the kept entries are exactly the first four with another slug |
| ShortenPage.PushRecentLosesNothing | url-shortner/frontend/src/pages/Index.tsx:36 | with fewer than five entries and a new slug, the result is the link followed by the whole old history |
| ShortenPage.PushRecentIdempotent | url-shortner/frontend/src/pages/Index.tsx:36 | saving the same link twice in a row gives the same history as saving it once |
| ShortenPage.PushRecentKeepsDistinctSlugs | url-shortner/frontend/src/pages/Index.tsx:36 | a history with no repeated slug still has none after saving |
| ShortenPage.ChosenSlug | url-shortner/frontend/src/pages/Index.tsx:51 | a non-empty custom slug is used as given; otherwise the slug is a generated one, six characters over the alphabet |
| ShortenPage.ChooseSlug | url-shortner/frontend/src/pages/Index.tsx:51 | the slug used is `ChosenSlug`: the generator runs only without a non-empty custom slug |
| ShortenPage.ClaimResult | url-shortner/frontend/src/pages/Index.tsx:54-101 | with the URL processed and the slug chosen: "slug taken" exactly when the slug is custom, its check succeeds and it is a key; a new link exactly when the check did not throw, the insert did not fail and the slug was free; the link carries that slug and URL, `origin + "/" + slug`, count 0 and the insert's creation time |
| ShortenPage.ClaimedRow | url-shortner/frontend/src/pages/Index.tsx:74-81 | a successful claim used a slug that was free and stores under it a row with the processed URL and no count |
| ShortenPage.ShortenResult | url-shortner/frontend/src/pages/Index.tsx:41-120 | the request ends with "slug taken" exactly when the custom slug is non-empty, its check succeeds and it is already a key, so a generated slug is never checked; it ends with a new link exactly when the check did not throw, the insert did not fail and the chosen slug was free; the link has the chosen slug, the normalised URL, `origin + "/" + slug`, count 0 and the insert's creation time |
| ShortenPage.RowsAfterShorten | url-shortner/frontend/src/pages/Index.tsx:74-81 | a successful shorten adds exactly the new slug to the table's keys; any other outcome leaves the table as it was |
| ShortenPage.IndexPage.constructor | url-shortner/frontend/src/pages/Index.tsx:23-33 | on mount the history is the loaded history, so it has at most five entries; no link is shown and nothing is loading |
| ShortenPage.IndexPage.SaveToHistory | url-shortner/frontend/src/pages/Index.tsx:35-39 | the history becomes `PushRecent` of the old one; local storage holds the same list; the five-entry bound is kept |
| ShortenPage.IndexPage.ClaimSlug | url-shortner/frontend/src/pages/Index.tsx:54-91 | the custom-slug check and the insert end as `ClaimResult` of the old table, and the table changes only by the new row of a success |
| ShortenPage.IndexPage.ShowOutcome | url-shortner/frontend/src/pages/Index.tsx:103-104 | on success the link is shown and saved to the history, which stays within five; otherwise the shown link, history and storage are unchanged |
| ShortenPage.IndexPage.Submit | url-shortner/frontend/src/pages/Index.tsx:42-118 | the table calls end as `ClaimResult` of the old table, the table gains only the new row of a success, the link is shown and saved on success only, and the busy flag is off at the end |
| ShortenPage.IndexPage.HandleShorten | url-shortner/frontend/src/pages/Index.tsx:41-120 | the outcome is `ShortenResult` of the old table; the table changes only by the new row; on success the shown link is the new one, the history is `PushRecent` of the old one, and local storage matches it; on "slug taken" or an error, the shown link, history and storage are unchanged; the busy flag is off at the end and the history stays within five |
| ShortenPage.ShortenedRow | url-shortner/frontend/src/pages/Index.tsx:74-81 | after a successful shorten the table holds, under a non-empty slug that was free before, a row with the normalised URL, the creation time and no count |
| ShortenPage.CustomSlugClaimedOnce | url-shortner/frontend/src/pages/Index.tsx:55-70 | a custom slug just claimed is refused when claimed again; the table stays as it was and the row keeps the first URL |
| ShortenPage.EmptySlugFieldGenerates | url-shortner/frontend/src/components/UrlShortenerForm.tsx:43 | an empty custom-slug field never leads to "slug taken"; a link it creates has the generated slug |
| ShortenPage.GeneratedCollisionFails | url-shortner/frontend/src/pages/Index.tsx:74-91 | a generated slug that is already a key makes the request fail; there is no retry |
| RedirectPage.ReactTo | url-shortner/frontend/src/pages/Redirect.tsx:32-61 | the page redirects exactly when the lookup found a row, and then to that row's stored URL |
| RedirectPage.Resolve | url-shortner/frontend/src/pages/Redirect.tsx:15-68 | the page redirects exactly when the slug is present and non-empty, the lookup succeeds and the slug is a key, and then to the stored URL; a missing slug gives the no-slug error; a throw gives the processing error; any other failure gives "URL not found in database" |
| RedirectPage.NoSlugNeedsNoLookup | url-shortner/frontend/src/pages/Redirect.tsx:16-20 | without a slug, the outcome is the no-slug error whatever the table holds or how its calls end |
| RedirectPage.RedirectView.constructor | url-shortner/frontend/src/pages/Redirect.tsx:10-12 | a new page is loading, with no error, no URL shown and no redirect made |
| RedirectPage.RedirectView.RedirectToUrl | url-shortner/frontend/src/pages/Redirect.tsx:15-68 | on an error: the error message is set, loading is off, and the shown URL, the browser location and the table are untouched; on success: the shown URL and the browser location become the stored URL, loading stays on, and the table changes by exactly one counted visit to that slug, or not at all when the write fails |
| EdgeRedirect.SlugOfPath | url-shortner/frontend/supabase/functions/redirect/index.ts:17 | the slug is the pathname with its first character removed; an empty pathname gives an empty slug |
| EdgeRedirect.Respond | url-shortner/frontend/supabase/functions/redirect/index.ts:9-66 | the status is 200, 302, 400, 404 or 500. 200 ("ok" with the CORS headers) exactly for OPTIONS. 400 exactly for an empty slug. 302 exactly when the lookup succeeds and the slug is a key, with `Location` the stored URL. 404 exactly when the lookup returns an error or finds no row. 500 exactly when the URL does not parse or the lookup throws |
| EdgeRedirect.InternalError | url-shortner/frontend/supabase/functions/redirect/index.ts:59-65 | the catch-all answer has status 500 and no `Location` |
| EdgeRedirect.PreflightNeedsNoLookup | url-shortner/frontend/supabase/functions/redirect/index.ts:11-13 | an OPTIONS request gets the same answer whatever the table holds or how its calls end |
| EdgeRedirect.EmptySlugNeedsNoLookup | url-shortner/frontend/supabase/functions/redirect/index.ts:19-21 | a request with an empty slug gets the same 400 whatever the table holds or how its calls end |
| EdgeRedirect.Serve | url-shortner/frontend/supabase/functions/redirect/index.ts:9-66 | the response is `Respond` of the old table; on a 302 with a successful write, the table changes by exactly one counted visit to that slug; otherwise the table is unchanged; a failed write still gives the 302 |
| RoundTrip.ShortenThenVisit | url-shortner/frontend/supabase/functions/redirect/index.ts:51-57 | after a successful shorten, a request for `/<slug>` gets a 302 to the normalised URL, the redirect page goes to the same URL, and the new row's count reads 0 |
| RoundTrip.VisitNewRow | url-shortner/frontend/supabase/functions/redirect/index.ts:33-57 | a row with a URL and no count yet is answered by the edge function with a 302 to that URL, the redirect page goes there too, and its count reads 0 |
| RoundTrip.RedirectPathsAgree | url-shortner/frontend/src/pages/Redirect.tsx:47-61 | for a path `/` + slug, the edge function answers 302 exactly when the redirect page redirects, and `Location` is the page's target |

## Left out

- The URL parser (`new URL`, the WHATWG URL Standard) is a parameter with no interpretation. `validateUrl` and the edge function's pathname come from it. The Express `validateUrl` middleware in `url-shortner/middleware/middleware.js` is only a call to that parser.
- `Math.random()` is left out. Its results are given as draws in `[0, 1)`. `Math.floor(d * 62)` is computed on exact reals, so double rounding is not modelled.
- Toasts, `console` logging, the clipboard, the one-second `setTimeout` before the redirect, and React rendering are left out. They are presentation.
- `ResultDisplay.tsx`, `UrlHistory.tsx`, the Express logger and error handler, and `middleware/server.js` are not part of this model. They are rendering, wiring or a stub endpoint with no state.
- Local storage holds a list of links or nothing. Nothing stored and a value that does not parse are both `None`, because both leave the history empty.
- The two races are left out: the click-count read-modify-write, and the custom-slug check before the insert. The model is sequential.
- The click-count write is fire-and-forget in the source. Here it takes effect, or fails and changes nothing, before the response or redirect.
- An insert is atomic: it either adds its row or reports a failure. An insert that throws and one that returns an error have the same effect, so both are `insertFails`.
- In `handleShorten`, the busy flag is set after the URL is processed and the slug chosen, not before. Those two steps change no state, so the order cannot be observed.
- In `handleShorten`, only the custom-slug check can throw. The other steps in its `try` do not throw in the model.
- In the edge function, an exception after the slug is extracted is modelled as the lookup throwing. Client creation and environment variables are folded into it, since all of them end in the same 500.
- The table schema is not part of this model. The slug is taken to be a unique key. `click_count` is not written on insert, and `created_at` is the clock value given to the insert.
- `maxLength={30}` counts UTF-16 code units. The model counts characters, which can differ only for input outside the Basic Multilingual Plane. The sanitised slug is ASCII, so the 30-character bound is the same either way.
- Store.UrlTable.Select: states only when a row is found. The full single-row result is given by `Store.SelectSingle`.

Behaviour of the code worth knowing:
- A generated slug that collides is not retried. The insert fails and the generic error toast is shown (`ShortenPage.GeneratedCollisionFails`).
- A collision at insert time is not turned into a "slug taken" result.
- There is no slug validation before shortening. The form's field only sanitises and caps its input. `handleShorten` accepts any custom slug it is given.
- `.single()` reports a missing slug as an error. So for an unknown slug the redirect page shows "URL not found in database", and its "does not exist" branch is unreachable.
- `validateUrl` checks the untrimmed input, while `handleShorten` stores the trimmed one.
