# Resources page: a verified model

The Resources page lists the uploaded study documents, newest first. A search box and a
"bookmarked only" toggle narrow the list, and a pagination bar shows it six resources at a
time. Resources without a stored thumbnail get one rendered on the client and cached by id.
The page also lets a user upload a new resource (a PDF plus an optional thumbnail image) and
send a document's extracted text to the chat or quiz pages.

This project models the logic behind that page in Dafny:

- `text.dfy` (module `Text`): `toLowerCase` on ASCII letters, and `includes` as a
  left-to-right scan. A lemma proves the scan finds `q` exactly when `q` occurs at some
  offset.
- `catalog.dfy` (module `Catalog`): the `Resource` row and the filter effect.
  - `Keep` models `Array.prototype.filter`.
  - `FilterResources` chains the search filter and the bookmark filter as the effect does.
  - Lemmas prove that the result is exactly the order-preserving selection of the retained
    resources, characterise the search-only and bookmarked-only cases, and prove that the
    filter is idempotent.
- `page_strip.dfy` (module `PageStrip`): the loop-and-push routine that builds the numbers
  and "..." markers of the pagination bar. It is proved against its structural promises:
  - the strip starts at 1 and ends at the last page;
  - page numbers strictly increase;
  - a marker stands exactly where pages are skipped;
  - the set of shown pages is known;
  - the number of markers is known.
- `resources_page.dfy` (module `ResourcesPage`): class `Page` holds the state the handlers
  update in place: the draft form, the dialog and `uploading` flags, the thumbnail map, and
  session storage.
  - `HandleFileChange` is the MIME check of the two file inputs.
  - `GenerateThumbnails` / `ThumbnailStep` are the thumbnail effect, run one resource at a
    time.
  - `HandleSubmit` is the upload transaction. The stages are resolve the user, upload the
    PDF, upload the thumbnail if there is one, insert the row, then refetch. They run in
    order and stop at the first failure.
  - `HandlePdfAction` is document dispatch.
  - Each remote call is an input that says whether it succeeded and what it returned.
- `bookmarks.dfy` (module `Bookmarks`): the bookmark button. It chooses between the hook's
  remove and add, and the module shows how a toggle changes the bookmarked-only view.
- `wrappers.dfy` (module `Wrappers`): `Option`, for `T | null` values and calls that can fail.

Where the strip has more than three pages and the current page is the first or the last
one (or out of range), it holds a single "..." that is both "after page 1" and "before the
last page". So the contract ties each marker's position to the current page only when that
page is strictly inside. Otherwise it states the number of markers:
one for `currentPage > 2` plus one for `currentPage < totalPages - 1`.

Two modelling choices:

- Lower-casing follows the code's `toLowerCase` only on ASCII letters. The model does not
  do Unicode case mapping.
- The three session keys are written one after another, after text extraction has
  succeeded. The model therefore writes all three or none, and it does not model a failure
  of a single `setItem`.

The JavaScript truth tests are modelled as written:

- `!resource.thumbnail_url` holds for a null or an empty URL.
- `!thumbnails[id]` holds for a missing entry or an empty string.

## Model

| member | source | states |
|---|---|---|
| `Text.Lower` | src/pages/Resources.tsx:143-144 | `toLowerCase` keeps the length and lower-cases each character on its own (ASCII letters) |
| `Text.Includes` | src/pages/Resources.tsx:143-144 | the empty query is included in every string, and a string includes only queries no longer than itself |
| `Text.IncludesIffOccurs` | src/pages/Resources.tsx:143-144 | `includes` is true exactly when the query occurs in the text at some offset |
| `Text.LowerIdempotent` | src/pages/Resources.tsx:143-144 | lower-casing an already lower-cased string changes nothing |
| `Catalog.Keep` | src/pages/Resources.tsx:141-150 | `.filter` never lengthens the list and returns only elements of the list that pass the test; `KeepSelects` states the result exactly |
| `Catalog.KeepSelects` | src/pages/Resources.tsx:141-150 | `.filter` returns the elements at exactly the indices whose element passes, in increasing index order |
| `Catalog.KeepKeep` | src/pages/Resources.tsx:137-151 | two chained `.filter` calls equal one filter by the conjunction of their tests |
| `Catalog.KeepAll` | src/pages/Resources.tsx:141-150 | a filter that every element passes returns the list unchanged |
| `Catalog.MatchesQuery` | src/pages/Resources.tsx:142-144 | the search test holds exactly when the lower-cased query occurs at some offset of the lower-cased name or of the lower-cased description |
| `Catalog.FilterResources` | src/pages/Resources.tsx:136-153 | the shown list is no longer than the catalog and holds only catalog resources that pass the search (when the query is non-empty) and the bookmark test (when the toggle is on); `FilterIsOneKeep` and `FilterSelects` state it exactly |
| `Catalog.FilterIsOneKeep` | src/pages/Resources.tsx:136-153 | the effect's search step then bookmark step is one filter by `Retained` (query empty or matching, and bookmarked if the toggle is on) |
| `Catalog.FilterSelects` | src/pages/Resources.tsx:136-153 | the filtered list is the sub-list of the catalog at the indices of retained resources: nothing added, nothing reordered, nothing retained dropped |
| `Catalog.FilterIsSubsequence` | src/pages/Resources.tsx:137-153 | the filtered list is an order-preserving subsequence of the fetched catalog |
| `Catalog.FilterMembership` | src/pages/Resources.tsx:140-151 | a resource is shown exactly when it is in the catalog and passes both tests |
| `Catalog.FilterNothing` | src/pages/Resources.tsx:137-153 | an empty query with the toggle off shows the catalog unchanged |
| `Catalog.SearchOnlyMembership` | src/pages/Resources.tsx:140-146 | with the toggle off and a non-empty query, a resource is shown exactly when its lower-cased name or description contains the lower-cased query |
| `Catalog.BookmarkedViewWithinSearch` | src/pages/Resources.tsx:149-151 | the bookmarked-only view holds exactly the bookmarked resources of the search-only view, and is an order-preserving subsequence of it |
| `Catalog.FilterIdempotent` | src/pages/Resources.tsx:136-153 | filtering the filtered list again with the same inputs changes nothing |
| `Catalog.SearchIgnoresQueryCase` | src/pages/Resources.tsx:143-144 | a query and its lower-cased form match the same resources |
| `Catalog.SearchScenario` | src/pages/Resources.tsx:140-146 | "algebra" keeps "Algebra Notes" (by name) and "Calc" (by description "algebra review") in catalog order |
| `PageStrip.BuildPageStrip` | src/pages/Resources.tsx:613-644 | up to three pages the strip is exactly 1..totalPages (empty for 0); beyond three pages it satisfies `WideStrip`; in all cases numbers increase and "..." marks exactly the gaps |
| `PageStrip.WideStripFacts` | src/pages/Resources.tsx:621-643 | past three pages: 3 to 5 entries, first 1 and last totalPages, shown pages are {1, totalPages} plus the current page when in range, one "..." per skipped side |
| `ResourcesPage.Plan` | src/pages/Resources.tsx:213-265 | a full submission makes 4 calls, or 5 with a thumbnail: user lookup first; then the PDF upload to `<user id>/<stamp>-<file name>`; then, only when a thumbnail is chosen, its upload to `<user id>/thumbnails/<file name>`; then one insert; refetch last. Once the user and the PDF URL are known, the inserted row holds the draft's name and description, the PDF's public URL, the thumbnail's URL (null without a thumbnail) and the user id |
| `ResourcesPage.RunStages` | src/pages/Resources.tsx:215-265 | the remote calls made are a prefix of `Plan` in which every call but the last succeeded; all succeed iff every planned call succeeds, and then the whole plan ran; otherwise the last call made is the one that failed |
| `ResourcesPage.RouteFor` | src/pages/Resources.tsx:297 | "chat" goes to `/pdf-chat` and "quiz" to `/quiz` |
| `ResourcesPage.Page.constructor` | src/pages/Resources.tsx:68-84 | the page starts with no resources, no thumbnails, an empty draft, the dialog closed and not uploading |
| `ResourcesPage.Page.HandleFileChange` | src/pages/Resources.tsx:177-193 | no file changes nothing; a primary file without "pdf" or a thumbnail without "image" in its type is rejected with its notice and the draft unchanged; an accepted file replaces only its own slot; every file in the draft has passed its check |
| `ResourcesPage.Page.ThumbnailStep` | src/pages/Resources.tsx:120-129 | rendering is attempted exactly for a resource with no stored thumbnail and no cached one; success adds that id's thumbnail and leaves every other entry alone; failure leaves the map unchanged |
| `ResourcesPage.Page.GenerateThumbnails` | src/pages/Resources.tsx:118-133 | the renderer is asked about exactly the resources needing a thumbnail, in catalog order; the map gains exactly the ids rendered successfully, each holding a thumbnail rendered for that id; other entries and every cached thumbnail are untouched |
| `ResourcesPage.PassStep` | src/pages/Resources.tsx:119-131 | visiting one more resource keeps the effect's invariant on the map |
| `ResourcesPage.Page.HandleSubmit` | src/pages/Resources.tsx:211-272 | the outcome is "no file" exactly when the draft has no PDF, and then nothing happens. Otherwise the calls made are a fail-fast prefix of `Plan`, and success holds iff every planned call succeeds. On success the whole plan ran, the row inserted carries the draft's fields, the uploaded URLs and the user id, the dialog is closed and the draft is emptied. On failure there is one notice and the dialog and draft are unchanged. `uploading` ends false, and the draft keeps only checked files |
| `ResourcesPage.Page.HandlePdfAction` | src/pages/Resources.tsx:277-302 | navigation happens iff fetching and extraction succeed; then all three session keys hold the text, name and URL and the route matches the action; otherwise no key is written and one notice is shown |
| `Bookmarks.Apply` | src/pages/Resources.tsx:308-312 | an assumption about the bookmark hook, whose code is not part of this model: a successful add makes its id bookmarked, a successful remove makes it not bookmarked, and no other id changes |
| `Bookmarks.ToggleCall` | src/pages/Resources.tsx:307-313 | the button removes a bookmark that is present and adds one that is not, for that id |
| `Bookmarks.ToggleFlips` | src/pages/Resources.tsx:307-313 | a successful toggle flips the membership of its id and of no other id |
| `Bookmarks.ToggleTwice` | src/pages/Resources.tsx:307-313 | toggling twice restores the bookmark set |
| `Bookmarks.ToggleUpdatesBookmarkedView` | src/pages/Resources.tsx:149-154 | in the bookmarked-only view, un-bookmarking hides the resource and bookmarking a matching resource shows it, once the filter runs again |

## Left out

- Markup and styling (src/pages/Resources.tsx:318-690) are left out. This includes the inline
  handlers that set the search text, flip the bookmarked-only toggle, open the dialog and
  edit the draft's name and description. The `required` attribute on the name input is
  presentation and is not modelled.
- `fetchResources` (src/pages/Resources.tsx:159-175) is a network query. A successful submission
  records a `Refetch` call, but the new catalog it loads is not modelled.
- The storage upload, `getPublicUrl` and the table insert are not modelled. Each is one
  success-or-failure input carrying the URL it yields.
- `generatePdfThumbnail`, `fetch`, `response.blob()` and `extractTextFromPdf` are foreign code.
  They are inputs here: one render outcome per resource, a fetched flag and the extracted
  text.
- `sessionStorage` is a map field of the page. The model does not include a failing
  `setItem`, for example when the storage quota is exceeded.
- `Date.now()` in the storage path is the opaque `stamp` parameter.
- `alert`, `console.error` and `navigate` are not modelled as side effects. The notice text and
  the chosen route are returned as values.
- The `usePagination` and `useBookmarks` hooks are not part of this model. That leaves out
  the page count, clamping, next and previous, and the bookmark store's own loading and
  errors. `isBookmarked` is a membership test passed to the filter. `ITEMS_PER_PAGE` (6)
  is an input of the pagination hook only, and it is not modelled.
- The thumbnail effect's `forEach(async …)` runs its renders concurrently. The model visits
  the resources one at a time in catalog order, checks the map as it stood when the
  effect started, and writes each result into the current map. The model does not cover
  interleavings, or renders that finish after a later catalog load.
- Lower-casing handles only ASCII letters.
- `ResourcesPage.Page.GenerateThumbnails`: when two resources share an id, the contract says only
  that the stored thumbnail was rendered for some resource with that id. Which one wins is
  stated only for distinct ids, as the table's ids are.
