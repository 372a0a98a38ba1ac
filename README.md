# QR-code Q&A board: a Dafny model

This project models the logic of a small live Q&A board. Attendees open a
session link, type questions, and see a feed of today's questions. Each
question can be marked resolved or re-opened.

Two halves are modelled, one Dafny module per source file.

The browser client:
- `IndexPage` models the page. It projects fetched records into feed
  questions: the id becomes a decimal string, the timestamp moves nine hours
  on, and only the first record is marked new. It also builds the toggle
  request and the session link. The two mutations sit on a small
  `MutationCoordinator` class, which logs every attempt and every
  `["questions"]` invalidation.
- `QuestionInput` models the submit form as a class holding the typed text.
- `QuestionFeed` models the feed as a pure choice of panels and card styles.
- `Api` models how the backend base URL is resolved.

The backend:
- `QuestionModel` is the `questions` row and its column defaults.
- `Backend` is the in-memory table class with startup, prune, create and list.
  It also holds the KST-midnight cutoff, the newest-first sort and the route
  table.

Two helper modules support them. `Strings` holds JavaScript's `trim` and
integer `toString`. `Wrappers` holds `Option`.

`Wire` joins the two halves.
It proves what the client sees of a table through `GET /questions`.

Backend times are whole UTC epoch seconds. Client times are epoch
milliseconds. The clock ("now"), the outcome of every network call, the
build-time `VITE_API_URL`, and the browser's `window` are parameters.

Mismatches between client and server are modelled as the code has them, not
fixed:
- `GET /questions` sends no `is_resolved`, so the client reads `undefined`.
  Every client use of the flag (a ternary, a `!`) treats that as `false`.
  `Wire.ServedQuestionsLookUnresolved` proves that every card therefore looks
  unresolved, and that every click asks for `true`.
- The backend has no `PATCH` route, but the client toggles with
  `PATCH /questions/{id}` (`Wire.ToggleHasNoRoute`). `Wire.ToggleAgainstBackend`
  proves that such a toggle is logged as failed and invalidates nothing.
- `POST /questions` answers `{message, id}`, not the created record
  (`Backend.CreateResponse`). The client ignores the body.
- The backend sends `created_at` as a naive UTC time with no zone. The client
  parses it with `new Date(...)`, which reads it as browser-local time. It
  then adds nine hours and formats in `Asia/Seoul`, which adds nine more.
  The browser's zone offset is a parameter. `Wire.ShownClock` proves the shown
  clock is the UTC creation time plus 18 hours minus that offset. On a UTC
  browser the clock is 18 hours ahead (`Wire.ShownClockOnUtcBrowser`). On a
  KST browser it is the correct Seoul time (`Wire.ShownClockOnKstBrowser`).

Behaviour the code does not have:
- The client does not sort. It shows the list in the order the server sends.
- `isNew` is purely positional. There is no timed highlight-clearing.
- The backend stores content without trimming it or checking that it is
  non-empty.
- There is no connection health check beyond a random heartbeat, which is
  left out.

## Model

| member | source | states |
|---|---|---|
| QuestionModel.NewQuestion | backend/models.py:17-22 | a new row carries the given key and content unchanged, and the column defaults `is_resolved = false` and `created_at =` the insertion time |
| Backend.KstMidnightUtc | backend/main.py:53-60 | the cutoff is a KST midnight (`(cutoff + 32400) % 86400 == 0`) at most one day before now: `cutoff <= now < cutoff + 86400` |
| Backend.CutoffUnique | backend/main.py:58-60 | no other instant has both properties, so they determine today's KST midnight |
| Backend.Pruned | backend/main.py:62-66 | a row remains exactly when it was in the table and was created at or after the cutoff; pruning never adds rows |
| Backend.PrunedDistributes | backend/main.py:62-66 | pruning works row by row, so it keeps the relative order of the rows it keeps |
| Backend.PrunedKeepsRecent | backend/main.py:62-66 | a table holding only rows from after the cutoff is left exactly as it is |
| Backend.PrunedTwice | backend/main.py:62-66 | pruning at an earlier cutoff and then a later one equals pruning once at the later one |
| Backend.PruneIdempotent | backend/main.py:56-66 | pruning twice at the same now equals pruning once |
| Backend.PrunedUniqueIds | backend/models.py:17 | deleting rows keeps primary keys unique |
| Backend.MaxId | backend/models.py:17 | no row's key exceeds the result, which is never negative; it is 0 or a key the table holds, so for a table of positive keys (the table's invariant) it is the largest key, and 0 when empty |
| Backend.NextRowId | backend/models.py:17 | the key SQLite gives a new row is positive and held by no row in the table |
| Backend.InsertByAge | backend/main.py:123 | inserting into a newest-first list keeps it newest first, adds exactly that row, and puts either it or the old head first |
| Backend.SortNewestFirst | backend/main.py:123 | `order_by(created_at.desc())` yields a newest-first permutation of the rows |
| Backend.SortTiesLaterRowFirst | backend/main.py:123 | of two rows stamped in the same second, the one stored later is listed first |
| Backend.InsertKeepsUniqueIds | backend/main.py:123 | inserting a row under a new key keeps keys unique |
| Backend.SortKeepsUniqueIds | backend/main.py:123 | sorting never duplicates a row, so keys stay unique |
| Backend.ListedOf | backend/main.py:125 | an entry carries its row's id, content and created_at, and nothing else |
| Backend.Listing | backend/main.py:124-127 | the response has one entry per row |
| Backend.ListingAt | backend/main.py:125 | each entry holds only its row's id, content and created_at, without `is_resolved` |
| Backend.ListingInsert | backend/main.py:123-127 | inserting a row into the sorted rows adds exactly that row's entry to the response |
| Backend.ListingNewestFirst | backend/main.py:123-127 | rows in newest-first order give entries in newest-first order |
| Backend.ListingPermuted | backend/main.py:123-127 | the entries of the sorted rows are a permutation of the entries of the table's rows |
| Backend.ListingOfSorted | backend/main.py:122-127 | the `GET /questions` body is newest first and has exactly one entry per remaining row |
| Backend.Route | backend/main.py:105-127 | of the routes `backend/main.py` declares, exactly `GET /health`, `POST /questions` and `GET /questions` reach a handler |
| Backend.NoPatchRoute | backend/main.py:105-127 | no `PATCH` request, on any path, has a handler |
| Backend.QuestionTable.constructor | backend/main.py:18 | the table starts as the database file holds it, with unique positive keys |
| Backend.QuestionTable.Startup | backend/main.py:82-87 | after startup the table is empty |
| Backend.QuestionTable.PruneOldQuestions | backend/main.py:56-68 | the table becomes the pruned old table, and every remaining row was created at or after today's KST midnight |
| Backend.QuestionTable.CreateQuestion | backend/main.py:110-117 | prune first, then append exactly one row: the content unchanged, unresolved, stamped now, under a key no remaining row holds; the response carries that key and the fixed message |
| Backend.QuestionTable.GetQuestions | backend/main.py:120-127 | prune first, then return the remaining rows newest first as id, content and created_at entries |
| Backend.CreatedRowSurvivesSameDay | backend/main.py:112-116 | a question created now survives any later prune on the same KST day |
| Api.SanitizeUrl | QR_Code_Question/src/lib/api.ts:3 | a URL ending in `/` loses exactly its last character; any other URL is returned unchanged |
| Api.SanitizeStripsOnlyOne | QR_Code_Question/src/lib/api.ts:3 | only one slash goes: `base + "//"` becomes `base + "/"` |
| Api.ResolveApiBaseUrl | QR_Code_Question/src/lib/api.ts:5-26 | a non-empty env URL wins, sanitised; otherwise a window gives `protocol//hostname:8000`; otherwise `http://localhost:8000` |
| Api.ResolveIgnoresPort | QR_Code_Question/src/lib/api.ts:17-22 | both port branches give the same URL, so the page's port never matters |
| Api.ResolvedEnvUrlNoTrailingSlash | QR_Code_Question/src/lib/api.ts:6-9 | a configured URL that does not end in `//` resolves to one without a trailing slash |
| QuestionFeed.StyleOf | QR_Code_Question/src/components/QuestionFeed.tsx:67-73 | resolved gives the success style whatever the newness or position; otherwise new or first gives the highlighted style; otherwise plain; each as an iff |
| QuestionFeed.CardFor | QR_Code_Question/src/components/QuestionFeed.tsx:64-107 | a card shows its question's key, content and time; it is struck through and labelled "undo" iff resolved; its button is disabled iff `isUpdating`; its click passes the question's own id and flag |
| QuestionFeed.CardsFor | QR_Code_Question/src/components/QuestionFeed.tsx:64-107 | one card per question, in order, each built from its own question and index |
| QuestionFeed.Render | QR_Code_Question/src/components/QuestionFeed.tsx:44-121 | loading shows iff `isLoading`; error iff `isError && !isLoading`; the list iff neither; a shown list is the empty message iff there are no questions and the cards otherwise; the count footer shows iff the list shows with some questions, and it reports their number |
| QuestionFeed.ExactlyOnePanel | QR_Code_Question/src/components/QuestionFeed.tsx:44-56 | exactly one of loading, error and list shows, and loading hides everything else |
| QuestionFeed.CardsMatchQuestions | QR_Code_Question/src/components/QuestionFeed.tsx:64-107 | one card per question, in order; each card's click passes that question's own id and flag; buttons are disabled iff `isUpdating`; resolved cards are struck through with the undo label |
| QuestionFeed.WallClockMs | QR_Code_Question/src/components/QuestionFeed.tsx:28-36 | formatting in `Asia/Seoul` shows an instant nine hours on |
| QuestionInput.Controls | QR_Code_Question/src/components/QuestionInput.tsx:46-51 | the textarea and the submit button are disabled exactly when `isSubmitting` holds |
| QuestionInput.QuestionForm.constructor | QR_Code_Question/src/components/QuestionInput.tsx:13 | the field starts empty |
| QuestionInput.QuestionForm.Change | QR_Code_Question/src/components/QuestionInput.tsx:43 | typing replaces the field with the typed text |
| QuestionInput.QuestionForm.HandleSubmit | QR_Code_Question/src/components/QuestionInput.tsx:15-32 | blank input: one empty-input error, no callback, field unchanged; otherwise the callback gets the trimmed text, and success clears the field while failure keeps it exactly |
| QuestionInput.SentTextIsTrimmed | QR_Code_Question/src/components/QuestionInput.tsx:24 | the text sent neither starts nor ends with whitespace, is its own trim, and is the typed text without surrounding whitespace |
| Strings.SkipLeading | QR_Code_Question/src/components/QuestionInput.tsx:18 | finds the first non-whitespace index, with only whitespace skipped |
| Strings.SkipTrailing | QR_Code_Question/src/components/QuestionInput.tsx:18 | finds where trailing whitespace starts, with only whitespace skipped |
| Strings.Trim | QR_Code_Question/src/components/QuestionInput.tsx:18 | `trim()` returns the slice of the input that has no whitespace at either end, with only whitespace outside it; the result is empty iff the input is all whitespace |
| Strings.TrimIdempotent | QR_Code_Question/src/components/QuestionInput.tsx:18-24 | trimming twice is trimming once |
| Strings.NatToDecimal | QR_Code_Question/src/pages/Index.tsx:56 | a non-empty string of digits with no leading zero |
| Strings.NatToDecimalValue | QR_Code_Question/src/pages/Index.tsx:56 | the digits read back as the number |
| Strings.IntToDecimal | QR_Code_Question/src/pages/Index.tsx:56 | `id.toString()` is in canonical form: a minus sign exactly for negative ids, then digits with no leading zero, and "0" alone is the only string starting with `0` |
| Strings.IntToDecimalRoundTrip | QR_Code_Question/src/pages/Index.tsx:56 | `id.toString()` reads back as the same integer |
| Strings.IntToDecimalInjective | QR_Code_Question/src/pages/Index.tsx:56 | distinct ids give distinct strings |
| IndexPage.ToFeedQuestion | QR_Code_Question/src/pages/Index.tsx:49-61 | a feed question carries its record's id as `toString()` (which reads back as the id), its content and flag, a time exactly nine hours later, and is new iff its index is 0 |
| IndexPage.Fetched | QR_Code_Question/src/pages/Index.tsx:49 | `data ?? []`: the fetched list when there is one, and the empty list otherwise |
| IndexPage.Project | QR_Code_Question/src/pages/Index.tsx:47-64 | the projection has as many questions as the fetched data, and missing data gives the empty list |
| IndexPage.ProjectedAt | QR_Code_Question/src/pages/Index.tsx:49-61 | each question keeps its record's position, reads back to its numeric id, copies content and resolved flag, is shifted by exactly 9·60·60·1000 ms, and is new iff its index is 0; the id is exactly `IntToDecimal` of the record's id |
| IndexPage.ProjectedIdsDistinct | QR_Code_Question/src/pages/Index.tsx:56 | distinct server ids give distinct card keys |
| IndexPage.ToggleRequest | QR_Code_Question/src/pages/Index.tsx:79-90 | toggling sends `PATCH /questions/{id}` with the negation of the current value |
| IndexPage.ToggleTwice | QR_Code_Question/src/pages/Index.tsx:88-90 | toggling from the value the first toggle asked for asks for the original value; toggles from opposite values ask for opposite values |
| IndexPage.StripFragment | QR_Code_Question/src/pages/Index.tsx:24-26 | the result has no `#`, is a prefix of the URL, and stops only at the first `#` |
| IndexPage.SessionUrl | QR_Code_Question/src/pages/Index.tsx:20-27 | the link never has a fragment; it is the page URL up to its first `#`, the URL itself when it has none, and `http://localhost:5173` without a window |
| IndexPage.SuccessCount | QR_Code_Question/src/pages/Index.tsx:42-44 | the count is 0 exactly when every attempt failed, and equals the number of attempts exactly when every attempt succeeded |
| IndexPage.MutationCoordinator.constructor | QR_Code_Question/src/pages/Index.tsx:15-19 | no attempts and no invalidations yet |
| IndexPage.MutationCoordinator.Settle | QR_Code_Question/src/pages/Index.tsx:83-85 | logs the attempt and, on success only, one invalidation of `["questions"]`, keeping one invalidation per success |
| IndexPage.MutationCoordinator.CreateQuestion | QR_Code_Question/src/pages/Index.tsx:38-45 | posts the content; invalidates `["questions"]` once on success and never on failure |
| IndexPage.MutationCoordinator.ToggleResolved | QR_Code_Question/src/pages/Index.tsx:79-90 | patches with the negated value; invalidates the same key once on success and never on failure |
| IndexPage.SubmitFromForm | QR_Code_Question/src/pages/Index.tsx:75-77 | blank input never reaches the backend and invalidates nothing; other input is posted trimmed, and invalidates once iff the post succeeds; the field is cleared exactly when non-blank input was posted successfully, and kept otherwise |
| Wire.Decode | QR_Code_Question/src/pages/Index.tsx:50 | the client reads each entry's id and content, its naive `created_at` as browser-local time (seconds to ms, less the browser's offset), and its missing `is_resolved` as false |
| Wire.DecodeAll | backend/main.py:124-127 | one client record per response entry, in order |
| Wire.ServedQuestions | QR_Code_Question/src/pages/Index.tsx:28-64 | the page shows one question per row created since today's KST midnight, each with the key and content of the response entry at its place |
| Wire.ServedQuestionsLookUnresolved | backend/main.py:125 | whatever the table holds, no served card is styled resolved, each offers "resolve", and each click asks for `true` |
| Wire.ServedQuestionsNewestFirst | backend/main.py:123 | the client shows today's questions newest first, and only the first is marked new |
| Wire.ShownClock | QR_Code_Question/src/pages/Index.tsx:50-53 | after the local-time parse, the page's shift and the Seoul formatting, the clock shown is created_at plus 18 hours less the browser's zone offset |
| Wire.ShownClockOnUtcBrowser | QR_Code_Question/src/pages/Index.tsx:50-53 | on a UTC browser the clock shown is 18 hours ahead of the UTC creation time |
| Wire.ShownClockOnKstBrowser | QR_Code_Question/src/pages/Index.tsx:50-53 | on a KST browser the clock shown is the Seoul wall clock of the creation time |
| Wire.ToggleHasNoRoute | QR_Code_Question/src/pages/Index.tsx:81 | the client's toggle request matches no backend route |
| Wire.ToggleAgainstBackend | QR_Code_Question/src/pages/Index.tsx:79-90 | a toggle sent to this backend fails, is logged as failed and invalidates nothing |
| Wire.ServedKeysDistinct | backend/models.py:17 | unique table keys give unique feed keys |

## Left out

- The query cache of the client library is left out: fetching, coalescing, loading and error transitions, and `refetchOnWindowFocus` (QR_Code_Question/src/pages/Index.tsx:29-36). `isLoading`, `isError`, the data and each mutation's `isPending` are parameters. An invalidation is only logged.
- A mutation is modelled as one atomic step with its outcome as a parameter. The time while a mutation is pending is not modelled, so neither is anything interleaved with it.
- The connection heartbeat (QR_Code_Question/src/pages/Index.tsx:66-73) is left out because it is random and timer-driven.
- `QuestionFeed.WallClockMs` models only the zone offset of `Intl.DateTimeFormat`. The month, day, hour and minute fields are not modelled. Parsing `created_at` with `new Date(...)` is modelled as browser-local time at a fixed zone offset. Zones whose offset changes with daylight saving are not modelled.
- `IndexPage.StripFragment` drops `#` and everything after it. The other normalisation `new URL(...)` does is not modelled.
- `Strings.IntToDecimal` is `Number.prototype.toString` on integers only. It does not model the exponent form JavaScript uses from 10^21, or rounding beyond 2^53.
- Toasts, icons, CSS class strings and animation delays are left out. A card style is an enum, and a toast is the `SubmitOutcome` it reports.
- The axios client setup (QR_Code_Question/src/lib/api.ts:28-33) is left out. The requests are values in the coordinator's log.
- Backend plumbing is left out: the daily scheduled cleanup and shutdown (backend/main.py:89-102), CORS, the health handler's body, database sessions and commits. backend/database.py is not part of this model, apart from the SQLite key rule in `Backend.NextRowId`.
- The table is held in memory. Time is whole seconds; the database keeps microseconds.
- Backend.SortNewestFirst: SQL leaves the order of rows with equal `created_at` open. The model lists the later-stored row first among them. The proved contract (newest first, a permutation) holds for every order SQL may pick.
- FastAPI's default documentation routes (`/docs`, `/redoc`, `/openapi.json`), served because of `FastAPI(...)` at backend/main.py:20, are not in `Backend.Route`. None of them is a `PATCH` route.
- Two error edges are not modelled, because neither happens in normal use. First, `created_at` is nullable (backend/models.py:22), so a row with no time would survive every prune. Second, `new URL(window.location.origin)` (QR_Code_Question/src/lib/api.ts:12) throws on an opaque `"null"` origin.
- QrCodeDialog.tsx, SessionHeader.tsx and src/main/java/gmail/ggangpae1/calculator/CalculatorController.java are not part of this model. They are presentation, clipboard I/O, and a thin wrapper around `CalculatorService.sum`, unrelated to the board.
