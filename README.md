# Anime catalog API — episode paging, catalog filters and watch history

A Dafny model of the logic of an Express/Mongoose REST API for an anime
catalog, once the store calls are taken out. Three pieces are modelled:

- **Episode paging and episode lookup** (`src/controllers/anime.controller.js`).
  `getAnimeBySlug` and `getAnimeEpisodes` load one Anime document by slug and cut one
  page out of its embedded episode list in memory: `slice((page-1)*limit, page*limit)`,
  `totalPages = Math.ceil(total/limit)`, `hasNextPage = page*limit < total`,
  `hasPrevPage = (page-1)*limit > 0`. `getAnimeEpisodeServers` returns the servers of
  the first episode with a given number. `filterAnimes` builds a conjunctive query from
  three optional arrays, and the fixed lists (coming soon, finished, on air, latest
  episodes, latest animes) are fixed queries.
- **Watch-history ledger** (`src/controllers/history.controller.js`): add, list per
  user with an anime projection, get one, partial-merge update and delete, with their
  fixed order of "not found" checks.
- **Pagination descriptor** (`src/utils/pagination.js`): `parseInt(...) || default` for
  `page` and `limit`, and `sort === "asc" ? 1 : -1` on `updatedAt`.

How the model stands in for the runtime:

- The Anime collection is a `seq<Anime>` in stored order. `Anime.findOne({ slug })` is
  its first document whose slug equals the query value: the schema does not make `slug`
  unique.
- The History collection is a `seq<HistoryEntry>` in insertion order. `findOne` and
  `findOneAndDelete` on `{ userId, animeId }` act on the first matching entry.
- The users are the set of ids `User.findById` finds.
- Users, Anime documents and History entries are the three fields of the
  `HistoryController.Ledger` class. Add, update and delete are methods that may
  modify only `entries`. The read operations are functions that read the ledger.
- Store-generated ObjectIds are natural numbers. Optional schema paths are `Option`s.
- An error passed to `next` is an `Errors.AppError` with the source's message and 404.
- The JavaScript built-ins the code relies on are written out in `JsBuiltins`:
  - `parseInt(s, 10)`: it strips the full ECMAScript whitespace set, reads an optional
    sign and the longest decimal-digit prefix, and gives NaN (`None`) when no digit follows.
  - `Array.prototype.slice` with integer arguments: a negative argument counts back from
    the end, and both are clamped.
  - `find` / `findIndex`: the first match.
  - `Math.ceil(n / d)`: `CeilDiv`.

What the code does, where a reader might expect otherwise, and what the model follows:

- The episode routes never sort. They load the whole Anime document and slice its
  embedded episodes in stored order, in memory.
- `paginate` passes every non-zero integer through as page and as limit, negative or
  huge. Only NaN and 0 fall back to the defaults.
- The history update ignores a falsy `lastEpisode`, so `0` cannot be written back.
- Get-one, update and delete act on the first of possibly several entries for a
  (user, anime) pair, since adding never de-duplicates.

## Model

| member | source | states |
|---|---|---|
| `JsBuiltins.ParseInt` | src/utils/pagination.js:2-3 | `parseInt(s, 10)` yields a number exactly when a digit follows the leading whitespace and optional sign; without a leading `-` the number is non-negative |
| `JsBuiltins.TrimStart` | src/utils/pagination.js:2-3 | the whitespace `parseInt` skips: the result is a suffix, everything removed is whitespace, and the result does not start with whitespace |
| `JsBuiltins.DigitPrefixLength` | src/utils/pagination.js:2-3 | the digits `parseInt` reads: the longest all-digit prefix, followed by the end or a non-digit |
| `JsBuiltins.DecimalNat` | src/utils/pagination.js:2-3 | decimal notation of a natural number: non-empty, all digits, no leading zero |
| `JsBuiltins.ParseIntDecimal` | src/utils/pagination.js:2-3 | round trip: `parseInt` reads back the decimal notation of every integer, negative or arbitrarily large, whatever non-digit text follows |
| `JsBuiltins.ParseIntSkipsWhitespace` | src/utils/pagination.js:2-3 | leading whitespace never changes the parse |
| `JsBuiltins.Slice` | src/controllers/anime.controller.js:33 | `slice(start, end)`: for `0 <= start <= end` it is the run `s[min(start,n)..min(end,n)]`, and it never holds more than `end - start` elements |
| `JsBuiltins.FindIndex` | src/controllers/anime.controller.js:215-217 | `find`: the index it gives satisfies the predicate and nothing before it does; there is none iff no element satisfies it |
| `JsBuiltins.Filter` | src/controllers/anime.controller.js:181 | the selection of a query: every qualifying element exactly as many times as in the input, no other element, never more than the input |
| `JsBuiltins.FilterConcat` | src/controllers/history.controller.js:15 | selecting from a concatenation is concatenating the selections |
| `JsBuiltins.FilterKeepsAll` | src/controllers/anime.controller.js:165-181 | when every element qualifies the selection is the whole input, in order |
| `JsBuiltins.CeilDiv` | src/controllers/anime.controller.js:36 | `Math.ceil(n / d)` for d >= 1 is the least r with `n <= r*d`: `(r-1)*d < n <= r*d` |
| `Pagination.IntOr` | src/utils/pagination.js:2-3 | `parseInt(raw, 10) \|\| fallback`: the parsed integer when it parses and is non-zero, the fallback otherwise |
| `Pagination.Paginate` | src/utils/pagination.js:1-10 | page defaults to 1 and limit to 25 as `IntOr` says, neither is ever 0, the sort is on `updatedAt`, and the direction is 1 iff the raw `sort` is exactly `"asc"`, else -1 |
| `Pagination.PaginateDefaults` | src/utils/pagination.js:2-10 | with no query values the descriptor is page 1, limit 25, `{ updatedAt: -1 }` |
| `Pagination.PaginatePassesThrough` | src/utils/pagination.js:2-3 | every non-zero integer, negative or arbitrarily large, passes through as page and as limit |
| `Pagination.PaginateZeroFallsBack` | src/utils/pagination.js:2-3 | `"0"` is falsy: page falls back to 1 and limit to 25 |
| `Pagination.PaginateNonNumericFallsBack` | src/utils/pagination.js:2-3 | text with no digit after whitespace and sign (NaN) falls back to the defaults |
| `Pagination.PaginateSortDescending` | src/utils/pagination.js:4 | every `sort` other than exactly `"asc"` (absent, `"desc"`, anything) sorts descending |
| `AnimeController.FindBySlug` | src/controllers/anime.controller.js:25-28 | `findOne({ slug })`: none iff no document has the slug, otherwise the first document that has it |
| `AnimeController.PageOf` | src/controllers/anime.controller.js:30-36 | `totalEpisodes` is the full episode count, `currentPage` is the page, and `totalPages` is `ceil(totalEpisodes/limit)` |
| `AnimeController.PageIsStoredSlice` | src/controllers/anime.controller.js:30-33 | for page >= 1 and limit >= 1 the episodes are exactly `episodes[min((page-1)*limit,n)..min(page*limit,n)]`, in stored order |
| `AnimeController.PageSize` | src/controllers/anime.controller.js:30-33 | a page holds at most `limit` episodes, and it is empty iff `(page-1)*limit >= totalEpisodes` (a page past the end is not an error) |
| `AnimeController.NoPagesIffNoEpisodes` | src/controllers/anime.controller.js:35-36 | `totalPages` is 0 iff the anime has no episodes |
| `AnimeController.HasNextIffBeforeLastPage` | src/controllers/anime.controller.js:31-36 | for every integer page, `hasNextPage` (`page*limit < total`) holds iff `currentPage < totalPages` |
| `AnimeController.HasPrevIffPastFirstPage` | src/controllers/anime.controller.js:30 | for every integer page, `hasPrevPage` (`(page-1)*limit > 0`) holds iff page > 1 |
| `AnimeController.PagePastEnd` | src/controllers/anime.controller.js:30-36 | a page past `totalPages` is empty and has no next page |
| `AnimeController.LastPageHasNoNext` | src/controllers/anime.controller.js:36-45 | with episodes present, a page in range has a next page exactly when it is not the last |
| `AnimeController.PagesUpToIsPrefix` | src/controllers/anime.controller.js:30-33 | pages 1..k concatenated are the first `min(k*limit, n)` stored episodes |
| `AnimeController.PagesTileEpisodes` | src/controllers/anime.controller.js:30-36 | pages 1..totalPages concatenated give back the whole episode list |
| `AnimeController.ThirtyEpisodesSecondPage` | src/controllers/anime.controller.js:30-47 | 30 episodes numbered 1..30, page 2 with limit 10: episodes 11..20, 3 pages, next and previous both true |
| `AnimeController.QueryParam` | src/controllers/anime.controller.js:24 | an absent `page`/`limit` query value takes the destructuring default |
| `AnimeController.GetAnimeBySlug` | src/controllers/anime.controller.js:23-48 | "Anime not found" iff no document has the slug; otherwise the stored document with only `episodes` replaced by the page, plus that page's `episodesPagination` |
| `AnimeController.GetAnimeEpisodes` | src/controllers/anime.controller.js:185-207 | "Anime not found" iff no document has the slug; otherwise the page, with `totalEpisodes` the document's episode count |
| `AnimeController.DetailAndEpisodesAgree` | src/controllers/anime.controller.js:30-46 | the detail route and the episodes route serve the same episodes and the same metadata for the same request |
| `AnimeController.FindEpisode` | src/controllers/anime.controller.js:215-217 | `episodes.find(e => e.episode === n)`: none iff no episode has that number, otherwise the first that has it |
| `AnimeController.GetAnimeEpisodeServers` | src/controllers/anime.controller.js:210-221 | success iff the slug is known and the anime has an episode with the number; "Anime not found" iff the slug is unknown; "Episode not found" iff the anime exists and no episode has the number; on success the servers of the first such episode |
| `AnimeController.EpisodeOutOfRangeNotFound` | src/controllers/anime.controller.js:215-220 | looking up episode 99 of an anime with episodes numbered 1..30 is "Episode not found" |
| `AnimeController.FilterOf` | src/controllers/anime.controller.js:165-174 | the query gets a `type`, `genres` or `status` constraint iff that array is present and non-empty |
| `AnimeController.FilterOfMeansAdmits` | src/controllers/anime.controller.js:165-174 | the built query matches a document iff type ∈ types, genres ∩ genreSet ≠ ∅ and status ∈ statuses, each required only when its array is non-empty |
| `AnimeController.EmptyFilterMatchesAll` | src/controllers/anime.controller.js:165-174 | with all three arrays absent or empty every document matches |
| `AnimeController.FilterNarrows` | src/controllers/anime.controller.js:166-174 | a non-empty array only narrows the matches: dropping it can only let more documents in |
| `AnimeController.Matches` | src/controllers/anime.controller.js:165-174 | the empty query matches everything; an `$in` with an empty list matches nothing; a `type` constraint never matches a document without a type, a `genres` constraint never one without genres |
| `AnimeController.Matching` | src/controllers/anime.controller.js:181 | the documents selected are catalog documents that match, and every matching document is selected, as many times as it is stored |
| `AnimeController.EmptyFilterSelectsCatalog` | src/controllers/anime.controller.js:165-181 | the empty filter selects the whole catalog, in stored order |
| `AnimeController.InStatusList` | src/controllers/anime.controller.js:70-98 | the fixed query `{ status: s }` of the coming-soon, finished and on-air lists matches the same documents as `filterAnimes` with only that one status |
| `AnimeController.LatestEpisodesShrinkOverTime` | src/controllers/anime.controller.js:103-114 | as `now` advances the latest-episodes list can only lose documents |
| `HistoryController.FindEntry` | src/controllers/history.controller.js:53 | `findOne({ userId, animeId })`: none iff no entry is for the pair, otherwise the first entry for it |
| `HistoryController.UserEntries` | src/controllers/history.controller.js:15 | `find({ userId })`: only entries of the user, and every entry of the user, each as many times as it is stored |
| `HistoryController.RemoveAt` | src/controllers/history.controller.js:104 | removing one entry keeps every other entry, in order |
| `HistoryController.AppendAddsEntry` | src/controllers/history.controller.js:130-138 | appending an entry adds exactly one entry for its pair: nothing de-duplicates |
| `HistoryController.RemoveFirstEntry` | src/controllers/history.controller.js:104 | deleting the first entry of a pair removes exactly that one of the pair's entries |
| `HistoryController.DeleteOnlyEntryLeavesNone` | src/controllers/history.controller.js:104-108 | when a pair has one entry, after deleting it no entry is found for the pair, so a second delete is "History entry not found" |
| `HistoryController.Merge` | src/controllers/history.controller.js:60-64 | truthy fields overwrite: any supplied status, any supplied array (even empty), a non-zero `lastEpisode`; every other field, and `userId`/`animeId`, keeps its value |
| `HistoryController.MergeIdempotent` | src/controllers/history.controller.js:60-64 | applying the same update twice gives the same entry as applying it once |
| `HistoryController.MergeFalsyIsIdentity` | src/controllers/history.controller.js:60-64 | an empty body, or `lastEpisode: 0` alone, leaves the entry unchanged |
| `HistoryController.LastEpisodeOnlyUpdate` | src/controllers/history.controller.js:60-64 | `{ lastEpisode: 5 }` on a "watching" entry keeps "watching" and sets `lastEpisode` to 5 |
| `HistoryController.FindById` | src/controllers/history.controller.js:15-17 | populate: none iff no Anime has the id, otherwise an Anime with that id |
| `HistoryController.Summarise` | src/controllers/history.controller.js:22-28 | the summary is `{slug, title, poster, synopsis = description, genres}` of the Anime |
| `HistoryController.Project` | src/controllers/history.controller.js:19-31 | the progress fields are copied; the anime reference is replaced by the summary of an Anime with that id, and left unresolved iff no Anime has it |
| `HistoryController.ProjectAll` | src/controllers/history.controller.js:19 | the projection is a map: same length, entry by entry |
| `HistoryController.Ledger.ResolveSlug` | src/controllers/history.controller.js:47-50 | `Anime.findOne({ slug })._id`: none iff no Anime has the slug, otherwise the id of the first that has it |
| `HistoryController.Ledger.AddAnimeToHistory` | src/controllers/history.controller.js:116-141 | "User not found" first, then "Anime not found", both leaving the ledger unchanged; otherwise it appends `{userId, animeId, status (default watching), [], 0}` without de-duplicating and returns it with the slug |
| `HistoryController.Ledger.GetHistory` | src/controllers/history.controller.js:7-40 | "No user found with that ID" iff the user is unknown; otherwise `results` is the number of the user's entries and each one is projected, in order, without changing the ledger |
| `HistoryController.Ledger.GetAnimeHistory` | src/controllers/history.controller.js:74-93 | success iff the slug is known and the pair has an entry; "Anime not found" iff the slug is unknown, then "History entry not found" iff the pair has no entry (the user is not checked); on success the first stored entry for the pair, without changing the ledger |
| `HistoryController.Ledger.UpdateAnimeHistory` | src/controllers/history.controller.js:43-71 | the same two checks in the same order, leaving the ledger unchanged on failure; otherwise only the pair's first entry changes, to its merge with the body |
| `HistoryController.Ledger.DeleteAnimeFromHistory` | src/controllers/history.controller.js:96-113 | the same two checks in the same order, leaving the ledger unchanged on failure; otherwise exactly the pair's first entry is removed and every other entry stays, in order |

## Left out

- Express and process plumbing: routing, HTTP status codes on success, the JSON
  envelopes' `status: 'success'` wrappers, the DB connection and server start-up are I/O.
- User CRUD (`user.controller.js`) and Anime create/update/delete by id are store
  pass-throughs. In this model the set of users and the Anime documents are given.
- Catalog list envelopes: `totalDocs`, `totalPages`, `hasNextPage` and the order of
  catalog lists come from `mongoose-paginate-v2`, which is not part of this model. Only
  the queries are modelled (`Matches`, `InStatusList`, `InLatestEpisodes`,
  `InLatestAnimes`). The sort options (`updatedAt`, `episodes.updatedAt`) and the
  `select` projections of the list endpoints are store behaviour.
- `searchAnimes`: user text is passed to the store as a case-insensitive regular
  expression. Regular-expression semantics are not modelled.
- Time-relative lists: `Date.now()` and the current year become the parameters `now`
  and `currentYear`. `InLatestEpisodes` (anime.controller.js:102-119) and
  `InLatestAnimes` (anime.controller.js:121-137) are only the definitions of those two
  queries. The one property proved about them is `LatestEpisodesShrinkOverTime`.
- Joi validation: input schemas are library semantics. Two of their constraints shape
  the model:
  - The paging precondition `ValidPaging` (both values parse, limit >= 1).
  - Integer episode numbers.
  The update schema's restriction of `status` to watching/completed, and its demand for
  at least one field, are not needed by the controller and are not modelled.
- AnimeController.GetAnimeBySlug: requires `ValidPaging`, so it also needs valid paging
  on the not-found path. The `/:slug` and `/:slug/episodes` routes are wired to the id
  schema, so paging is not actually validated there. A negative limit still gives a
  page in the code: `slice` counts negative bounds from the end, so page 1 with limit -10
  of 30 episodes serves the first 20, with `totalPages` = `Math.ceil(30 / -10)` = -3 and
  `hasNextPage` true. The model does not cover such limits. A zero limit gives
  `Infinity` or `NaN` for `totalPages`, and a NaN page or limit gives `NaN` (`null` in
  JSON) fields; neither is represented.
- AnimeController.GetAnimeEpisodes: the same paging precondition as `GetAnimeBySlug`.
- JsBuiltins.ParseInt: works on unbounded integers. It does not model loss of
  precision above 2^53, the difference between -0 and 0 (both are falsy and page the
  same), or query values given as arrays.
- AnimeController.GetAnimeEpisodeServers: takes the episode number as an integer. The
  source first validates the raw text as a number, then looks it up with `parseInt`
  without a radix, and the two can disagree on exponent notation. `"1e1"` validates as
  10 but is looked up as episode 1, and `"0.5e1"` validates as 5 but is looked up as
  episode 0. The model does not represent the raw text, so it does not show this gap.
- Episode sorting by number and store-side paging of episodes are not modelled, because
  the code does neither (see above).
- Timestamps: `createdAt` and `updatedAt` of documents, and the refresh of a History
  entry's `updatedAt` on `save()`, are not modelled. An episode's `updatedAt` is kept
  only for the latest-episodes query.
- AnimeController.FindBySlug: compares the raw slug. The store runs the setters of a
  `trim: true` path (src/models/Anime.js:48-51) on query values too, so it matches the
  trimmed value. `"naruto "` finds the "naruto" document there, and nothing here. Neither
  route trims the slug before the lookup.
- HistoryController.Ledger.ResolveSlug: compares the raw `animeSlug` in the same way, so
  an `animeSlug` with surrounding whitespace is "Anime not found" here and resolves in
  the code.
- AnimeController.Matches: compares the raw `types` values. `type` is also a
  `trim: true` path (src/models/Anime.js:61-63), so the store trims each `$in` value,
  and a type of `" TV"` matches documents typed "TV" there but none here.
- Ids: a malformed ObjectId string makes the store throw a cast error (a 500); ids here
  are natural numbers.
- HistoryController.Merge: takes the body's fields as already-typed values (a status,
  an integer array, an integer). The code keeps the raw body, because the validator
  discards the value Joi converts, and the app also accepts urlencoded bodies. So a
  string `"0"` for `lastEpisode` is truthy there and the store writes it back as 0,
  while the model treats 0 as falsy. String numerals and other raw JavaScript values in
  the body are not modelled.
- Non-integer numbers in `episode`, `episodesWatched` and `lastEpisode` are not modelled.
- Concurrency: the code relies on the store's per-document atomicity. Each operation
  here is one atomic step on the ledger.
