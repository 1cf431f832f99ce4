# PraZ Movie Search, modelled in Dafny

A model of the logic of the `App` component of PraZ Movie Search, a single-page
React application that searches the OMDb movie database. The page loads a
shuffled set of default movies when it mounts. On submit, it searches the query:
it keeps at most five title hits and looks up the full record of each one. It
shows the records that come back in shuffled order, or the message "No movies
found." when the search has no hits. A blank query (one that `String.prototype.trim`
empties) reloads the defaults instead. Cards replace a missing poster with a
placeholder image and a missing rating with a dash. Clicking a card opens a
detail view.

The model is in seven modules, one file each:

- `wrappers.dfy`, `Wrappers`: the `Option` type, standing for a value or JavaScript `null`.
- `omdb.dfy`, `Omdb`: the records, the two kinds of reply, and how `fetchMovies` and
  `fetchMovieDetails` read them. The remote service is a `Server` value: a reply for
  each search text and for each id. A `Gateway` object performs the two requests
  against a server and appends each request to its `log`.
- `aggregate.dfy`, `Aggregate`: the default titles, and the two accumulation loops
  as specification functions of the server: `DefaultResults`/`DefaultRequests` for
  `loadDefaultMovies` and `SearchResults`/`Lookups` for `handleSearch`. It also
  holds their properties: bounds, order, and one entry per success.
- `shuffle.dfy`, `Shuffle`: `shuffleArray`. The calls to `Math.random` are replaced
  by an index oracle `draws`, where `draws[i]` is the index picked when the loop
  stands at `i`. `FisherYates` is the specification function. `ShuffleArray` runs
  the loop on an array and is proved equal to it. The lemmas prove that the
  result is a permutation and that short inputs are unchanged. They also prove
  that each ordering of distinct elements comes from exactly one sequence of draws.
- `text.dfy`, `Text`: `trim`, with the ECMA-262 white-space and line-terminator code points.
- `display.dfy`, `Display`: the poster and rating fallbacks.
- `app.dfy`, `App`: the component's state as the class `AppState`, with the handlers
  as methods. `LoadDefaultMovies` and `HandleSearch` are proved against the
  specification functions `DefaultMovies`, `SearchView` and `SearchTraffic`. The
  lemmas `SearchViewOutcome` and `SearchTrafficOrder` state what each path of
  `handleSearch` shows and which requests it sends.

## Model

| member | source | states |
|---|---|---|
| Omdb.SearchHits | src/App.jsx:25-35 | At most five hits. A reply with `Response` equal to `"True"` and a `Search` list yields the first min(n, 5) entries, in order. A failed call, any other `Response` or a missing `Search` yields the empty list. |
| Omdb.DetailRecord | src/App.jsx:37-47 | The record is present exactly when the call succeeded and `Response` is `"True"`. When present, it is the body itself. |
| Omdb.Gateway.FetchMovies | src/App.jsx:25-35 | Sends one search request for the text and returns the hits the server's reply yields. |
| Omdb.Gateway.FetchMovieDetails | src/App.jsx:37-47 | Sends one lookup request for the id and returns the record, or null. |
| Omdb.Hits | src/App.jsx:25-35 | `fetchMovies` as a function of the server: the hits `SearchHits` reads from the server's reply to the text. |
| Omdb.Details | src/App.jsx:37-47 | `fetchMovieDetails` as a function of the server: the record `DetailRecord` reads from the server's reply to the id. |
| Aggregate.Collect | src/App.jsx:50-56 | An accumulate loop that pushes each non-null result never yields more entries than it had inputs. |
| Aggregate.CollectCount | src/App.jsx:50-56 | Entries plus failures equals inputs: every null result is skipped and leaves no placeholder. |
| Aggregate.CollectAllPresent | src/App.jsx:78-82 | When no result is null, the k-th entry is the result for the k-th input. |
| Aggregate.CollectOrigins | src/App.jsx:78-82 | Each entry comes from an input, in strictly increasing input order, and every input with a non-null result contributes exactly its entry. |
| Aggregate.CollectAppend | src/App.jsx:51-56 | Accumulating over two lists one after the other equals accumulating over their concatenation. |
| Aggregate.FirstHitDetails | src/App.jsx:52-55 | What one default title contributes: the record of its first hit, or null when it has no hit or the lookup fails. |
| Aggregate.DefaultResults | src/App.jsx:50-57 | The records `loadDefaultMovies` accumulates before shuffling; `DefaultResultsBound` and the `Collect` lemmas state its properties. |
| Aggregate.TitleRequests | src/App.jsx:52-55 | The requests one default title causes: its search, then a lookup of its first hit when it has one. |
| Aggregate.DefaultRequests | src/App.jsx:51-57 | The requests `loadDefaultMovies` sends, title by title; `DefaultRequestsOrder` states their order. |
| Aggregate.SearchResults | src/App.jsx:78-82 | The records `handleSearch` accumulates before shuffling; `SearchResultsBound` and the `Collect` lemmas state its properties. |
| Aggregate.Lookups | src/App.jsx:79-80 | The lookups `handleSearch` sends for its hits; `LookupsOfHits` states them one by one. |
| Aggregate.DefaultsStep | src/App.jsx:51-56 | One more title appends its record, if any, to the results and its requests to the traffic. |
| Aggregate.TitleRequestsSearch | src/App.jsx:52-55 | Each default title causes exactly one search, for that title, and at most one lookup. |
| Aggregate.DefaultRequestsOrder | src/App.jsx:51-57 | Default loading searches every title exactly once, in list order, and sends at most 2·n requests in all for n titles. |
| Aggregate.DefaultResultsBound | src/App.jsx:4-7 | Default loading yields one record per default title, minus one per title without a hit or with a failed lookup. `DefaultTitles` holds the 8 titles of `DEFAULT_TITLES`, so there are at most 8 records. |
| Aggregate.SearchResultsBound | src/App.jsx:70-82 | A user search yields no more records than hits, and at most five. When every lookup succeeds, it yields the hits' records in hit order. |
| Aggregate.LookupsOfHits | src/App.jsx:79-80 | `handleSearch` sends one lookup per hit, the k-th for the k-th hit's id. |
| Text.IsTrimmable | src/App.jsx:64 | The characters `trim` removes: the WhiteSpace and LineTerminator code points of ECMA-262. |
| Text.TrimStart | src/App.jsx:64 | The first half of `trim`: drop the leading white space and line terminators. |
| Text.TrimEnd | src/App.jsx:64 | The second half of `trim`: drop the trailing white space and line terminators. |
| Text.Trim | src/App.jsx:64 | `query.trim()`; `TrimEmptyIffBlank` states when it is empty. |
| Text.TrimStartRemovesBlankPrefix | src/App.jsx:64 | Trimming the start removes a prefix of trimmable characters and stops at the first character it must keep. |
| Text.TrimEndRemovesBlankSuffix | src/App.jsx:64 | Trimming the end removes a suffix of trimmable characters and stops at the last character it must keep. |
| Text.TrimEmptyIffBlank | src/App.jsx:64 | `query.trim() === ""` holds exactly when every character of the query is white space or a line terminator. |
| Display.PosterSource | src/App.jsx:145-150 | A card or the detail view never shows `"N/A"` as an image source. It shows the poster when it is not `"N/A"`, and the placeholder otherwise. |
| Display.RatingText | src/App.jsx:156 | A card never shows `"N/A"` as its rating. It shows the rating when it is not `"N/A"`, and a dash otherwise. |
| Shuffle.Swap | src/App.jsx:13 | The destructuring swap exchanges positions i and j and leaves every other position alone. |
| Shuffle.SwapPermutes | src/App.jsx:13 | A swap keeps the multiset of elements. |
| Shuffle.FisherYates | src/App.jsx:9-16 | The array `shuffleArray` returns under the draws. It is the specification of `ShuffleArray`, and the `FisherYates` lemmas state its properties. |
| Shuffle.SwapDown | src/App.jsx:11-14 | The array the loop leaves when it runs from index i down to 1; `SwapDownIsFisherYates` relates it to `FisherYates`. |
| Shuffle.FisherYatesPermutes | src/App.jsx:9-16 | The shuffle returns as many elements as it was given, and the same ones (the multisets are equal). |
| Shuffle.FisherYatesShort | src/App.jsx:11 | Arrays of length 0 or 1 come back unchanged, because the loop body never runs. |
| Shuffle.FisherYatesUsesPrefix | src/App.jsx:11-12 | The outcome depends only on the draws made at indices below the length. |
| Shuffle.FisherYatesSplit | src/App.jsx:11-13 | The last position receives the element drawn for it, and the positions before it hold the shuffle of the rest. |
| Shuffle.FisherYatesInjective | src/App.jsx:12-13 | For distinct elements, two sequences of draws that give the same ordering are equal. |
| Shuffle.FisherYatesOnto | src/App.jsx:12-13 | Every rearrangement of the input is the outcome of some sequence of valid draws, each in `0..i`. |
| Shuffle.FisherYatesStep | src/App.jsx:11-13 | One loop turn at i keeps "shuffle of the unfinished part, then the finished part" invariant. |
| Shuffle.SwapDownDone | src/App.jsx:11 | When the loop stops (i = 0, or -1 for an empty array), the array equals the shuffle of its first i + 1 elements followed by the rest. |
| Shuffle.SwapDownIsFisherYates | src/App.jsx:11-14 | Running the loop from i down to 1 shuffles the first i + 1 elements and leaves the rest in place. |
| Shuffle.ShuffleArray | src/App.jsx:9-16 | The in-place swap loop on a copied array returns exactly `FisherYates` of its argument under the draws. |
| App.DefaultTitlesNotBlank | src/App.jsx:4-7 | No default title is blank. |
| App.DefaultTrafficSkipsQuery | src/App.jsx:64-65 | A blank query triggers searches for the default titles only, in order, and never a search for the query itself. |
| App.DefaultMovies | src/App.jsx:58 | The grid `loadDefaultMovies` leaves: the default records, shuffled. |
| App.SearchView | src/App.jsx:62-87 | What `handleSearch` leaves on the page for a query; `SearchViewOutcome` states it path by path. |
| App.SearchTraffic | src/App.jsx:62-82 | The requests `handleSearch` sends for a query; `SearchTrafficOrder` states them path by path. |
| App.DefaultMoviesPermute | src/App.jsx:58 | The default grid is a rearrangement of the accumulated records, so it holds at most 8 movies. |
| App.SearchViewOutcome | src/App.jsx:62-87 | Every path closes the detail view. The error is "No movies found." exactly when a non-blank query has no hits, and empty otherwise. A blank query shows a rearrangement of the default records. A query without hits empties the grid. Any other query shows a rearrangement of its records, at most one per hit and at most five. |
| App.SearchTrafficOrder | src/App.jsx:62-82 | A blank query searches the default titles in order, and never the query. Any other query is searched once, followed by one lookup per hit, in hit order. |
| App.FetchFirstHit | src/App.jsx:52-55 | One turn of the default loop: search the title, then look up its first hit if there is one. |
| App.FetchDefaults | src/App.jsx:50-57 | The default loop returns `DefaultResults` and sends `DefaultRequests`. |
| App.FetchAllDetails | src/App.jsx:78-82 | The detail loop of `handleSearch` returns `SearchResults` of the hits and sends `Lookups` of the hits. |
| App.AppState.constructor | src/App.jsx:19-23 | The initial state: empty query, location, grid and error, and no selected movie. |
| App.AppState.SetQuery | src/App.jsx:124 | Typing sets the query and keeps the detail view on a movie of the grid. |
| App.AppState.SetLocation | src/App.jsx:103 | Choosing a location sets it and changes nothing else the invariant covers. |
| App.AppState.SelectMovie | src/App.jsx:142 | Clicking a card selects that movie, which is in the grid. |
| App.AppState.CloseDetails | src/App.jsx:163-165 | The overlay and the close button clear the selection. |
| App.AppState.LoadDefaultMovies | src/App.jsx:49-60 | The grid becomes the shuffled default records and the error is cleared. The requests sent are one search per default title, each followed by a lookup of its first hit when it has one. It runs with the detail view closed, and the invariant holds afterwards. |
| App.AppState.HandleSearch | src/App.jsx:62-87 | The grid, error and selection become `SearchView` of the query, and the requests sent are `SearchTraffic` of the query. The selected movie is always in the grid afterwards. On a blank query the selection is cleared before the defaults load, as in the source. |
| App.AppState.Valid | src/App.jsx:138-142 | The class invariant of the sequential model: a selected movie is one of the movies in the grid. Only a card of the grid can select one, and the model runs a reload to completion inside `HandleSearch`. The source does not keep this invariant; see the asynchrony line under "## Left out". |

## Left out

- Network, `fetch`, JSON parsing and `encodeURIComponent`: the remote service is a
  `Server` value giving one reply per search text and per id. It answers the same
  request the same way every time. The API key and the URLs are not modelled.
- `Search` is modelled as a list of hit objects, each with an id. A `Search` field
  that is present but is not an array is not modelled. Neither is an array with a
  `null` entry. Reading `imdbID` on such an entry at src/App.jsx:54 or :80 throws
  outside any `try`, which abandons the handler before it sets the grid. An entry
  that is a number, string or boolean yields an `undefined` id, and the page looks
  up `"undefined"`. The model covers that case as a hit whose `imdbID` is
  `"undefined"`.
- `Math.random`: replaced by the index oracle `draws`, where each draw lies in `0..i`.
  The model does not prove that the shuffle is uniform, because it has no
  probabilities. `FisherYatesInjective` and `FisherYatesOnto` prove the
  combinatorial core of that: each ordering of distinct elements comes from
  exactly one sequence of draws.
- Asynchrony: every handler runs to completion before the next one starts. In the
  source, `handleSearch` does not await `loadDefaultMovies` on a blank query. The
  model keeps the resulting order: the selection is cleared first, then the
  defaults load. Overlapping searches can also finish in any order, and that
  interleaving is not modelled. Only the final state of a single run is. A card
  clicked while the unawaited load is pending stays selected after
  src/App.jsx:58 replaces the grid. So in the source, the detail view can show a
  movie that is not in the grid. `Valid()` holds only because the model runs the
  load inside `HandleSearch`.
- React itself: hooks, re-rendering, JSX, CSS, `useEffect` and `e.preventDefault()`
  are not modelled. The mount effect is a call of `LoadDefaultMovies` on a freshly
  constructed `AppState`.
- The request log of `Gateway` is a modelling device, so that the order of
  requests can be stated. It does not exist in the source.
- App.FetchFirstHit, App.FetchDefaults, App.FetchAllDetails: these are written as
  separate methods, where the source writes them inline. `FetchFirstHit` is the
  loop body of `loadDefaultMovies`, `FetchDefaults` is its loop, and
  `FetchAllDetails` is the loop of `handleSearch`.
- The detail view's rating line prints `imdbRating` as it is, without the dash
  fallback. This is a plain field read, and there is nothing to prove about it.
- The location only echoes the selected city in a line of text. It does not
  influence any search.
- The remaining record fields (title, year, genre, runtime, director, actors, plot) are
  carried in `Movie` only for display.
