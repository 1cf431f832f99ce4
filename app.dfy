/** The view state of the `App` component and the two handlers that fill it:
    `loadDefaultMovies` and `handleSearch`. Each call runs to completion
    before the next one starts; the random source is the index oracle of
    `Shuffle`, with enough draws for the largest list either path builds. */
module App {
  import opened Wrappers
  import opened Omdb
  import opened Aggregate
  import opened Shuffle
  import opened Text

  /** The message a user search with no hits shows. */
  const NoMoviesFound := "No movies found."

  /** What a handler leaves on the page: the grid, the error line and the
      movie in the detail view. */
  datatype View = View(movies: seq<Movie>, error: string, selected: Option<Movie>)

  /** Every default title has a character `trim` keeps, so no blank query is
      one of them. */
  lemma DefaultTitlesNotBlank()
    ensures forall t | t in DefaultTitles :: !IsBlank(t)
  {
    forall t | t in DefaultTitles ensures !IsBlank(t) {
      assert !IsTrimmable(t[0]);
    }
  }

  /** A search recorded in a request log is among the log's search texts. */
  lemma {:induction false} SearchIsLogged(requests: seq<Request>, text: string)
    requires SearchRequest(text) in requests
    ensures text in Searches(requests)
  {
    var n := |requests| - 1;
    if requests[n] != SearchRequest(text) {
      assert SearchRequest(text) in requests[..n] by {
        var k :| 0 <= k < |requests| && requests[k] == SearchRequest(text);
        assert requests[..n][k] == requests[k];
      }
      SearchIsLogged(requests[..n], text);
    }
  }

  /** Default loading searches the default titles in order, and so never a
      blank query. */
  lemma {:induction false} DefaultTrafficSkipsQuery(server: Server, query: string)
    requires IsBlank(query)
    ensures Searches(DefaultRequests(server, DefaultTitles)) == DefaultTitles
    ensures SearchRequest(query) !in DefaultRequests(server, DefaultTitles)
  {
    var r := DefaultRequests(server, DefaultTitles);
    DefaultRequestsOrder(server, DefaultTitles);
    if SearchRequest(query) in r {
      SearchIsLogged(r, query);
      DefaultTitlesNotBlank();
      assert false;
    }
  }

  /** The grid after default loading: the default records in shuffled order. */
  function DefaultMovies(server: Server, draws: seq<nat>): seq<Movie>
    requires ValidDraws(draws) && |DefaultTitles| <= |draws|
  {
    FisherYates(DefaultResults(server, DefaultTitles), draws)
  }

  /** Default loading shows the records it accumulated, each as often as it
      was accumulated, and so no more than one per default title. */
  lemma DefaultMoviesPermute(server: Server, draws: seq<nat>)
    requires ValidDraws(draws) && |DefaultTitles| <= |draws|
    ensures multiset(DefaultMovies(server, draws)) == multiset(DefaultResults(server, DefaultTitles))
    ensures |DefaultMovies(server, draws)| <= |DefaultTitles|
  {
    FisherYatesPermutes(DefaultResults(server, DefaultTitles), draws);
  }

  /** The view `handleSearch` leaves for `query`. */
  function SearchView(server: Server, query: string, draws: seq<nat>): View
    requires ValidDraws(draws) && |DefaultTitles| <= |draws|
  {
    if Trim(query) == "" then
      View(DefaultMovies(server, draws), "", None)
    else
      var hits := Hits(server, query);
      if |hits| == 0 then View([], NoMoviesFound, None)
      else View(FisherYates(SearchResults(server, hits), draws), "", None)
  }

  /** What `handleSearch` shows. A blank query loads the defaults and raises
      no error; a query with no hits empties the grid and shows the message;
      any other query shows its records, in some order, and no more than it
      had hits. The detail view is closed in every case, and the message
      appears exactly when a non-blank query has no hits. */
  lemma SearchViewOutcome(server: Server, query: string, draws: seq<nat>)
    requires ValidDraws(draws) && |DefaultTitles| <= |draws|
    ensures var v := SearchView(server, query, draws);
      && v.selected == None
      && (v.error == NoMoviesFound <==> !IsBlank(query) && Hits(server, query) == [])
      && (v.error == "" || v.error == NoMoviesFound)
      && (IsBlank(query) ==> multiset(v.movies) == multiset(DefaultResults(server, DefaultTitles)))
      && (!IsBlank(query) && Hits(server, query) == [] ==> v.movies == [])
      && (!IsBlank(query) ==>
            multiset(v.movies) == multiset(SearchResults(server, Hits(server, query)))
            && |v.movies| <= |Hits(server, query)| <= MaxHits)
  {
    TrimEmptyIffBlank(query);
    if Trim(query) == "" {
      DefaultMoviesPermute(server, draws);
    } else {
      FisherYatesPermutes(SearchResults(server, Hits(server, query)), draws);
    }
  }

  /** The requests `handleSearch` sends for `query`. */
  function SearchTraffic(server: Server, query: string): seq<Request> {
    if Trim(query) == "" then DefaultRequests(server, DefaultTitles)
    else [SearchRequest(query)] + Lookups(Hits(server, query))
  }

  /** A blank query searches the default titles, once each and in order, and
      never the query itself; any other query is searched once, followed by
      one lookup per hit, in hit order. */
  lemma SearchTrafficOrder(server: Server, query: string)
    ensures var r := SearchTraffic(server, query);
      && (IsBlank(query) ==> Searches(r) == DefaultTitles && SearchRequest(query) !in r)
      && (!IsBlank(query) ==>
            var hits := Hits(server, query);
            |r| == 1 + |hits| && r[0] == SearchRequest(query)
            && forall k | 0 <= k < |hits| :: r[k + 1] == DetailRequest(hits[k].imdbID))
  {
    TrimEmptyIffBlank(query);
    if Trim(query) == "" {
      DefaultTrafficSkipsQuery(server, query);
    } else {
      var hits := Hits(server, query);
      var lookups := Lookups(hits);
      LookupsOfHits(hits);
      assert forall k | 0 <= k < |hits| :: ([SearchRequest(query)] + lookups)[k + 1] == lookups[k];
    }
  }

  /** One turn of the loop of `loadDefaultMovies`: search the title and, when
      the search has a hit, look up the first hit. */
  method FetchFirstHit(gw: Gateway, title: string) returns (details: Option<Movie>)
    modifies gw`log
    ensures details == FirstHitDetails(gw.server, title)
    ensures gw.log == old(gw.log) + TitleRequests(gw.server, title)
  {
    var briefResults := gw.FetchMovies(title);
    if |briefResults| > 0 {
      details := gw.FetchMovieDetails(briefResults[0].imdbID);
    } else {
      details := None;
    }
  }

  /** The loop of `loadDefaultMovies` over `titles`: each record that comes
      back is pushed, in title order. */
  method FetchDefaults(gw: Gateway, titles: seq<string>) returns (results: seq<Movie>)
    modifies gw`log
    ensures results == DefaultResults(gw.server, titles)
    ensures gw.log == old(gw.log) + DefaultRequests(gw.server, titles)
  {
    results := [];
    for k := 0 to |titles|
      invariant results == DefaultResults(gw.server, titles[..k])
      invariant gw.log == old(gw.log) + DefaultRequests(gw.server, titles[..k])
    {
      DefaultsStep(gw.server, titles, k);
      var details := FetchFirstHit(gw, titles[k]);
      if details.Some? {
        results := results + [details.value];
      }
    }
    assert titles[..|titles|] == titles;
  }

  /** The loop of `handleSearch` over the hits: one lookup per hit, in hit
      order, pushing each record that comes back. */
  method FetchAllDetails(gw: Gateway, briefResults: seq<SearchHit>) returns (detailedMovies: seq<Movie>)
    modifies gw`log
    ensures detailedMovies == SearchResults(gw.server, briefResults)
    ensures gw.log == old(gw.log) + Lookups(briefResults)
  {
    detailedMovies := [];
    for k := 0 to |briefResults|
      invariant detailedMovies == SearchResults(gw.server, briefResults[..k])
      invariant gw.log == old(gw.log) + Lookups(briefResults[..k])
    {
      assert briefResults[..k + 1][..k] == briefResults[..k];
      var details := gw.FetchMovieDetails(briefResults[k].imdbID);
      if details.Some? {
        detailedMovies := detailedMovies + [details.value];
      }
    }
    assert briefResults[..|briefResults|] == briefResults;
  }

  /** The state of the `App` component, one field per `useState` hook. */
  class AppState {
    var query: string
    var location: string
    var movies: seq<Movie>
    var error: string
    var selectedMovie: Option<Movie>

    /** The detail view only ever shows a movie of the grid. */
    predicate Valid()
      reads this
    {
      selectedMovie.Some? ==> selectedMovie.value in movies
    }

    /** The initial state of the component, before the mount effect runs. */
    constructor ()
      ensures Valid()
      ensures query == "" && location == "" && movies == [] && error == "" && selectedMovie == None
    {
      query := "";
      location := "";
      movies := [];
      error := "";
      selectedMovie := None;
    }

    /** Typing in the search box. */
    method SetQuery(text: string)
      requires Valid()
      modifies this`query
      ensures Valid() && query == text
    {
      query := text;
    }

    /** Choosing a location in the select box. */
    method SetLocation(place: string)
      requires Valid()
      modifies this`location
      ensures Valid() && location == place
    {
      location := place;
    }

    /** Clicking a card of the grid opens its detail view. */
    method SelectMovie(movie: Movie)
      requires Valid() && movie in movies
      modifies this`selectedMovie
      ensures Valid() && selectedMovie == Some(movie)
    {
      selectedMovie := Some(movie);
    }

    /** Clicking the overlay or the close button closes the detail view. */
    method CloseDetails()
      requires Valid()
      modifies this`selectedMovie
      ensures Valid() && selectedMovie == None
    {
      selectedMovie := None;
    }

    /** `loadDefaultMovies`: one search per default title, a lookup of the
        first hit of each title that has one, the successful records pushed in
        title order, then the shuffled list shown and the error cleared. In
        this sequential model it runs with the detail view closed: at mount,
        and on a blank query after the selection is cleared. The page itself
        does not await the load, so a card clicked meanwhile stays selected. */
    method LoadDefaultMovies(gw: Gateway, draws: seq<nat>)
      requires ValidDraws(draws) && |DefaultTitles| <= |draws|
      requires selectedMovie == None
      modifies this`movies, this`error, gw`log
      ensures Valid()
      ensures movies == DefaultMovies(gw.server, draws) && error == ""
      ensures gw.log == old(gw.log) + DefaultRequests(gw.server, DefaultTitles)
    {
      var results := FetchDefaults(gw, DefaultTitles);
      movies := ShuffleArray(results, draws);
      error := "";
    }

    /** `handleSearch`, run to completion: the view it leaves is `SearchView`
        of the query, and the requests it sends are `SearchTraffic`. */
    method HandleSearch(gw: Gateway, draws: seq<nat>)
      requires ValidDraws(draws) && |DefaultTitles| <= |draws|
      modifies this`movies, this`error, this`selectedMovie, gw`log
      ensures Valid()
      ensures View(movies, error, selectedMovie) == SearchView(gw.server, query, draws)
      ensures gw.log == old(gw.log) + SearchTraffic(gw.server, query)
    {
      if Trim(query) == "" {
        selectedMovie := None;
        LoadDefaultMovies(gw, draws);
        return;
      }

      var briefResults := gw.FetchMovies(query);
      if |briefResults| == 0 {
        movies := [];
        error := NoMoviesFound;
        selectedMovie := None;
        return;
      }

      var detailedMovies := FetchAllDetails(gw, briefResults);
      movies := ShuffleArray(detailedMovies, draws);
      error := "";
      selectedMovie := None;
      assert gw.log == old(gw.log) + ([SearchRequest(query)] + Lookups(briefResults));
    }
  }
}
