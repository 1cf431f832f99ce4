/** The movie database as `App.jsx` sees it: the records it exchanges, the
    two replies it parses, and the two request helpers `fetchMovies` and
    `fetchMovieDetails`. The remote service itself is a parameter. */
module Omdb {
  import opened Wrappers

  /** One entry of the `Search` list of a title search. */
  datatype SearchHit = SearchHit(imdbID: string, title: string)

  /** A full detail record, with the fields the page shows. */
  datatype Movie = Movie(
    imdbID: string, title: string, year: string,
    poster: string, imdbRating: string,
    genre: string, runtime: string, director: string, actors: string, plot: string)

  /** What a title search yields: the call fails (network error or a body that
      is not JSON), or it returns a body whose `Response` field is a string
      and whose `Search` field may be missing. */
  datatype SearchReply =
    | SearchFailed
    | SearchBody(response: string, search: Option<seq<SearchHit>>)

  /** What a lookup by id yields: failure, or a body with its `Response` field. */
  datatype DetailReply =
    | DetailFailed
    | DetailBody(response: string, record: Movie)

  /** The behaviour of the remote service: the reply to each search text and to
      each id. */
  datatype Server = Server(search: string -> SearchReply, lookup: string -> DetailReply)

  /** The requests the page sends, in the order it sends them. */
  datatype Request = SearchRequest(text: string) | DetailRequest(imdbID: string)

  /** `fetchMovies` keeps at most this many hits. */
  const MaxHits := 5

  /** The value `data.Response` has on success. */
  const Success := "True"

  /** The hits `fetchMovies` returns for a reply: at most the first five of
      `Search` when `Response` is `"True"`; none otherwise, and none when the
      call failed or `Search` is missing (slicing it throws, and the handler
      returns the empty list). */
  function SearchHits(reply: SearchReply): (hits: seq<SearchHit>)
    ensures |hits| <= MaxHits
    ensures reply.SearchBody? && reply.response == Success && reply.search.Some? ==>
      var all := reply.search.value;
      |hits| == (if |all| < MaxHits then |all| else MaxHits) && hits == all[..|hits|]
    ensures !(reply.SearchBody? && reply.response == Success && reply.search.Some?) ==> hits == []
  {
    match reply
    case SearchFailed => []
    case SearchBody(response, search) =>
      if response != Success then []
      else match search
        case None => []
        case Some(all) => if |all| <= MaxHits then all else all[..MaxHits]
  }

  /** The record `fetchMovieDetails` returns for a reply: the body itself when
      `Response` is `"True"`, absent on any failure. */
  function DetailRecord(reply: DetailReply): (details: Option<Movie>)
    ensures details.Some? <==> reply.DetailBody? && reply.response == Success
    ensures details.Some? ==> details.value == reply.record
  {
    match reply
    case DetailFailed => None
    case DetailBody(response, record) => if response == Success then Some(record) else None
  }

  /** The hits a search for `text` yields from `server`. */
  function Hits(server: Server, text: string): seq<SearchHit> {
    SearchHits(server.search(text))
  }

  /** The record a lookup of `imdbID` yields from `server`. */
  function Details(server: Server, imdbID: string): Option<Movie> {
    DetailRecord(server.lookup(imdbID))
  }

  /** The two request helpers of the page, over a fixed server. Each call is
      appended to `log`, so that callers can state which requests they made. */
  class Gateway {
    const server: Server
    var log: seq<Request>

    constructor (server: Server)
      ensures this.server == server && log == []
    {
      this.server := server;
      log := [];
    }

    /** `fetchMovies(searchText)`. */
    method FetchMovies(searchText: string) returns (hits: seq<SearchHit>)
      modifies this`log
      ensures log == old(log) + [SearchRequest(searchText)]
      ensures hits == Hits(server, searchText)
    {
      log := log + [SearchRequest(searchText)];
      hits := SearchHits(server.search(searchText));
    }

    /** `fetchMovieDetails(imdbID)`. */
    method FetchMovieDetails(imdbID: string) returns (details: Option<Movie>)
      modifies this`log
      ensures log == old(log) + [DetailRequest(imdbID)]
      ensures details == Details(server, imdbID)
    {
      log := log + [DetailRequest(imdbID)];
      details := DetailRecord(server.lookup(imdbID));
    }
  }
}
