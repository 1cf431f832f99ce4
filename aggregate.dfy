/** The accumulation loops of `loadDefaultMovies` and `handleSearch`, stated as
    functions of the server: what they push, and which requests they send. */
module Aggregate {
  import opened Wrappers
  import opened Omdb

  /** The titles loaded when the query is blank, in load order. */
  const DefaultTitles: seq<string> := [
    "Theri", "Retro", "Dada", "Anegan", "Takkar",
    "Sivappu Manjal Pachai", "Iraivi", "Raja Rani"
  ]

  /** What one step of an accumulate loop pushes: the value, or nothing for null. */
  function Keep<Y>(o: Option<Y>): seq<Y> {
    if o.Some? then [o.value] else []
  }

  /** The present results of `f` over `xs`, in the order of `xs`: the array a
      loop builds when it pushes each non-null result and skips each null. */
  function Collect<X, Y>(xs: seq<X>, f: X -> Option<Y>): (r: seq<Y>)
    ensures |r| <= |xs|
  {
    if xs == [] then [] else Collect(xs[..|xs| - 1], f) + Keep(f(xs[|xs| - 1]))
  }

  /** How many elements of `xs` `f` maps to null. */
  function Failures<X, Y>(xs: seq<X>, f: X -> Option<Y>): nat {
    if xs == [] then 0 else Failures(xs[..|xs| - 1], f) + (if f(xs[|xs| - 1]).None? then 1 else 0)
  }

  /** Each failure shrinks the result by one and leaves no placeholder. */
  lemma {:induction false} CollectCount<X, Y>(xs: seq<X>, f: X -> Option<Y>)
    ensures |Collect(xs, f)| + Failures(xs, f) == |xs|
  {
    if xs != [] {
      CollectCount(xs[..|xs| - 1], f);
    }
  }

  /** When nothing fails, the result holds one value per input, in input order. */
  lemma {:induction false} CollectAllPresent<X, Y>(xs: seq<X>, f: X -> Option<Y>)
    requires forall k | 0 <= k < |xs| :: f(xs[k]).Some?
    ensures |Collect(xs, f)| == |xs|
    ensures forall k | 0 <= k < |xs| :: Collect(xs, f)[k] == f(xs[k]).value
  {
    if xs != [] {
      CollectAllPresent(xs[..|xs| - 1], f);
    }
  }

  /** `Collect` keeps exactly the present results, in order: `o` lists the
      positions of `xs` whose result is present, in increasing order, and
      the k-th collected value is the result at `o[k]`. */
  lemma {:induction false} CollectOrigins<X, Y>(xs: seq<X>, f: X -> Option<Y>) returns (o: seq<nat>)
    ensures |o| == |Collect(xs, f)|
    ensures forall k | 0 <= k < |o| :: o[k] < |xs| && f(xs[o[k]]) == Some(Collect(xs, f)[k])
    ensures forall a, b | 0 <= a < b < |o| :: o[a] < o[b]
    ensures forall i | 0 <= i < |xs| && f(xs[i]).Some? :: i in o
  {
    if xs == [] {
      o := [];
    } else {
      var n := |xs| - 1;
      var init := xs[..n];
      var o' := CollectOrigins(init, f);
      var c, c' := Collect(xs, f), Collect(init, f);
      o := o' + (if f(xs[n]).Some? then [n] else []);
      assert c == c' + Keep(f(xs[n]));
      forall k | 0 <= k < |o| ensures o[k] < |xs| && f(xs[o[k]]) == Some(c[k]) {
        if k < |o'| {
          assert o[k] == o'[k] && c[k] == c'[k] && init[o'[k]] == xs[o'[k]];
        }
      }
      forall i | 0 <= i < |xs| && f(xs[i]).Some? ensures i in o {
        if i < n {
          assert init[i] == xs[i];
        }
      }
    }
  }

  /** Appending inputs appends their results: accumulation keeps input order. */
  lemma {:induction false} CollectAppend<X, Y>(xs: seq<X>, ys: seq<X>, f: X -> Option<Y>)
    ensures Collect(xs + ys, f) == Collect(xs, f) + Collect(ys, f)
    decreases |ys|
  {
    if ys != [] {
      var n := |ys| - 1;
      assert (xs + ys)[..|xs + ys| - 1] == xs + ys[..n];
      assert (xs + ys)[|xs + ys| - 1] == ys[n];
      CollectAppend(xs, ys[..n], f);
      assert Collect(xs + ys, f) == Collect(xs + ys[..n], f) + Keep(f(ys[n]));
      assert Collect(ys, f) == Collect(ys[..n], f) + Keep(f(ys[n]));
    } else {
      assert xs + ys == xs;
    }
  }

  /** The record a default title contributes: the details of its first hit, if
      it has a hit and the lookup succeeds. */
  function FirstHitDetails(server: Server, title: string): Option<Movie> {
    var hits := Hits(server, title);
    if |hits| > 0 then Details(server, hits[0].imdbID) else None
  }

  /** The records `loadDefaultMovies` accumulates over `titles`, before shuffling. */
  function DefaultResults(server: Server, titles: seq<string>): seq<Movie> {
    Collect(titles, t => FirstHitDetails(server, t))
  }

  /** The records `handleSearch` accumulates over `hits`, before shuffling. */
  function SearchResults(server: Server, hits: seq<SearchHit>): seq<Movie> {
    Collect(hits, (h: SearchHit) => Details(server, h.imdbID))
  }

  /** The requests `loadDefaultMovies` sends for one title: its search and,
      when that search has a hit, a lookup of the first hit. */
  function TitleRequests(server: Server, title: string): seq<Request> {
    var hits := Hits(server, title);
    [SearchRequest(title)] + (if |hits| > 0 then [DetailRequest(hits[0].imdbID)] else [])
  }

  /** The requests `loadDefaultMovies` sends for `titles`, title by title. */
  function DefaultRequests(server: Server, titles: seq<string>): seq<Request> {
    if titles == [] then []
    else DefaultRequests(server, titles[..|titles| - 1]) + TitleRequests(server, titles[|titles| - 1])
  }

  /** One more title adds its record, if any, and its requests at the end. */
  lemma {:induction false} DefaultsStep(server: Server, titles: seq<string>, k: nat)
    requires k < |titles|
    ensures DefaultResults(server, titles[..k + 1])
      == DefaultResults(server, titles[..k]) + Keep(FirstHitDetails(server, titles[k]))
    ensures DefaultRequests(server, titles[..k + 1])
      == DefaultRequests(server, titles[..k]) + TitleRequests(server, titles[k])
  {
    assert titles[..k + 1][..k] == titles[..k];
  }

  /** The lookups `handleSearch` sends for `hits`, one per hit, in hit order. */
  function Lookups(hits: seq<SearchHit>): seq<Request> {
    if hits == [] then [] else Lookups(hits[..|hits| - 1]) + [DetailRequest(hits[|hits| - 1].imdbID)]
  }

  /** The k-th lookup is for the k-th hit. */
  lemma {:induction false} LookupsOfHits(hits: seq<SearchHit>)
    ensures |Lookups(hits)| == |hits|
    ensures forall k | 0 <= k < |hits| :: Lookups(hits)[k] == DetailRequest(hits[k].imdbID)
  {
    if hits != [] {
      var n := |hits| - 1;
      LookupsOfHits(hits[..n]);
      assert forall k | 0 <= k < n :: hits[..n][k] == hits[k];
    }
  }

  /** The search texts among `requests`, in order. */
  function Searches(requests: seq<Request>): seq<string> {
    if requests == [] then []
    else
      var last := requests[|requests| - 1];
      Searches(requests[..|requests| - 1]) + (if last.SearchRequest? then [last.text] else [])
  }

  lemma {:induction false} SearchesAppend(a: seq<Request>, b: seq<Request>)
    ensures Searches(a + b) == Searches(a) + Searches(b)
    decreases |b|
  {
    if b != [] {
      var n := |b| - 1;
      assert (a + b)[..|a + b| - 1] == a + b[..n];
      assert (a + b)[|a + b| - 1] == b[n];
      SearchesAppend(a, b[..n]);
      var last := if b[n].SearchRequest? then [b[n].text] else [];
      assert Searches(a + b) == Searches(a + b[..n]) + last;
      assert Searches(b) == Searches(b[..n]) + last;
    } else {
      assert a + b == a;
    }
  }

  /** The requests for one title hold one search, for that title, and at
      most one lookup. */
  lemma TitleRequestsSearch(server: Server, title: string)
    ensures Searches(TitleRequests(server, title)) == [title]
    ensures |TitleRequests(server, title)| <= 2
  {
    var hits := Hits(server, title);
    var tail := if |hits| > 0 then [DetailRequest(hits[0].imdbID)] else [];
    SearchesAppend([SearchRequest(title)], tail);
    assert Searches([SearchRequest(title)]) == [title];
    assert Searches(tail) == [] by {
      if |hits| > 0 {
        assert Searches(tail) == Searches(tail[..0]) + [];
      }
    }
  }

  /** Default loading searches every title exactly once, in list order, and
      sends at most two requests per title in all. */
  lemma {:induction false} DefaultRequestsOrder(server: Server, titles: seq<string>)
    ensures Searches(DefaultRequests(server, titles)) == titles
    ensures |DefaultRequests(server, titles)| <= 2 * |titles|
  {
    if titles != [] {
      var n := |titles| - 1;
      DefaultRequestsOrder(server, titles[..n]);
      TitleRequestsSearch(server, titles[n]);
      SearchesAppend(DefaultRequests(server, titles[..n]), TitleRequests(server, titles[n]));
      assert titles == titles[..n] + [titles[n]];
    }
  }

  /** Default loading yields at most one record per default title (so at most
      eight): every title without a hit, or whose lookup fails, takes one away. */
  lemma DefaultResultsBound(server: Server)
    ensures |DefaultResults(server, DefaultTitles)| + Failures(DefaultTitles, t => FirstHitDetails(server, t))
      == |DefaultTitles| == 8
  {
    CollectCount(DefaultTitles, t => FirstHitDetails(server, t));
  }

  /** A user search yields at most one record per hit, so at most five; when
      every lookup succeeds it yields exactly the hits' records, in hit order. */
  lemma SearchResultsBound(server: Server, query: string)
    ensures |SearchResults(server, Hits(server, query))| <= |Hits(server, query)| <= MaxHits
    ensures (forall k | 0 <= k < |Hits(server, query)| :: Details(server, Hits(server, query)[k].imdbID).Some?) ==>
      var hits := Hits(server, query);
      |SearchResults(server, hits)| == |hits| &&
      forall k | 0 <= k < |hits| :: SearchResults(server, hits)[k] == Details(server, hits[k].imdbID).value
  {
    var hits := Hits(server, query);
    var f := (h: SearchHit) => Details(server, h.imdbID);
    if forall k | 0 <= k < |hits| :: Details(server, hits[k].imdbID).Some? {
      CollectAllPresent(hits, f);
    }
  }
}
