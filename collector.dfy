/** Collection of recent submissions about a stock symbol (`get_posts`).

    The Reddit client is replaced by a search function: `search(name, query)`
    is the sequence of submissions that searching subreddit `name` for `query`
    (restricted to the past week by the server) yields, in the order the
    client returns them. */
module Collector {

  /** Seconds on one timeline shared by the cutoff and the submissions.
      The source computes the cutoff from `datetime.utcnow()` but converts
      submission times with `datetime.fromtimestamp` (local time); the two are
      compared as if they were on the same clock.  Here both are already on
      one integer timeline, so that time-zone offset is not modelled. */
  type Timestamp = int

  /** The fields of a search result that the collector reads. */
  datatype Submission = Submission(title: string, selftext: string, score: int, createdUtc: Timestamp)

  /** One collected record: a row of the frame `get_posts` returns. */
  datatype Post = Post(title: string, text: string, score: int, created: Timestamp, subreddit: string)

  type Search = (string, string) -> seq<Submission>

  /** The subreddits searched, in the order they are searched. */
  const Subreddits: seq<string> := ["wallstreetbets", "stocks", "investing"]

  const WindowDays: int := 7
  const SecondsPerDay: int := 86400

  /** Start of the collection window: seven days before `now`. */
  function Cutoff(now: Timestamp): Timestamp {
    now - WindowDays * SecondsPerDay
  }

  /** The record built for submission `s` found in subreddit `name`. */
  function Record(s: Submission, name: string): Post {
    Post(s.title, s.selftext, s.score, s.createdUtc, name)
  }

  /** The records of one subreddit's search results, in result order. */
  function Tagged(results: seq<Submission>, name: string): seq<Post> {
    seq(|results|, j requires 0 <= j < |results| => Record(results[j], name))
  }

  /** Every search result of every subreddit in `names`, subreddit-major,
      before the window filter. */
  function Candidates(names: seq<string>, search: Search, query: string): seq<Post>
  {
    if names == [] then []
    else Candidates(names[..|names| - 1], search, query) + Tagged(search(names[|names| - 1], query), names[|names| - 1])
  }

  /** The records created at or after `cutoff`, in their original order. */
  function Windowed(ps: seq<Post>, cutoff: Timestamp): (r: seq<Post>)
    ensures |r| <= |ps|
    ensures forall i :: 0 <= i < |r| ==> r[i].created >= cutoff
  {
    if ps == [] then []
    else
      var last := ps[|ps| - 1];
      Windowed(ps[..|ps| - 1], cutoff) + (if last.created >= cutoff then [last] else [])
  }

  /** What `get_posts(query)` returns when searching is `search` and the clock reads `now`. */
  function Collected(search: Search, query: string, now: Timestamp): seq<Post> {
    Windowed(Candidates(Subreddits, search, query), Cutoff(now))
  }

  /** The collection loop: for each subreddit in order, for each search
      result in order, append a record when the result is inside the window. */
  method GetPosts(search: Search, stockSymbol: string, now: Timestamp) returns (posts: seq<Post>)
    ensures posts == Collected(search, stockSymbol, now)
  {
    posts := [];
    var cutoff := Cutoff(now);
    for i := 0 to |Subreddits|
      invariant posts == Windowed(Candidates(Subreddits[..i], search, stockSymbol), cutoff)
    {
      var name := Subreddits[i];
      var results := search(name, stockSymbol);
      ghost var before := Candidates(Subreddits[..i], search, stockSymbol);
      assert before + Tagged(results[..0], name) == before;
      for j := 0 to |results|
        invariant posts == Windowed(before + Tagged(results[..j], name), cutoff)
      {
        TaggedSnoc(before, results, j, name);
        WindowedSnoc(before + Tagged(results[..j], name), Record(results[j], name), cutoff);
        if results[j].createdUtc >= cutoff {
          posts := posts + [Record(results[j], name)];
        }
      }
      assert results[..|results|] == results;
      CandidatesSnoc(Subreddits, i, search, stockSymbol);
    }
    assert Subreddits[..|Subreddits|] == Subreddits;
  }

  lemma TaggedSnoc(before: seq<Post>, results: seq<Submission>, j: nat, name: string)
    requires j < |results|
    ensures before + Tagged(results[..j + 1], name) == (before + Tagged(results[..j], name)) + [Record(results[j], name)]
  {
    assert Tagged(results[..j + 1], name) == Tagged(results[..j], name) + [Record(results[j], name)];
  }

  lemma WindowedSnoc(ps: seq<Post>, p: Post, cutoff: Timestamp)
    ensures Windowed(ps + [p], cutoff) == Windowed(ps, cutoff) + (if p.created >= cutoff then [p] else [])
  {
    assert (ps + [p])[..|ps|] == ps;
  }

  lemma CandidatesSnoc(names: seq<string>, i: nat, search: Search, query: string)
    requires i < |names|
    ensures Candidates(names[..i + 1], search, query)
         == Candidates(names[..i], search, query) + Tagged(search(names[i], query), names[i])
  {
    assert names[..i + 1][..i] == names[..i];
  }

  /** `a` is `b` with some elements deleted, the rest kept in order. */
  predicate IsSubsequence<T(==)>(a: seq<T>, b: seq<T>)
    decreases |b|
  {
    if a == [] then true
    else if b == [] then false
    else
      || (a[|a| - 1] == b[|b| - 1] && IsSubsequence(a[..|a| - 1], b[..|b| - 1]))
      || IsSubsequence(a, b[..|b| - 1])
  }

  lemma {:induction false} SubsequenceShorter<T>(a: seq<T>, b: seq<T>)
    requires IsSubsequence(a, b)
    ensures |a| <= |b|
    ensures multiset(a) <= multiset(b)
    decreases |b|
  {
    if a != [] {
      var a', b' := a[..|a| - 1], b[..|b| - 1];
      assert a == a' + [a[|a| - 1]] && b == b' + [b[|b| - 1]];
      if a[|a| - 1] == b[|b| - 1] && IsSubsequence(a', b') {
        SubsequenceShorter(a', b');
      } else {
        SubsequenceShorter(a, b');
      }
    }
  }

  /** The window filter keeps an order-preserving subsequence of its input. */
  lemma {:induction false} WindowedIsSubsequence(ps: seq<Post>, cutoff: Timestamp)
    ensures IsSubsequence(Windowed(ps, cutoff), ps)
    decreases |ps|
  {
    if ps != [] {
      var init := ps[..|ps| - 1];
      var last := ps[|ps| - 1];
      WindowedIsSubsequence(init, cutoff);
      var w := Windowed(ps, cutoff);
      if last.created >= cutoff {
        assert w[..|w| - 1] == Windowed(init, cutoff);
      } else {
        assert w == Windowed(init, cutoff);
        if w != [] {
          assert w[|w| - 1] != last;
        }
      }
    }
  }

  /** No de-duplication: a record is kept exactly as many times as it occurs
      in the input when it is inside the window, and never otherwise. */
  lemma {:induction false} WindowedCounts(ps: seq<Post>, cutoff: Timestamp, p: Post)
    ensures multiset(Windowed(ps, cutoff))[p] == if p.created >= cutoff then multiset(ps)[p] else 0
    decreases |ps|
  {
    if ps != [] {
      var init, last := ps[..|ps| - 1], ps[|ps| - 1];
      var kept := if last.created >= cutoff then [last] else [];
      WindowedCounts(init, cutoff, p);
      assert ps == init + [last];
      assert multiset(ps) == multiset(init) + multiset{last};
      assert multiset(Windowed(ps, cutoff)) == multiset(Windowed(init, cutoff)) + multiset(kept);
    }
  }

  /** Every candidate record comes from a search result of one of the
      subreddits searched, tagged with that subreddit's name. */
  lemma {:induction false} CandidateOrigin(names: seq<string>, search: Search, query: string, p: Post)
    requires p in Candidates(names, search, query)
    ensures exists i, j :: 0 <= i < |names| && 0 <= j < |search(names[i], query)|
                       && p == Record(search(names[i], query)[j], names[i])
    decreases |names|
  {
    var init := names[..|names| - 1];
    var last := names[|names| - 1];
    if p in Candidates(init, search, query) {
      CandidateOrigin(init, search, query, p);
      var i, j :| 0 <= i < |init| && 0 <= j < |search(init[i], query)|
                  && p == Record(search(init[i], query)[j], init[i]);
      assert names[i] == init[i];
    } else {
      var ps := Tagged(search(last, query), last);
      var j :| 0 <= j < |ps| && ps[j] == p;
      assert names[|names| - 1] == last;
    }
  }

  /** The candidates are the three subreddits' results in the order
      wallstreetbets, stocks, investing. */
  lemma CandidatesOrder(search: Search, query: string)
    ensures Candidates(Subreddits, search, query)
         == Tagged(search("wallstreetbets", query), "wallstreetbets")
          + Tagged(search("stocks", query), "stocks")
          + Tagged(search("investing", query), "investing")
  {
    var wsb, stocks := ["wallstreetbets"], ["wallstreetbets", "stocks"];
    assert wsb[..0] == [] && stocks[..1] == wsb && Subreddits[..2] == stocks;
    assert Candidates(wsb, search, query) == Tagged(search("wallstreetbets", query), "wallstreetbets");
    assert Candidates(stocks, search, query)
        == Candidates(wsb, search, query) + Tagged(search("stocks", query), "stocks");
  }

  /** The number of search results over all subreddits in `names`. */
  function TotalResults(names: seq<string>, search: Search, query: string): nat {
    if names == [] then 0
    else TotalResults(names[..|names| - 1], search, query) + |search(names[|names| - 1], query)|
  }

  lemma {:induction false} CandidatesLength(names: seq<string>, search: Search, query: string)
    ensures |Candidates(names, search, query)| == TotalResults(names, search, query)
    decreases |names|
  {
    if names != [] {
      CandidatesLength(names[..|names| - 1], search, query);
    }
  }

  /** What `get_posts` promises about its result: every record is inside the
      window, the records are the in-window search results in
      subreddit-major then result order (an order-preserving subsequence of
      all results, duplicates kept), each copied from a result of one of the
      three subreddits and tagged with that subreddit. */
  lemma CollectedProperties(search: Search, query: string, now: Timestamp)
    ensures forall p :: p in Collected(search, query, now) ==> p.created >= Cutoff(now)
    ensures IsSubsequence(Collected(search, query, now), Candidates(Subreddits, search, query))
    ensures |Collected(search, query, now)| <= TotalResults(Subreddits, search, query)
    ensures forall p: Post :: multiset(Collected(search, query, now))[p]
                        == if p.created >= Cutoff(now) then multiset(Candidates(Subreddits, search, query))[p] else 0
    ensures forall p :: p in Collected(search, query, now) ==>
              exists i, j :: 0 <= i < |Subreddits| && 0 <= j < |search(Subreddits[i], query)|
                          && p == Record(search(Subreddits[i], query)[j], Subreddits[i])
  {
    var cands := Candidates(Subreddits, search, query);
    var posts := Collected(search, query, now);
    WindowedIsSubsequence(cands, Cutoff(now));
    SubsequenceShorter(posts, cands);
    CandidatesLength(Subreddits, search, query);
    forall p: Post
      ensures multiset(posts)[p] == if p.created >= Cutoff(now) then multiset(cands)[p] else 0
    {
      WindowedCounts(cands, Cutoff(now), p);
    }
    forall p | p in posts
      ensures exists i, j :: 0 <= i < |Subreddits| && 0 <= j < |search(Subreddits[i], query)|
                          && p == Record(search(Subreddits[i], query)[j], Subreddits[i])
    {
      assert p in multiset(posts);
      CandidateOrigin(Subreddits, search, query, p);
    }
  }

  /** The window bound is inclusive: a result created exactly at the cutoff
      is collected. */
  lemma CutoffInclusive(s: Submission, name: string, now: Timestamp)
    requires s.createdUtc == Cutoff(now)
    ensures Windowed([Record(s, name)], Cutoff(now)) == [Record(s, name)]
  {
    assert [Record(s, name)][..0] == [];
  }
}
