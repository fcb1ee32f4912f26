/** Daily sentiment trend (`create_sentiment_trend`).

    The VADER scorer is an uninterpreted function from text to `real`, and the
    calendar date of a timestamp (`created_utc.dt.date`) an uninterpreted
    function from timestamps to dates.  Means are taken over `real`, so the
    floating-point rounding of the pandas mean is not modelled. */
module Sentiment {
  import opened Collector

  type Date = int

  /** `analyze_sentiment`: the VADER compound score of a text. */
  type Scorer = string -> real

  /** The calendar date of a timestamp. */
  type DateOf = Timestamp -> Date

  datatype Option<T> = None | Some(value: T)

  // ---------------------------------------------------------------------
  // Arithmetic mean and its range

  function Sum(xs: seq<real>): real {
    if xs == [] then 0.0 else xs[0] + Sum(xs[1..])
  }

  function Mean(xs: seq<real>): real
    requires xs != []
  {
    Sum(xs) / (|xs| as real)
  }

  function Min(xs: seq<real>): (m: real)
    requires xs != []
    ensures m in xs
    ensures forall i :: 0 <= i < |xs| ==> m <= xs[i]
  {
    if |xs| == 1 then xs[0]
    else
      var m := Min(xs[1..]);
      if xs[0] <= m then xs[0] else m
  }

  function Max(xs: seq<real>): (m: real)
    requires xs != []
    ensures m in xs
    ensures forall i :: 0 <= i < |xs| ==> xs[i] <= m
  {
    if |xs| == 1 then xs[0]
    else
      var m := Max(xs[1..]);
      if xs[0] >= m then xs[0] else m
  }

  lemma {:induction false} SumWithin(xs: seq<real>, lo: real, hi: real)
    requires forall i :: 0 <= i < |xs| ==> lo <= xs[i] <= hi
    ensures (|xs| as real) * lo <= Sum(xs) <= (|xs| as real) * hi
  {
    if xs != [] {
      SumWithin(xs[1..], lo, hi);
      assert (|xs| as real) * lo == lo + (|xs[1..]| as real) * lo;
      assert (|xs| as real) * hi == hi + (|xs[1..]| as real) * hi;
    }
  }

  /** A mean lies between any lower and upper bound of the values averaged. */
  lemma MeanBetween(xs: seq<real>, lo: real, hi: real)
    requires xs != []
    requires forall i :: 0 <= i < |xs| ==> lo <= xs[i] <= hi
    ensures lo <= Mean(xs) <= hi
  {
    SumWithin(xs, lo, hi);
    QuotientWithin(Sum(xs), |xs| as real, lo, hi);
  }

  /** In particular it lies between the smallest and the largest of them. */
  lemma MeanWithin(xs: seq<real>)
    requires xs != []
    ensures Min(xs) <= Mean(xs) <= Max(xs)
  {
    MeanBetween(xs, Min(xs), Max(xs));
  }

  lemma QuotientWithin(s: real, n: real, lo: real, hi: real)
    requires n > 0.0 && n * lo <= s <= n * hi
    ensures lo <= s / n <= hi
  {
    var q := s / n;
    assert s == n * q;
  }

  // ---------------------------------------------------------------------
  // Grouping by date

  /** The 'sentiment' column: the score of each row's text. */
  function SentimentColumn(rows: seq<Post>, score: Scorer): seq<real> {
    seq(|rows|, i requires 0 <= i < |rows| => score(rows[i].text))
  }

  /** The (date, sentiment) pair of each row, in row order. */
  function Keyed(rows: seq<Post>, sentiment: seq<real>, dateOf: DateOf): (kv: seq<(Date, real)>)
    requires |sentiment| == |rows|
  {
    seq(|rows|, i requires 0 <= i < |rows| => (dateOf(rows[i].created), sentiment[i]))
  }

  /** The sentiments of the rows dated `d`, in row order. */
  function GroupOf(kv: seq<(Date, real)>, d: Date): seq<real> {
    if kv == [] then []
    else GroupOf(kv[..|kv| - 1], d) + (if kv[|kv| - 1].0 == d then [kv[|kv| - 1].1] else [])
  }

  /** `groupby(date)`: each date present in the rows, with the sentiments of
      its rows in row order. */
  function ByDate(kv: seq<(Date, real)>): (g: map<Date, seq<real>>)
    ensures forall d :: d in g <==> exists i :: 0 <= i < |kv| && kv[i].0 == d
    ensures forall d :: d in g ==> g[d] != []
  {
    if kv == [] then map[]
    else
      var init := kv[..|kv| - 1];
      var g := ByDate(init);
      var d := kv[|kv| - 1].0;
      assert forall i :: 0 <= i < |init| ==> init[i] == kv[i];
      g[d := (if d in g then g[d] else []) + [kv[|kv| - 1].1]]
  }

  /** `groupby(date)['sentiment'].mean()`: the mean sentiment of each date. */
  function DailySentiment(kv: seq<(Date, real)>): map<Date, real> {
    var g := ByDate(kv);
    map d | d in g :: Mean(g[d])
  }

  /** Each group holds exactly the sentiments of the rows of its date. */
  lemma {:induction false} ByDateGroups(kv: seq<(Date, real)>, d: Date)
    ensures d in ByDate(kv) ==> ByDate(kv)[d] == GroupOf(kv, d)
    ensures d !in ByDate(kv) ==> GroupOf(kv, d) == []
  {
    if kv != [] {
      ByDateGroups(kv[..|kv| - 1], d);
    }
  }

  lemma NoKeysIsEmpty(g: map<Date, seq<real>>)
    ensures (forall d :: d !in g) ==> g == map[]
  {
    if forall d :: d !in g {
      assert g.Keys == {};
    }
  }

  /** The total number of values over all groups. */
  ghost function TotalSize(g: map<Date, seq<real>>): nat
    decreases |g|
  {
    if g == map[] then 0
    else
      NoKeysIsEmpty(g);
      var d :| d in g;
      assert (g - {d}).Keys == g.Keys - {d};
      |g[d]| + TotalSize(g - {d})
  }

  lemma {:induction false} TotalSizeRemove(g: map<Date, seq<real>>, k: Date)
    requires k in g
    ensures TotalSize(g) == |g[k]| + TotalSize(g - {k})
    decreases |g|
  {
    NoKeysIsEmpty(g);
    var d :| d in g && TotalSize(g) == |g[d]| + TotalSize(g - {d});
    if d != k {
      assert (g - {d}).Keys == g.Keys - {d};
      assert (g - {k}).Keys == g.Keys - {k};
      TotalSizeRemove(g - {d}, k);
      TotalSizeRemove(g - {k}, d);
      assert g - {d} - {k} == g - {k} - {d};
    }
  }

  /** The groups partition the rows: their sizes add up to the row count. */
  lemma {:induction false} ByDatePartition(kv: seq<(Date, real)>)
    ensures TotalSize(ByDate(kv)) == |kv|
  {
    if kv != [] {
      var init := kv[..|kv| - 1];
      var d := kv[|kv| - 1].0;
      ByDatePartition(init);
      var g, g' := ByDate(init), ByDate(kv);
      TotalSizeRemove(g', d);
      assert g' - {d} == g - {d};
      if d in g {
        TotalSizeRemove(g, d);
      } else {
        assert g - {d} == g;
      }
    }
  }

  /** The daily trend has a date exactly when some row is dated that day;
      its value is the mean of that day's sentiments, so it lies between
      the day's smallest and largest sentiment; and the days' groups
      partition the rows. */
  lemma DailySentimentSpec(kv: seq<(Date, real)>)
    ensures forall d :: d in DailySentiment(kv) <==> exists i :: 0 <= i < |kv| && kv[i].0 == d
    ensures forall d :: d in DailySentiment(kv) ==>
              GroupOf(kv, d) != []
              && DailySentiment(kv)[d] == Mean(GroupOf(kv, d))
              && Min(GroupOf(kv, d)) <= DailySentiment(kv)[d] <= Max(GroupOf(kv, d))
    ensures TotalSize(ByDate(kv)) == |kv|
  {
    forall d | d in DailySentiment(kv)
      ensures GroupOf(kv, d) != []
      ensures DailySentiment(kv)[d] == Mean(GroupOf(kv, d))
      ensures Min(GroupOf(kv, d)) <= DailySentiment(kv)[d] <= Max(GroupOf(kv, d))
    {
      ByDateGroups(kv, d);
      MeanWithin(GroupOf(kv, d));
    }
    ByDatePartition(kv);
  }

  /** Every row's day appears in the trend. */
  lemma TrendCoversRows(rows: seq<Post>, score: Scorer, dateOf: DateOf)
    ensures var trend := DailySentiment(Keyed(rows, SentimentColumn(rows, score), dateOf));
            forall i :: 0 <= i < |rows| ==> dateOf(rows[i].created) in trend
  {
    var kv := Keyed(rows, SentimentColumn(rows, score), dateOf);
    forall i | 0 <= i < |rows|
      ensures dateOf(rows[i].created) in DailySentiment(kv)
    {
      assert kv[i].0 == dateOf(rows[i].created);
      DailySentimentSpec(kv);
    }
  }

  /** When every score is a VADER compound score in [-1, 1], so is every
      daily mean. */
  lemma DailySentimentInRange(kv: seq<(Date, real)>)
    requires forall i :: 0 <= i < |kv| ==> -1.0 <= kv[i].1 <= 1.0
    ensures forall d :: d in DailySentiment(kv) ==> -1.0 <= DailySentiment(kv)[d] <= 1.0
  {
    forall d | d in DailySentiment(kv)
      ensures -1.0 <= DailySentiment(kv)[d] <= 1.0
    {
      DailySentimentSpec(kv);
      var grp := GroupOf(kv, d);
      GroupWithin(kv, d, -1.0, 1.0);
      MeanBetween(grp, -1.0, 1.0);
    }
  }

  lemma {:induction false} GroupWithin(kv: seq<(Date, real)>, d: Date, lo: real, hi: real)
    requires forall i :: 0 <= i < |kv| ==> lo <= kv[i].1 <= hi
    ensures forall i :: 0 <= i < |GroupOf(kv, d)| ==> lo <= GroupOf(kv, d)[i] <= hi
  {
    if kv != [] {
      GroupWithin(kv[..|kv| - 1], d, lo, hi);
    }
  }

  /** Three posts on one day scoring 0.5, -0.5 and 0.0 give that day a
      mean of 0.0. */
  lemma ThreePostsOneDay(d: Date)
    ensures DailySentiment([(d, 0.5), (d, -0.5), (d, 0.0)]) == map[d := 0.0]
  {
    var kv: seq<(Date, real)> := [(d, 0.5), (d, -0.5), (d, 0.0)];
    ByDateGroups(kv, d);
    assert kv[..2][..1][..0] == [] && kv[..2][..1] == [(d, 0.5)] && kv[..2] == [(d, 0.5), (d, -0.5)];
    assert GroupOf(kv[..2][..1], d) == [0.5];
    assert GroupOf(kv[..2], d) == [0.5, -0.5];
    assert GroupOf(kv, d) == [0.5, -0.5, 0.0];
    assert Sum([0.5, -0.5, 0.0]) == 0.0;
  }

  // ---------------------------------------------------------------------
  // The frame that `get_posts` returns and `create_sentiment_trend` extends

  /** The data frame of collected rows.  `create_sentiment_trend` adds a
      'sentiment' column to it in place. */
  class PostFrame {
    var rows: seq<Post>
    var sentiment: Option<seq<real>>

    /** `pd.DataFrame(posts)` */
    constructor (posts: seq<Post>)
      ensures rows == posts && sentiment == None
    {
      rows := posts;
      sentiment := None;
    }

    /** `df.empty` */
    predicate IsEmpty()
      reads this
    {
      rows == []
    }

    /** Adds the 'sentiment' column and returns the daily mean sentiment that
        is plotted.  A frame built from no rows has no 'text' column, so the
        source fails on it: the frame must hold rows. */
    method CreateSentimentTrend(score: Scorer, dateOf: DateOf) returns (daily: map<Date, real>)
      requires rows != []
      modifies this
      ensures rows == old(rows)
      ensures sentiment == Some(SentimentColumn(rows, score))
      ensures daily == DailySentiment(Keyed(rows, SentimentColumn(rows, score), dateOf))
      ensures forall i :: 0 <= i < |rows| ==> dateOf(rows[i].created) in daily
    {
      var column := SentimentColumn(rows, score);
      sentiment := Some(column);
      daily := DailySentiment(Keyed(rows, column, dateOf));
      TrendCoversRows(rows, score, dateOf);
    }
  }
}
