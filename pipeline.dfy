/** The top-level flow (`main`): collect the posts, stop when there are none,
    otherwise build the daily sentiment trend and the word-cloud text.

    Reading the symbol from the console and upper-casing it, the messages
    printed and the two plots are not modelled: the symbol arrives as a
    parameter and the outcome carries what would be plotted. */
module Pipeline {
  import opened Collector
  import opened Sentiment
  import opened WordCloud

  /** What one run of the program produces. */
  datatype Outcome =
    | NoPosts                                          // "No posts found ..." and return
    | Analysed(trend: map<Date, real>, cloudText: string)

  method RunAnalysis(search: Search, stockSymbol: string, now: Timestamp,
                     score: Scorer, dateOf: DateOf, u: UnicodeWord)
    returns (outcome: Outcome)
    ensures outcome.NoPosts? <==> Collected(search, stockSymbol, now) == []
    ensures outcome.Analysed? ==>
              var posts := Collected(search, stockSymbol, now);
              && outcome.trend == DailySentiment(Keyed(posts, SentimentColumn(posts, score), dateOf))
              && outcome.trend.Keys != {}
              && (forall i :: 0 <= i < |posts| ==> dateOf(posts[i].created) in outcome.trend)
              && outcome.cloudText == WordCloudText(u, posts)
  {
    var posts := GetPosts(search, stockSymbol, now);
    var frame := new PostFrame(posts);
    if frame.IsEmpty() {
      return NoPosts;
    }
    var trend := frame.CreateSentimentTrend(score, dateOf);
    assert dateOf(posts[0].created) in trend;
    outcome := Analysed(trend, WordCloudText(u, frame.rows));
  }
}
