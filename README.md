# Reddit stock-sentiment scraper: a Dafny model of its core

The program asks for a stock symbol, searches three subreddits
(wallstreetbets, stocks, investing) for it, keeps the submissions created in
the last seven days, and then draws two pictures from the collected rows: the
mean VADER sentiment of each calendar day, and a word cloud of the rows'
titles and texts after ticker-like and very short words are deleted. When
nothing was collected it stops with a message.

This project models that core in four modules:

- `Collector` (`collector.dfy`): `get_posts`. The Reddit client becomes a
  search function from (subreddit, query) to the sequence of results.
  `GetPosts` is the nested collection loop. It is proved equal to
  `Collected`, the window filter `Windowed` applied to `Candidates`, which
  is all results in subreddit-major, then result order.
- `Sentiment` (`sentiment.dfy`): `create_sentiment_trend`. The frame is a
  class `PostFrame`. `CreateSentimentTrend` adds the 'sentiment' column in
  place and returns the per-day means. The scorer and the date of a
  timestamp are function parameters. Grouping (`ByDate`) and means are over
  `real`.
- `WordCloud` (`wordcloud.dfy`): the text preparation of `create_wordcloud`.
  The rows are joined as `title + ' ' + text`, separated by single spaces.
  Each `re.sub` pass has the form `\b X{m,n} \b`, where `X` matches only word
  characters. Such a pattern matches exactly a maximal run of word
  characters whose length is in `m..n` and whose characters all match `X`.
  So a pass is modelled as three steps: split the text into maximal word and
  non-word runs (`Runs`), delete the matching word runs (`Drop`), and
  concatenate the rest (`Sub`). `\w` is concrete on ASCII (`[A-Za-z0-9_]`).
  Which non-ASCII characters count as word characters is a parameter.
- `Pipeline` (`pipeline.dfy`): `main`. It builds the frame, stops with
  `NoPosts` when the frame is empty, and otherwise produces the trend and
  the word-cloud text.

## Model

| member | source | states |
|---|---|---|
| Collector.Candidates | reddit_sentiment_scraper.py:33-43 | Definition: the records of all search results, subreddit after subreddit; its properties are proved in `CandidatesOrder`, `CandidatesLength` and `CandidateOrigin`. |
| Collector.Collected | reddit_sentiment_scraper.py:28-45 | Definition: what `get_posts` returns, the window filter over `Candidates`; its properties are proved in `CollectedProperties`, and `GetPosts` is proved to compute it. |
| Collector.GetPosts | reddit_sentiment_scraper.py:28-45 | The loop's result equals `Collected`: the in-window records, subreddit after subreddit in list order and result after result in search order. |
| Collector.Windowed | reddit_sentiment_scraper.py:36 | The filter never lengthens its input, and every kept record was created at or after the cutoff. |
| Collector.WindowedIsSubsequence | reddit_sentiment_scraper.py:33-37 | The kept records are an order-preserving subsequence of all search results. |
| Collector.WindowedCounts | reddit_sentiment_scraper.py:36-37 | There is no de-duplication. An in-window record is kept exactly as often as it occurs among the results, and an out-of-window record is never kept. |
| Collector.SubsequenceShorter | reddit_sentiment_scraper.py:33-37 | A subsequence is no longer than its source and holds no element more often. |
| Collector.CandidateOrigin | reddit_sentiment_scraper.py:33-43 | Every candidate record is the record of some result of one of the searched subreddits: it copies that result's title, selftext, score and creation time and is tagged with that subreddit. |
| Collector.CandidatesOrder | reddit_sentiment_scraper.py:26-35 | The candidates are the wallstreetbets results, then the stocks results, then the investing results. |
| Collector.CandidatesLength | reddit_sentiment_scraper.py:33-35 | There is one candidate per search result over all subreddits. |
| Collector.CollectedProperties | reddit_sentiment_scraper.py:28-45 | On the result of `get_posts`: every record is inside the window, and the records are an order-preserving subsequence of the results. There are at most as many records as results, and duplicates are kept. Each record comes from one of the three subreddits' results. |
| Collector.CutoffInclusive | reddit_sentiment_scraper.py:31-36 | The window bound is inclusive: a result created exactly seven days before now is kept. |
| Sentiment.Mean | reddit_sentiment_scraper.py:55 | Definition: the arithmetic mean of a non-empty sequence; its properties are proved in `MeanBetween` and `MeanWithin`. |
| Sentiment.DailySentiment | reddit_sentiment_scraper.py:55 | Definition: the groupby-date mean; its properties are proved in `DailySentimentSpec`, `TrendCoversRows`, `DailySentimentInRange` and `ThreePostsOneDay`. |
| Sentiment.ByDate | reddit_sentiment_scraper.py:55 | The groups have a date exactly when some row has that date, and no group is empty. |
| Sentiment.ByDateGroups | reddit_sentiment_scraper.py:55 | The group of a date is exactly the sentiments of that date's rows, in row order. A date with no group has no rows. |
| Sentiment.ByDatePartition | reddit_sentiment_scraper.py:55 | The group sizes add up to the number of rows, so every row is in exactly one group. |
| Sentiment.MeanBetween | reddit_sentiment_scraper.py:55 | A mean lies within any bounds of the values averaged. |
| Sentiment.MeanWithin | reddit_sentiment_scraper.py:55 | A mean lies between the smallest and the largest value averaged. |
| Sentiment.DailySentimentSpec | reddit_sentiment_scraper.py:55 | The trend has a date exactly when some row has that date. Its value is the mean of that day's non-empty group and lies between the group's minimum and maximum. The groups partition the rows. |
| Sentiment.TrendCoversRows | reddit_sentiment_scraper.py:54-55 | Every row's date is a key of the trend. |
| Sentiment.DailySentimentInRange | reddit_sentiment_scraper.py:47-55 | When every score is in [-1, 1], as VADER compound scores are, every daily mean is too. |
| Sentiment.GroupWithin | reddit_sentiment_scraper.py:55 | Bounds on all sentiments hold for every date's group. |
| Sentiment.ThreePostsOneDay | reddit_sentiment_scraper.py:55 | Scores 0.5, -0.5 and 0.0 on one day give that day the mean 0.0 and no other day. |
| Sentiment.PostFrame.constructor | reddit_sentiment_scraper.py:45 | The frame holds the collected rows and has no 'sentiment' column yet. |
| Sentiment.PostFrame.IsEmpty | reddit_sentiment_scraper.py:91 | Definition: `df.empty`, the frame has no rows; `Pipeline.RunAnalysis` proves the guard built on it. |
| Sentiment.PostFrame.CreateSentimentTrend | reddit_sentiment_scraper.py:52-55 | On a frame with rows (an empty frame has no 'text' column, so line 54 fails on it): the rows are unchanged and the 'sentiment' column becomes the score of each row's `text`. The result is the per-date mean of that column and has every row's date. |
| WordCloud.Runs | reddit_sentiment_scraper.py:73-74 | Definition: the maximal word and non-word runs that `\b` delimits; its properties are proved in `RunsSplit`. |
| WordCloud.Matches | reddit_sentiment_scraper.py:73-74 | Definition: a word run matched by `\b[A-Z]{1,5}\b` (1 to 5 capitals) or by `\b\w{1,2}\b` (1 or 2 characters); used in `SubWords` and `CleanWords`. |
| WordCloud.Drop | reddit_sentiment_scraper.py:73-74 | Definition: the runs left after deleting the matching word runs; its properties are proved in `DropRemoves` and `SubWords`. |
| WordCloud.Sub | reddit_sentiment_scraper.py:73-74 | Definition: one `re.sub(pattern, '', text)` pass; its properties are proved in `SubWords`, `SubKeepsNonWordChars` and `SubNothing`. |
| WordCloud.Clean | reddit_sentiment_scraper.py:73-74 | Definition: the ticker pass, then the short-word pass; its properties are proved in `CleanWords` and `CleanIdempotent`. |
| WordCloud.Join | reddit_sentiment_scraper.py:70 | Definition: `' '.join(parts)`; its properties are proved in `JoinSnoc` and `JoinWords`. |
| WordCloud.CombinedText | reddit_sentiment_scraper.py:70 | Definition: the rows' `title + ' ' + text`, joined with spaces; its properties are proved in `CombinedTextSnoc` and `CombinedTextWords`. |
| WordCloud.WordCloudText | reddit_sentiment_scraper.py:67-74 | Definition: the cleaned combined text handed to the generator; its properties are proved in `WordCloudWords`. |
| WordCloud.RunsSplit | reddit_sentiment_scraper.py:73-74 | The runs concatenate back to the text, and word runs and non-word runs alternate, so each run is maximal. |
| WordCloud.WordRunsAppend | reddit_sentiment_scraper.py:70-74 | No word extends across a non-word character. The words of `a + s`, when `s` starts with a non-word character, are the words of `a` and then those of `s`. |
| WordCloud.SubWords | reddit_sentiment_scraper.py:73-74 | A pass deletes exactly the words the pattern matches and keeps the other words in order. |
| WordCloud.SubKeepsNonWordChars | reddit_sentiment_scraper.py:73-74 | A pass keeps every non-word character, in order. |
| WordCloud.SubNothing | reddit_sentiment_scraper.py:73-74 | A pass changes nothing when its pattern matches none of the words. |
| WordCloud.DropRemoves | reddit_sentiment_scraper.py:73-74 | Every run left after a pass was a run before it, and no matching word is left. |
| WordCloud.CleanWords | reddit_sentiment_scraper.py:73-74 | After both passes the words are the original words, in order, minus the ticker-like ones (1 to 5 capitals) and then the 1-2 character ones. Every remaining word has at least 3 characters and is not ticker-like. Every non-word character remains. |
| WordCloud.CleanIdempotent | reddit_sentiment_scraper.py:73-74 | Cleaning an already cleaned text changes nothing. |
| WordCloud.JoinSnoc | reddit_sentiment_scraper.py:70 | Joining one more part adds one space and then that part. |
| WordCloud.CombinedTextSnoc | reddit_sentiment_scraper.py:70 | Each row adds its title, a space and its text, separated from the previous row by one space. |
| WordCloud.JoinWords | reddit_sentiment_scraper.py:70 | Joining with spaces neither merges nor splits words. |
| WordCloud.PieceWords | reddit_sentiment_scraper.py:70 | The words of `title + ' ' + text` are the title's words, then the text's words. |
| WordCloud.CombinedTextWords | reddit_sentiment_scraper.py:70 | The combined text holds the rows' words in row order, each row's title words before its text words. |
| WordCloud.WordCloudWords | reddit_sentiment_scraper.py:67-74 | The word-cloud text holds the rows' words in order, minus the ticker-like and then the short ones. Every word left has at least 3 characters and is not 1 to 5 capitals. |
| Pipeline.RunAnalysis | reddit_sentiment_scraper.py:85-99 | The run stops with no analysis exactly when nothing was collected. Otherwise the trend is the per-date mean sentiment of the collected rows: it is non-empty and has every row's date. The word-cloud text is the cleaned combined text of those rows. |

## Left out

- The Reddit client, its credentials, `subreddit.search` with `time_filter='week'` and `display_name`: a search function parameter stands for them. The subreddit tag is the name from the list. A failing network call is not modelled.
- Time zones: the cutoff is computed from `datetime.utcnow()`, but submission times are converted with `datetime.fromtimestamp`, which gives local time. The model puts both on one integer timeline, so the local time-zone offset in that comparison is not modelled. The date of a timestamp is a function parameter.
- The VADER scorer's internals and the `nltk.download` of its lexicon: the scorer is an uninterpreted function from text to `real`. Its [-1, 1] range is a precondition of `Sentiment.DailySentimentInRange` only.
- Sentiment.PostFrame.CreateSentimentTrend: the pandas mean is taken over `real`, so floating-point rounding is not modelled. Dates are unordered map keys; the sorted order of the groupby index is not modelled.
- Plotting (matplotlib), `WordCloud(...).generate`, `load_dotenv`, `input` and `print`: these are rendering and I/O. The word-cloud model ends at the text handed to the generator.
- Pipeline.RunAnalysis: the symbol is taken as given. The `.upper()` applied to the console input (Unicode upper-casing) is not modelled.
- WordCloud.IsWordChar: Unicode's classification of non-ASCII characters as `\w` is a parameter, not a table.
- Comment collection, comment sentiment, top-5 posts, hourly counts and per-source counts: the program has no code for them (`get_posts` never fetches comments), so they are not modelled.
- WordCloud.WordCloudText: on no rows the source's frame has no 'title' column and `create_wordcloud` fails with a KeyError; the model gives the empty text instead. Only `main`'s empty-frame guard calls it, and `Pipeline.RunAnalysis` never reaches it without rows.
