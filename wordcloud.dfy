/** Text preparation for the word cloud (`create_wordcloud`).

    The posts' titles and texts are joined into one string, then two
    `re.sub` passes delete short or ticker-like words.  A regular
    expression of the form `\b X{m,n} \b`, where X only matches word
    characters, matches exactly a maximal run of word characters (its
    neighbours are non-word characters or the ends of the string) whose
    length lies in m..n and whose characters all match X.  Each pass is
    therefore modelled as: split the text into maximal runs of word and of
    non-word characters, delete the word runs the pattern matches, and
    concatenate what is left. */
module WordCloud {
  import opened Collector

  /** Python's Unicode `\w` on characters outside ASCII (letters and digits
      of other scripts), left abstract. */
  type UnicodeWord = char -> bool

  /** `\w` for a `str` pattern: ASCII letters, digits and underscore, and
      whatever non-ASCII characters Unicode counts as alphanumeric. */
  predicate IsWordChar(u: UnicodeWord, c: char) {
    || ('a' <= c <= 'z') || ('A' <= c <= 'Z') || ('0' <= c <= '9') || c == '_'
    || (c as int > 0x7F && u(c))
  }

  /** A classification of characters into word and non-word characters.
      The runs below are defined for any classification; the word cloud
      uses `PythonWord`. */
  type WordClass = char -> bool

  function PythonWord(u: UnicodeWord): WordClass {
    c => IsWordChar(u, c)
  }

  predicate IsWordRun(w: WordClass, r: string) {
    r != [] && forall i :: 0 <= i < |r| ==> w(r[i])
  }

  predicate IsGap(w: WordClass, r: string) {
    r != [] && forall i :: 0 <= i < |r| ==> !w(r[i])
  }

  function Concat(rs: seq<string>): string {
    if rs == [] then [] else rs[0] + Concat(rs[1..])
  }

  /** Word runs and gaps strictly alternate: the runs are maximal. */
  predicate Alternating(w: WordClass, rs: seq<string>) {
    if rs == [] then true
    else
      && (IsWordRun(w, rs[0]) || IsGap(w, rs[0]))
      && (|rs| > 1 ==> IsWordRun(w, rs[0]) != IsWordRun(w, rs[1]))
      && Alternating(w, rs[1..])
  }

  /** No two word runs are adjacent (gaps may be). */
  predicate Separated(w: WordClass, rs: seq<string>) {
    if rs == [] then true
    else
      && (IsWordRun(w, rs[0]) || IsGap(w, rs[0]))
      && (|rs| > 1 && IsWordRun(w, rs[0]) ==> IsGap(w, rs[1]))
      && Separated(w, rs[1..])
  }

  /** Length of the longest prefix of `t` made only of word characters (`b`)
      or only of non-word characters (`!b`). */
  function PrefixLen(w: WordClass, t: string, b: bool): (k: nat)
    ensures k <= |t|
    ensures t != [] && w(t[0]) == b ==> k >= 1
  {
    if t == [] || w(t[0]) != b then 0 else 1 + PrefixLen(w, t[1..], b)
  }

  /** The prefix is all of one class, and the character after it is not. */
  lemma {:induction false} PrefixLenSpec(w: WordClass, t: string, b: bool)
    ensures forall i :: 0 <= i < PrefixLen(w, t, b) ==> w(t[i]) == b
    ensures PrefixLen(w, t, b) < |t| ==> w(t[PrefixLen(w, t, b)]) != b
  {
    if t != [] && w(t[0]) == b {
      PrefixLenSpec(w, t[1..], b);
    }
  }

  /** The maximal runs of word and of non-word characters of `t`, left to right. */
  function Runs(w: WordClass, t: string): seq<string>
    decreases |t|
  {
    if t == [] then []
    else
      var k := PrefixLen(w, t, w(t[0]));
      [t[..k]] + Runs(w, t[k..])
  }

  /** Splitting into runs loses nothing (the runs concatenate back to the
      text), and the runs are maximal (word runs and gaps alternate). */
  lemma {:induction false} RunsSplit(w: WordClass, t: string)
    ensures Concat(Runs(w, t)) == t
    ensures Alternating(w, Runs(w, t))
    ensures Runs(w, t) != [] ==> IsWordRun(w, Runs(w, t)[0]) == w(t[0])
    decreases |t|
  {
    if t != [] {
      var k := PrefixLen(w, t, w(t[0]));
      var rs := Runs(w, t);
      RunsSplit(w, t[k..]);
      HeadRun(w, t);
      assert t == t[..k] + t[k..];
      assert rs[0] == t[..k] && rs[1..] == Runs(w, t[k..]);
      if k < |t| {
        assert t[k..][0] == t[k];
      }
    }
  }

  /** The first run of a non-empty text is a word run exactly when the text
      starts with a word character, and the character after it is of the
      other class. */
  lemma HeadRun(w: WordClass, t: string)
    requires t != []
    ensures var k := PrefixLen(w, t, w(t[0]));
            && (IsWordRun(w, t[..k]) || IsGap(w, t[..k]))
            && IsWordRun(w, t[..k]) == w(t[0])
            && (k < |t| ==> w(t[k]) != w(t[0]))
  {
    var k := PrefixLen(w, t, w(t[0]));
    PrefixLenSpec(w, t, w(t[0]));
    assert t[..k][0] == t[0];
  }

  /** The word runs of a run list, in order. */
  function Words(w: WordClass, rs: seq<string>): seq<string> {
    if rs == [] then []
    else (if IsWordRun(w, rs[0]) then [rs[0]] else []) + Words(w, rs[1..])
  }

  /** The words of `t`: its maximal word runs, in order. */
  function WordRuns(w: WordClass, t: string): seq<string> {
    Words(w, Runs(w, t))
  }

  /** The two patterns of `create_wordcloud`. */
  datatype Pattern =
    | Ticker     // `\b[A-Z]{1,5}\b`
    | ShortWord  // `\b\w{1,2}\b`

  /** Whether the pattern matches the whole of a word run. */
  predicate Matches(p: Pattern, r: string) {
    match p
    case Ticker => 1 <= |r| <= 5 && forall i :: 0 <= i < |r| ==> 'A' <= r[i] <= 'Z'
    case ShortWord => 1 <= |r| <= 2
  }

  /** The runs left after deleting the word runs the pattern matches. */
  function Drop(w: WordClass, rs: seq<string>, p: Pattern): seq<string> {
    if rs == [] then []
    else (if IsWordRun(w, rs[0]) && Matches(p, rs[0]) then [] else [rs[0]]) + Drop(w, rs[1..], p)
  }

  /** `re.sub(p, '', t)` */
  function Sub(w: WordClass, p: Pattern, t: string): string {
    Concat(Drop(w, Runs(w, t), p))
  }

  /** The two passes of `create_wordcloud`: tickers first, then short words. */
  function Clean(w: WordClass, t: string): string {
    Sub(w, ShortWord, Sub(w, Ticker, t))
  }

  /** `title + ' ' + text` of one row. */
  function Piece(p: Post): string {
    p.title + " " + p.text
  }

  /** `' '.join(parts)` */
  function Join(parts: seq<string>): string {
    if parts == [] then ""
    else if |parts| == 1 then parts[0]
    else parts[0] + " " + Join(parts[1..])
  }

  /** `' '.join(df['title'] + ' ' + df['text'])`: the rows' pieces, in row order. */
  function CombinedText(posts: seq<Post>): string {
    Join(seq(|posts|, i requires 0 <= i < |posts| => Piece(posts[i])))
  }

  /** The text handed to the word-cloud generator. */
  function WordCloudText(u: UnicodeWord, posts: seq<Post>): string {
    Clean(PythonWord(u), CombinedText(posts))
  }

  // ---------------------------------------------------------------------
  // How runs behave under concatenation

  lemma {:induction false} PrefixLenUniform(w: WordClass, a: string, s: string, b: bool)
    requires forall i :: 0 <= i < |a| ==> w(a[i]) == b
    ensures PrefixLen(w, a + s, b) == |a| + PrefixLen(w, s, b)
  {
    if a != [] {
      assert (a + s)[0] == a[0] && w(a[0]) == b;
      assert (a + s)[1..] == a[1..] + s;
      PrefixLenUniform(w, a[1..], s, b);
    } else {
      assert a + s == s;
    }
  }

  lemma {:induction false} PrefixLenInside(w: WordClass, a: string, s: string, b: bool)
    requires PrefixLen(w, a, b) < |a|
    ensures PrefixLen(w, a + s, b) == PrefixLen(w, a, b)
  {
    if w(a[0]) == b {
      PrefixLenInside(w, a[1..], s, b);
      assert (a + s)[1..] == a[1..] + s;
    }
  }

  lemma {:induction false} WordsAppend(w: WordClass, xs: seq<string>, ys: seq<string>)
    ensures Words(w, xs + ys) == Words(w, xs) + Words(w, ys)
  {
    if xs != [] {
      assert (xs + ys)[0] == xs[0];
      assert (xs + ys)[1..] == xs[1..] + ys;
      WordsAppend(w, xs[1..], ys);
    } else {
      assert xs + ys == ys;
    }
  }

  /** The runs of `t` after its first run. */
  lemma RunsUnfold(w: WordClass, t: string)
    requires t != []
    ensures var k := PrefixLen(w, t, w(t[0]));
            1 <= k && Runs(w, t) == [t[..k]] + Runs(w, t[k..])
  {
  }

  /** A run of word characters is a single word. */
  lemma WordRunsOfWord(w: WordClass, r: string)
    requires IsWordRun(w, r)
    ensures WordRuns(w, r) == [r]
  {
    PrefixLenUniform(w, r, [], true);
    assert r + [] == r;
    RunsUnfold(w, r);
    assert r[..|r|] == r && r[|r|..] == [];
    assert Words(w, [r]) == [r] + Words(w, []);
  }

  /** A run of non-word characters holds no word. */
  lemma WordRunsOfGap(w: WordClass, g: string)
    requires IsGap(w, g)
    ensures WordRuns(w, g) == []
  {
    PrefixLenUniform(w, g, [], false);
    assert g + [] == g;
    RunsUnfold(w, g);
    assert g[..|g|] == g && g[|g|..] == [];
    assert Words(w, [g]) == Words(w, []);
  }

  /** Non-word characters in front of a text add no word to it and do not
      change its words. */
  lemma GapPrefix(w: WordClass, g: string, t: string)
    requires IsGap(w, g)
    ensures WordRuns(w, g + t) == WordRuns(w, t)
  {
    var x := g + t;
    var p := PrefixLen(w, t, false);
    assert !w(x[0]) by {
      assert x[0] == g[0];
    }
    assert PrefixLen(w, x, false) == |g| + p by {
      PrefixLenUniform(w, g, t, false);
    }
    assert WordRuns(w, x) == WordRuns(w, t[p..]) by {
      WordRunsUnfold(w, x, |g| + p);
      assert x[|g| + p..] == t[p..];
      NonWordHead(w, x[..|g| + p]);
    }
    if p > 0 {
      WordRunsUnfold(w, t, p);
      NonWordHead(w, t[..p]);
    } else {
      assert t[p..] == t;
    }
  }

  lemma NonWordHead(w: WordClass, r: string)
    requires r != [] && !w(r[0])
    ensures Words(w, [r]) == []
  {
    assert !IsWordRun(w, r);
    assert [r][1..] == [];
  }

  /** Words do not run across a non-word character: the words of `a + s`,
      where `s` is empty or starts with a non-word character, are the words
      of `a` followed by those of `s`. */
  lemma {:induction false} WordRunsAppend(w: WordClass, a: string, s: string)
    requires s == [] || !w(s[0])
    ensures WordRuns(w, a + s) == WordRuns(w, a) + WordRuns(w, s)
    decreases |a|, 1
  {
    if a == [] {
      assert a + s == s;
    } else {
      var b := w(a[0]);
      if PrefixLen(w, a, b) < |a| {
        WordRunsAppendInside(w, a, s);
      } else if b {
        WordRunsAppendWord(w, a, s);
      } else {
        PrefixLenSpec(w, a, false);
        assert IsGap(w, a);
        GapPrefix(w, a, s);
        WordRunsOfGap(w, a);
      }
    }
  }

  /** `WordRunsAppend` when the first run of `a` ends inside `a`. */
  lemma {:induction false} WordRunsAppendInside(w: WordClass, a: string, s: string)
    requires s == [] || !w(s[0])
    requires a != [] && PrefixLen(w, a, w(a[0])) < |a|
    ensures WordRuns(w, a + s) == WordRuns(w, a) + WordRuns(w, s)
    decreases |a|, 0
  {
    var k := PrefixLen(w, a, w(a[0]));
    WordRunsUnfold(w, a, k);
    WordRunsSharedHead(w, a, s, k);
    WordRunsAppend(w, a[k..], s);
    Regroup(WordRuns(w, a + s), Words(w, [a[..k]]), WordRuns(w, a[k..]), WordRuns(w, s), WordRuns(w, a));
  }

  lemma Regroup<T>(whole: seq<T>, head: seq<T>, rest: seq<T>, tail: seq<T>, front: seq<T>)
    requires whole == head + (rest + tail) && front == head + rest
    ensures whole == front + tail
  {
  }

  /** When the first run of `a` ends inside `a`, it is also the first run of `a + s`. */
  lemma WordRunsSharedHead(w: WordClass, a: string, s: string, k: nat)
    requires a != [] && k == PrefixLen(w, a, w(a[0])) && k < |a|
    ensures WordRuns(w, a + s) == Words(w, [a[..k]]) + WordRuns(w, a[k..] + s)
  {
    var x := a + s;
    assert x[0] == a[0];
    assert PrefixLen(w, x, w(x[0])) == k by {
      PrefixLenInside(w, a, s, w(a[0]));
    }
    SliceAppend(a, s, k);
    WordRunsUnfold(w, x, k);
  }

  lemma SliceAppend<T>(a: seq<T>, s: seq<T>, k: nat)
    requires k <= |a|
    ensures (a + s)[..k] == a[..k] && (a + s)[k..] == a[k..] + s
  {
  }

  /** The words of `t` are those of its first run, then those of the rest. */
  lemma WordRunsUnfold(w: WordClass, t: string, k: nat)
    requires t != [] && k == PrefixLen(w, t, w(t[0]))
    ensures WordRuns(w, t) == Words(w, [t[..k]]) + WordRuns(w, t[k..])
  {
    RunsUnfold(w, t);
    WordsAppend(w, [t[..k]], Runs(w, t[k..]));
  }

  /** `WordRunsAppend` when `a` is one word run. */
  lemma WordRunsAppendWord(w: WordClass, a: string, s: string)
    requires s == [] || !w(s[0])
    requires a != [] && PrefixLen(w, a, true) == |a|
    ensures WordRuns(w, a + s) == WordRuns(w, a) + WordRuns(w, s)
  {
    var x := a + s;
    assert x[0] == a[0];
    assert PrefixLen(w, x, true) == |a| by {
      PrefixLenSpec(w, a, true);
      PrefixLenUniform(w, a, s, true);
      assert s == [] || PrefixLen(w, s, true) == 0;
    }
    assert x[..|a|] == a && x[|a|..] == s;
    assert IsWordRun(w, a) by {
      PrefixLenSpec(w, a, true);
    }
    WordRunsUnfold(w, x, |a|);
    WordRunsOfWord(w, a);
  }

  /** The words of a concatenation of runs in which no two word runs are
      adjacent are those word runs themselves. */
  lemma {:induction false} SeparatedWords(w: WordClass, rs: seq<string>)
    requires Separated(w, rs)
    ensures WordRuns(w, Concat(rs)) == Words(w, rs)
  {
    if rs != [] {
      var rest := Concat(rs[1..]);
      SeparatedWords(w, rs[1..]);
      if IsWordRun(w, rs[0]) {
        if |rs| > 1 {
          assert rest == rs[1] + Concat(rs[2..]);
          assert rest[0] == rs[1][0];
        }
        WordRunsAppend(w, rs[0], rest);
        WordRunsOfWord(w, rs[0]);
      } else {
        GapPrefix(w, rs[0], rest);
      }
    }
  }

  lemma {:induction false} AlternatingIsSeparated(w: WordClass, rs: seq<string>)
    requires Alternating(w, rs)
    ensures Separated(w, rs)
  {
    if rs != [] {
      AlternatingIsSeparated(w, rs[1..]);
    }
  }

  /** A gap is not a word run. */
  lemma GapIsNotWord(w: WordClass, r: string)
    requires IsGap(w, r)
    ensures !IsWordRun(w, r)
  {
    assert !w(r[0]);
  }

  /** Deleting word runs never makes two word runs adjacent: the gaps that
      separated them are never deleted. */
  lemma {:induction false} DropSeparated(w: WordClass, rs: seq<string>, p: Pattern)
    requires Separated(w, rs)
    ensures Separated(w, Drop(w, rs, p))
  {
    if rs != [] {
      var rest := Drop(w, rs[1..], p);
      DropSeparated(w, rs[1..], p);
      if IsWordRun(w, rs[0]) && Matches(p, rs[0]) {
        assert Drop(w, rs, p) == rest;
      } else {
        var d := Drop(w, rs, p);
        assert d == [rs[0]] + rest;
        assert d[0] == rs[0] && d[1..] == rest;
        if |rs| > 1 && IsWordRun(w, rs[0]) {
          GapIsNotWord(w, rs[1]);
          assert rs[1..][0] == rs[1] && rs[1..][1..] == rs[2..];
          assert rest == [rs[1]] + Drop(w, rs[2..], p);
        }
      }
    }
  }

  lemma {:induction false} WordsDrop(w: WordClass, rs: seq<string>, p: Pattern)
    ensures Words(w, Drop(w, rs, p)) == Drop(w, Words(w, rs), p)
  {
    if rs != [] {
      var x := rs[0];
      WordsDrop(w, rs[1..], p);
      var ws := Words(w, rs[1..]);
      if IsWordRun(w, x) {
        assert Words(w, rs) == [x] + ws;
        assert ([x] + ws)[0] == x && ([x] + ws)[1..] == ws;
        assert Drop(w, [x] + ws, p) == (if Matches(p, x) then [] else [x]) + Drop(w, ws, p);
        if Matches(p, x) {
          assert Drop(w, rs, p) == Drop(w, rs[1..], p);
        } else {
          WordsAppend(w, [x], Drop(w, rs[1..], p));
          assert Words(w, [x]) == [x] + Words(w, []);
        }
      } else {
        assert Words(w, rs) == ws;
        WordsAppend(w, [x], Drop(w, rs[1..], p));
        assert Words(w, [x]) == Words(w, []);
      }
    }
  }

  // ---------------------------------------------------------------------
  // What one `re.sub` pass does

  /** A pass deletes exactly the word runs the pattern matches: the words
      of the result are the words of the input minus the matched ones, in
      their original order. */
  lemma SubWords(w: WordClass, p: Pattern, t: string)
    ensures WordRuns(w, Sub(w, p, t)) == Drop(w, WordRuns(w, t), p)
  {
    var rs := Runs(w, t);
    RunsSplit(w, t);
    AlternatingIsSeparated(w, rs);
    DropSeparated(w, rs, p);
    SeparatedWords(w, Drop(w, rs, p));
    WordsDrop(w, rs, p);
  }

  /** The non-word characters of a text, in order. */
  function NonWordChars(w: WordClass, t: string): string {
    if t == [] then []
    else (if w(t[0]) then [] else [t[0]]) + NonWordChars(w, t[1..])
  }

  lemma {:induction false} NonWordCharsAppend(w: WordClass, a: string, b: string)
    ensures NonWordChars(w, a + b) == NonWordChars(w, a) + NonWordChars(w, b)
  {
    if a != [] {
      assert (a + b)[0] == a[0];
      assert (a + b)[1..] == a[1..] + b;
      NonWordCharsAppend(w, a[1..], b);
    } else {
      assert a + b == b;
    }
  }

  lemma {:induction false} NonWordCharsOfWord(w: WordClass, r: string)
    requires forall i :: 0 <= i < |r| ==> w(r[i])
    ensures NonWordChars(w, r) == []
  {
    if r != [] {
      NonWordCharsOfWord(w, r[1..]);
    }
  }

  lemma {:induction false} DropKeepsNonWordChars(w: WordClass, rs: seq<string>, p: Pattern)
    ensures NonWordChars(w, Concat(Drop(w, rs, p))) == NonWordChars(w, Concat(rs))
  {
    if rs != [] {
      DropKeepsNonWordChars(w, rs[1..], p);
      NonWordCharsAppend(w, rs[0], Concat(rs[1..]));
      if IsWordRun(w, rs[0]) && Matches(p, rs[0]) {
        NonWordCharsOfWord(w, rs[0]);
        assert Drop(w, rs, p) == Drop(w, rs[1..], p);
      } else {
        var d := Drop(w, rs, p);
        assert d[0] == rs[0] && d[1..] == Drop(w, rs[1..], p);
        NonWordCharsAppend(w, rs[0], Concat(Drop(w, rs[1..], p)));
      }
    }
  }

  /** A pass keeps every non-word character, in order. */
  lemma SubKeepsNonWordChars(w: WordClass, p: Pattern, t: string)
    ensures NonWordChars(w, Sub(w, p, t)) == NonWordChars(w, t)
  {
    DropKeepsNonWordChars(w, Runs(w, t), p);
    RunsSplit(w, t);
  }

  lemma {:induction false} DropNothing(w: WordClass, rs: seq<string>, p: Pattern)
    requires forall r :: r in Words(w, rs) ==> !Matches(p, r)
    ensures Drop(w, rs, p) == rs
  {
    if rs != [] {
      assert Words(w, rs[1..]) == Words(w, rs)[|Words(w, rs)| - |Words(w, rs[1..])|..];
      DropNothing(w, rs[1..], p);
      if IsWordRun(w, rs[0]) {
        assert rs[0] in Words(w, rs);
      }
    }
  }

  /** A pass whose pattern matches none of the words changes nothing. */
  lemma SubNothing(w: WordClass, p: Pattern, t: string)
    requires forall r :: r in WordRuns(w, t) ==> !Matches(p, r)
    ensures Sub(w, p, t) == t
  {
    DropNothing(w, Runs(w, t), p);
    RunsSplit(w, t);
  }

  lemma {:induction false} WordsAreWordRuns(w: WordClass, rs: seq<string>)
    ensures forall r :: r in Words(w, rs) ==> IsWordRun(w, r)
  {
    if rs != [] {
      WordsAreWordRuns(w, rs[1..]);
    }
  }

  lemma {:induction false} DropRemoves(w: WordClass, rs: seq<string>, p: Pattern)
    ensures forall r :: r in Drop(w, rs, p) ==> r in rs && !(IsWordRun(w, r) && Matches(p, r))
  {
    if rs != [] {
      DropRemoves(w, rs[1..], p);
    }
  }

  // ---------------------------------------------------------------------
  // Both passes

  /** After both passes the words are the original words that are neither
      ticker-like nor short, in order; each is at least three characters
      long and not one to five capitals; every non-word character survives. */
  lemma CleanWords(w: WordClass, t: string)
    ensures WordRuns(w, Clean(w, t)) == Drop(w, Drop(w, WordRuns(w, t), Ticker), ShortWord)
    ensures forall r :: r in WordRuns(w, Clean(w, t)) ==>
              r in WordRuns(w, t) && |r| >= 3 && !Matches(Ticker, r)
    ensures NonWordChars(w, Clean(w, t)) == NonWordChars(w, t)
  {
    var once := Sub(w, Ticker, t);
    SubWords(w, Ticker, t);
    SubWords(w, ShortWord, once);
    SubKeepsNonWordChars(w, Ticker, t);
    SubKeepsNonWordChars(w, ShortWord, once);
    var ws := WordRuns(w, t);
    WordsAreWordRuns(w, Runs(w, t));
    DropRemoves(w, ws, Ticker);
    DropRemoves(w, Drop(w, ws, Ticker), ShortWord);
  }

  /** Cleaning a cleaned text changes nothing: deleting words never merges
      two words into a new one. */
  lemma CleanIdempotent(w: WordClass, t: string)
    ensures Clean(w, Clean(w, t)) == Clean(w, t)
  {
    var c := Clean(w, t);
    CleanWords(w, t);
    SubNothing(w, Ticker, c);
    SubNothing(w, ShortWord, c);
  }

  // ---------------------------------------------------------------------
  // The combined text

  /** Joining one more part adds a single space and that part. */
  lemma {:induction false} JoinSnoc(parts: seq<string>, x: string)
    ensures Join(parts + [x]) == if parts == [] then x else Join(parts) + " " + x
  {
    if parts == [] {
      assert parts + [x] == [x];
    } else if |parts| == 1 {
      assert parts + [x] == [parts[0], x];
      assert [parts[0], x][1..] == [x];
    } else {
      JoinSnoc(parts[1..], x);
      assert (parts + [x])[1..] == parts[1..] + [x];
    }
  }

  /** Each row adds `title + ' ' + text` to the combined text, after a
      single space separating it from the previous row. */
  lemma CombinedTextSnoc(posts: seq<Post>, p: Post)
    ensures CombinedText(posts + [p])
         == if posts == [] then p.title + " " + p.text
            else CombinedText(posts) + " " + p.title + " " + p.text
  {
    var pieces := seq(|posts|, i requires 0 <= i < |posts| => Piece(posts[i]));
    assert seq(|posts + [p]|, i requires 0 <= i < |posts + [p]| => Piece((posts + [p])[i])) == pieces + [Piece(p)];
    JoinSnoc(pieces, Piece(p));
  }

  /** The words of each part, part after part. */
  function PartWords(w: WordClass, parts: seq<string>): seq<string> {
    if parts == [] then [] else WordRuns(w, parts[0]) + PartWords(w, parts[1..])
  }

  /** Joining with spaces neither merges nor splits words. */
  lemma {:induction false} JoinWords(w: WordClass, parts: seq<string>)
    requires !w(' ')
    ensures WordRuns(w, Join(parts)) == PartWords(w, parts)
  {
    if |parts| == 1 {
      assert PartWords(w, parts[1..]) == [];
    } else if |parts| > 1 {
      var rest := Join(parts[1..]);
      JoinWords(w, parts[1..]);
      assert parts[0] + " " + rest == parts[0] + (" " + rest);
      WordRunsAppend(w, parts[0], " " + rest);
      GapPrefix(w, " ", rest);
    }
  }

  /** The words of `title + ' ' + text` are the title's words, then the text's. */
  lemma PieceWords(w: WordClass, p: Post)
    requires !w(' ')
    ensures WordRuns(w, Piece(p)) == WordRuns(w, p.title) + WordRuns(w, p.text)
  {
    assert p.title + " " + p.text == p.title + (" " + p.text);
    WordRunsAppend(w, p.title, " " + p.text);
    GapPrefix(w, " ", p.text);
  }

  /** The words of the rows, row after row, title before text. */
  function PostWords(w: WordClass, posts: seq<Post>): seq<string> {
    if posts == [] then [] else WordRuns(w, posts[0].title) + WordRuns(w, posts[0].text) + PostWords(w, posts[1..])
  }

  lemma {:induction false} PiecesWords(w: WordClass, posts: seq<Post>)
    requires !w(' ')
    ensures PartWords(w, seq(|posts|, i requires 0 <= i < |posts| => Piece(posts[i]))) == PostWords(w, posts)
  {
    if posts != [] {
      var parts := seq(|posts|, i requires 0 <= i < |posts| => Piece(posts[i]));
      assert parts[1..] == seq(|posts[1..]|, i requires 0 <= i < |posts[1..]| => Piece(posts[1..][i]));
      PiecesWords(w, posts[1..]);
      PieceWords(w, posts[0]);
    }
  }

  /** The combined text holds the rows' words in row order, title before
      text, none merged or split. */
  lemma CombinedTextWords(w: WordClass, posts: seq<Post>)
    requires !w(' ')
    ensures WordRuns(w, CombinedText(posts)) == PostWords(w, posts)
  {
    JoinWords(w, seq(|posts|, i requires 0 <= i < |posts| => Piece(posts[i])));
    PiecesWords(w, posts);
  }

  /** The words the word cloud is built from: the rows' words in row order,
      minus ticker-like and short ones. */
  lemma WordCloudWords(u: UnicodeWord, posts: seq<Post>)
    ensures var w := PythonWord(u);
            WordRuns(w, WordCloudText(u, posts)) == Drop(w, Drop(w, PostWords(w, posts), Ticker), ShortWord)
    ensures var w := PythonWord(u);
            forall r :: r in WordRuns(w, WordCloudText(u, posts)) ==> |r| >= 3 && !Matches(Ticker, r)
  {
    var w := PythonWord(u);
    assert !w(' ');
    CombinedTextWords(w, posts);
    CleanWords(w, CombinedText(posts));
  }
}
