/** The request-level rules of views.py: the rank-delta annotation of the home page and the
    routing of a search query (empty form, link to a submission, title search with a time
    window). The ORM queries behind them and the template rendering are not modelled. */
module Views {
  import opened Opt
  import opened Strings
  import opened Records
  import opened Tick

  // ---------------------------------------------------------------------------------------
  // home: rank deltas

  const Up: char := '\U{25B2}'
  const Down: char := '\U{25BC}'
  const Level: char := '\U{25AC}'

  /** The arrow shown beside a submission: up when it climbed (a positive
      `rank_previous - rank`), down when it fell, level otherwise. */
  function DeltaShape(delta: int): (shape: char)
    ensures shape == Up <==> delta > 0
    ensures shape == Down <==> delta < 0
    ensures shape == Level <==> delta == 0
  {
    if delta > 0 then Up else if delta < 0 then Down else Level
  }

  /** The colour of the arrow: green when it climbed, red when it fell, orange otherwise. */
  function DeltaColor(delta: int): (color: string)
    ensures color == "green" <==> delta > 0
    ensures color == "red" <==> delta < 0
    ensures color == "orange" <==> delta == 0
  {
    if delta > 0 then "green" else if delta < 0 then "red" else "orange"
  }

  /** `"%s%d" % (shape, rank_delta)`: the arrow followed by the signed decimal delta, which
      reads back as the delta; a fall carries its minus sign after the down arrow. */
  function DeltaString(delta: int): (r: string)
    ensures |r| >= 2 && r[0] == DeltaShape(delta)
    ensures ParseInt(r[1..]) == Some(delta) && Canonical(r[1..])
    ensures r[1] == '-' <==> r[0] == Down
  {
    IntToStringRoundTrip(delta);
    IntToStringCanonical(delta);
    [DeltaShape(delta)] + IntToString(delta)
  }

  /** Distinct deltas are shown as distinct strings. */
  lemma DeltaStringInjective(a: int, b: int)
    requires DeltaString(a) == DeltaString(b)
    ensures a == b
  {
    assert Some(a) == ParseInt(DeltaString(a)[1..]);
  }

  /** Ordered by a numeric key, as `order_by(key)` returns rows. */
  predicate SortedBy<T>(xs: seq<T>, key: T -> int)
  {
    forall i, j :: 0 <= i < j < |xs| ==> key(xs[i]) <= key(xs[j])
  }

  /** `x` placed before the first row of `xs` whose key is greater than its own. */
  function InsertBy<T>(x: T, xs: seq<T>, key: T -> int): (r: seq<T>)
    ensures |r| == |xs| + 1 && multiset(r) == multiset(xs) + multiset{x}
    ensures r[0] == x || (xs != [] && r[0] == xs[0])
  {
    if xs == [] then [x]
    else if key(x) < key(xs[0]) then [x] + xs
    else
      assert xs == [xs[0]] + xs[1..];
      [xs[0]] + InsertBy(x, xs[1..], key)
  }

  /** Inserting into an ordered sequence keeps it ordered. */
  lemma {:induction false} InsertBySorted<T>(x: T, xs: seq<T>, key: T -> int)
    requires SortedBy(xs, key)
    ensures SortedBy(InsertBy(x, xs, key), key)
  {
    if xs == [] {
    } else if key(x) < key(xs[0]) {
      SortedCons(x, xs, key);
    } else {
      var rest := InsertBy(x, xs[1..], key);
      InsertBySorted(x, xs[1..], key);
      forall y | y in rest
        ensures key(xs[0]) <= key(y)
      {
        assert y in multiset(rest);
        if y != x {
          assert y in multiset(xs[1..]);
        }
      }
      SortedCons(xs[0], rest, key);
    }
  }

  /** A row no greater than every row of an ordered sequence can go in front of it. */
  lemma SortedCons<T>(h: T, t: seq<T>, key: T -> int)
    requires SortedBy(t, key)
    requires t == [] || key(h) <= key(t[0])
    ensures SortedBy([h] + t, key)
  {
  }

  /** A permutation of `xs` ordered by `key`; rows with equal keys keep their order (each row
      is inserted after every earlier row with the same key). */
  function SortBy<T>(xs: seq<T>, key: T -> int): (r: seq<T>)
    ensures SortedBy(r, key) && multiset(r) == multiset(xs)
  {
    if xs == [] then []
    else
      assert xs == xs[..|xs| - 1] + [xs[|xs| - 1]];
      InsertBySorted(xs[|xs| - 1], SortBy(xs[..|xs| - 1], key), key);
      InsertBy(xs[|xs| - 1], SortBy(xs[..|xs| - 1], key), key)
  }

  function RankOf(s: Submission): int
  {
    s.rank
  }

  /** `Submission.objects.filter(rank__gt=0).order_by('rank')`. */
  function HomeSubmissions(db: Db): (r: seq<Submission>)
    requires Wf(db)
    ensures SortedBy(r, RankOf)
  {
    SortBy(Snapshot(db), RankOf)
  }

  /** The home page lists exactly the stored submissions inside the window, each once. */
  lemma HomeListsWindow(db: Db)
    requires Wf(db)
    ensures forall s :: s in HomeSubmissions(db) <==> s in db.submissions.Values && s.rank > 0
    ensures forall s :: multiset(HomeSubmissions(db))[s] <= 1
  {
    SnapshotStored(db);
    var snap := Snapshot(db);
    assert multiset(HomeSubmissions(db)) == multiset(snap);
    forall s
      ensures s in HomeSubmissions(db) <==> s in db.submissions.Values && s.rank > 0
    {
      assert s in HomeSubmissions(db) <==> s in multiset(snap);
      if s in db.submissions.Values && s.rank > 0 {
        var id :| id in db.submissions && db.submissions[id] == s;
      }
    }
    forall s
      ensures multiset(HomeSubmissions(db))[s] <= 1
    {
      DistinctCount(snap, s);
    }
  }

  /** A sequence of submissions with distinct ids holds each value at most once. */
  lemma {:induction false} DistinctCount(snap: seq<Submission>, s: Submission)
    requires Rollup.DistinctIds(snap)
    decreases |snap|
    ensures multiset(snap)[s] <= 1
  {
    if snap != [] {
      var init := snap[..|snap| - 1];
      assert snap == init + [snap[|snap| - 1]];
      DistinctCount(init, s);
      if snap[|snap| - 1] == s {
        assert forall k :: 0 <= k < |init| ==> init[k].id != s.id;
        assert s !in init;
      }
    }
  }

  /** One submission object on the home page, annotated in place by the view. */
  class Row {
    const submission: Submission
    var deltaColor: string
    var deltaString: string

    constructor (submission: Submission)
      ensures this.submission == submission
    {
      this.submission := submission;
      deltaColor, deltaString := "", "";
    }

    function Delta(): int
    {
      submission.rankPrevious - submission.rank
    }
  }

  /** The loop of `home`: every row gets the colour and the string of its rank delta. */
  method AnnotateDeltas(rows: seq<Row>)
    modifies set r | r in rows
    ensures forall k :: 0 <= k < |rows| ==>
      rows[k].deltaColor == DeltaColor(rows[k].Delta()) && rows[k].deltaString == DeltaString(rows[k].Delta())
  {
    for i := 0 to |rows|
      invariant forall k :: 0 <= k < i ==>
        rows[k].deltaColor == DeltaColor(rows[k].Delta()) && rows[k].deltaString == DeltaString(rows[k].Delta())
    {
      var submission := rows[i].submission;
      var rankDelta := submission.rankPrevious - submission.rank;
      var shape: char;
      var color: string;
      if rankDelta > 0 {
        shape, color := Up, "green";
      } else if rankDelta < 0 {
        shape, color := Down, "red";
      } else {
        shape, color := Level, "orange";
      }
      rows[i].deltaColor := color;
      rows[i].deltaString := [shape] + IntToString(rankDelta);
    }
  }

  /** Fresh row objects for the queried submissions, in order. */
  method LoadRows(submissions: seq<Submission>) returns (rows: seq<Row>)
    ensures |rows| == |submissions|
    ensures forall k :: 0 <= k < |rows| ==> rows[k].submission == submissions[k] && fresh(rows[k])
  {
    rows := [];
    for i := 0 to |submissions|
      invariant |rows| == i
      invariant forall k :: 0 <= k < i ==> rows[k].submission == submissions[k] && fresh(rows[k])
    {
      var row := new Row(submissions[i]);
      rows := rows + [row];
    }
  }

  /** `home(request)`: the listed submissions as annotated row objects, in rank order. */
  method Home(db: Db) returns (rows: seq<Row>)
    requires Wf(db)
    ensures |rows| == |HomeSubmissions(db)|
    ensures forall k :: 0 <= k < |rows| ==>
      && rows[k].submission == HomeSubmissions(db)[k]
      && rows[k].deltaColor == DeltaColor(rows[k].Delta())
      && rows[k].deltaString == DeltaString(rows[k].Delta())
  {
    rows := LoadRows(HomeSubmissions(db));
    AnnotateDeltas(rows);
  }

  // ---------------------------------------------------------------------------------------
  // search

  /** The `created_at` filter chosen by the `time` parameter: none, or the last `days` days. */
  datatype Window = Unbounded | LastDays(days: nat)

  /** The time-window selection of `search`: no filter for an empty or 'all' value; 1, 7, 30
      and 365 days for today, week, month and year; an empty window for any other value. */
  function TimeWindow(time: string): (w: Window)
    ensures w.Unbounded? <==> time == "" || time == "all"
    ensures time == "today" ==> w == LastDays(1)
    ensures time == "week" ==> w == LastDays(7)
    ensures time == "month" ==> w == LastDays(30)
    ensures time == "year" ==> w == LastDays(365)
    ensures time !in {"", "all", "today", "week", "month", "year"} ==> w == LastDays(0)
  {
    if time == "" || time == "all" then Unbounded
    else if time == "today" then LastDays(1)
    else if time == "week" then LastDays(7)
    else if time == "month" then LastDays(30)
    else if time == "year" then LastDays(365)
    else LastDays(0)
  }

  const SecondsPerDay: int := 86400

  /** `created_at >= current_time - timedelta(days)`, in seconds since the epoch, with `now`
      the request's clock reading. */
  predicate InWindow(w: Window, now: int, createdAt: int)
  {
    match w
    case Unbounded => true
    case LastDays(days) => createdAt >= now - days * SecondsPerDay
  }

  /** A longer window admits everything a shorter one admits, and no filter admits all. */
  lemma WindowsNest(d: nat, d': nat, now: int, createdAt: int)
    requires d <= d' && InWindow(LastDays(d), now, createdAt)
    ensures InWindow(LastDays(d'), now, createdAt) && InWindow(Unbounded, now, createdAt)
  {
    assert d * SecondsPerDay <= d' * SecondsPerDay;
  }

  /** today, week, month, year and all admit ever more submissions, and an unrecognised value
      admits only those created at or after the request's clock reading. */
  lemma TimeWindowsOrdered(now: int, createdAt: int, other: string)
    requires other !in {"", "all", "today", "week", "month", "year"}
    ensures InWindow(TimeWindow("today"), now, createdAt) ==> InWindow(TimeWindow("week"), now, createdAt)
    ensures InWindow(TimeWindow("week"), now, createdAt) ==> InWindow(TimeWindow("month"), now, createdAt)
    ensures InWindow(TimeWindow("month"), now, createdAt) ==> InWindow(TimeWindow("year"), now, createdAt)
    ensures InWindow(TimeWindow("all"), now, createdAt)
    ensures InWindow(TimeWindow(other), now, createdAt) <==> createdAt >= now
  {
  }

  /** What `search` answers: the bare form, a redirect to `/submission/<id>`, the title
      search for `query` restricted to `window`, a page for an over-long query with no
      search, or a server error (an exception escaped the view). */
  datatype Response =
    | SearchForm
    | RedirectToSubmission(id: string)
    | Results(query: string, window: Window)
    | TooLong(query: string)
    | ServerError

  predicate IsRedditLink(query: string)
  {
    Contains(query, "//reddit.com") || Contains(query, "//www.reddit.com")
  }

  const CommentsMarker: string := "/comments/"
  const ShortLinkMarker: string := "//redd.it/"
  const MaxQueryLength: nat := 300

  /** The routing of `search(request)`: the empty query shows the form; otherwise the
      stripped query is a reddit.com link (the id after '/comments/'), a redd.it link (the
      piece after '//redd.it/'), or a title search when shorter than 300 characters. A
      missing piece raises IndexError. */
  function Search(q: string, time: string): (r: Response)
  {
    if q == "" then SearchForm
    else
      var query := Strip(q);
      if IsRedditLink(query) then
        var pieces := Split(query, CommentsMarker);
        if |pieces| < 2 then ServerError
        else RedirectToSubmission(Split(pieces[1], "/")[0])
      else if Contains(query, "//redd.it") then
        var pieces := Split(query, ShortLinkMarker);
        if |pieces| < 2 then ServerError
        else RedirectToSubmission(pieces[1])
      else if |query| < MaxQueryLength then Results(query, TimeWindow(time))
      else TooLong(query)
  }

  /** `search(request)` as views.py writes it: for a query of 300 or more characters the
      name `submissions` is never bound, so rendering raises UnboundLocalError. Everywhere
      else it answers as `Search`. */
  function SearchAsWritten(q: string, time: string): (r: Response)
    ensures r == (if Search(q, time).TooLong? then ServerError else Search(q, time))
  {
    if q == "" then SearchForm
    else
      var query := Strip(q);
      if IsRedditLink(query) then
        var pieces := Split(query, CommentsMarker);
        if |pieces| < 2 then ServerError
        else RedirectToSubmission(Split(pieces[1], "/")[0])
      else if Contains(query, "//redd.it") then
        var pieces := Split(query, ShortLinkMarker);
        if |pieces| < 2 then ServerError
        else RedirectToSubmission(pieces[1])
      else if |query| < MaxQueryLength then Results(query, TimeWindow(time))
      else ServerError
  }

  /** A 300-letter query crashes the view as written; the corrected view answers it. */
  lemma LongQueryCrashes()
    ensures var q := seq(300, _ => 'a');
      && SearchAsWritten(q, "") == ServerError
      && Search(q, "") == TooLong(q)
  {
    var q := seq(300, _ => 'a');
    assert forall k :: 0 <= k < |q| ==> q[k] == 'a';
    StripFixed(q);
    assert !Contains(q, "//reddit.com") by { NoSlash(q, "//reddit.com"); }
    assert !Contains(q, "//www.reddit.com") by { NoSlash(q, "//www.reddit.com"); }
    assert !Contains(q, "//redd.it") by { NoSlash(q, "//redd.it"); }
  }

  /** A string without '/' contains nothing that starts with '/'. */
  lemma NoSlash(s: string, sub: string)
    requires |sub| > 0 && sub[0] == '/' && forall k :: 0 <= k < |s| ==> s[k] != '/'
    ensures !Contains(s, sub)
  {
    forall i: nat | i + |sub| <= |s|
      ensures !MatchAt(s, sub, i)
    {
      assert s[i..i + |sub|][0] == s[i] != sub[0];
    }
    ContainsOccurs(s, sub);
  }

  /** Only the empty query shows the bare form. */
  lemma SearchFormOnlyForEmpty(q: string, time: string)
    ensures Search(q, time) == SearchForm <==> q == ""
  {
  }

  /** The query is stripped before anything else: a non-empty query is answered as its
      stripped form, unless stripping leaves nothing. */
  lemma SearchStripsFirst(q: string, time: string)
    requires q != "" && Strip(q) != ""
    ensures Search(q, time) == Search(Strip(q), time)
  {
    StripIdempotent(q);
  }

  /** A reddit.com link with '/comments/' redirects to the text after its first '/comments/'
      up to the next '/' or the end; without '/comments/' the view fails. */
  lemma RedditLinkId(q: string, time: string, i: nat)
    requires q != "" && IsRedditLink(Strip(q))
    requires MatchAt(Strip(q), CommentsMarker, i) && forall j :: 0 <= j < i ==> !MatchAt(Strip(q), CommentsMarker, j)
    ensures Search(q, time).RedirectToSubmission?
    ensures PieceAt(Strip(q), i + |CommentsMarker|, "/", Search(q, time).id)
  {
    var query := Strip(q);
    SecondPiece(query, CommentsMarker, i);
    var piece := Split(query, CommentsMarker)[1];
    FirstPiece(piece, "/");
    assert "/" == ['/'];
    PieceOfPiece(query, i + |CommentsMarker|, CommentsMarker, piece, '/', Split(piece, "/")[0]);
  }

  lemma RedditLinkWithoutComments(q: string, time: string)
    requires q != "" && IsRedditLink(Strip(q)) && !Contains(Strip(q), CommentsMarker)
    ensures Search(q, time) == ServerError
  {
    SplitSecond(Strip(q), CommentsMarker);
  }

  /** A redd.it link redirects to the text after its first '//redd.it/' up to the next
      '//redd.it/' or the end; '//redd.it' without the slash makes the view fail. */
  lemma ShortLinkId(q: string, time: string, i: nat)
    requires q != "" && !IsRedditLink(Strip(q)) && Contains(Strip(q), "//redd.it")
    requires MatchAt(Strip(q), ShortLinkMarker, i) && forall j :: 0 <= j < i ==> !MatchAt(Strip(q), ShortLinkMarker, j)
    ensures Search(q, time).RedirectToSubmission?
    ensures PieceAt(Strip(q), i + |ShortLinkMarker|, ShortLinkMarker, Search(q, time).id)
  {
    SecondPiece(Strip(q), ShortLinkMarker, i);
  }

  lemma ShortLinkWithoutSlash(q: string, time: string)
    requires q != "" && !IsRedditLink(Strip(q)) && Contains(Strip(q), "//redd.it")
    requires !Contains(Strip(q), ShortLinkMarker)
    ensures Search(q, time) == ServerError
  {
    SplitSecond(Strip(q), ShortLinkMarker);
  }

  /** A query that is not a link is searched exactly when, stripped, it is shorter than 300
      characters, and the search carries the window its `time` selects. */
  lemma SearchLengthGate(q: string, time: string)
    requires q != "" && !IsRedditLink(Strip(q)) && !Contains(Strip(q), "//redd.it")
    ensures |Strip(q)| < MaxQueryLength <==> Search(q, time) == Results(Strip(q), TimeWindow(time))
    ensures |Strip(q)| >= MaxQueryLength <==> Search(q, time) == TooLong(Strip(q))
  {
  }
}
