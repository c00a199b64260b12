/** The records of the analytics app and the raw items fetched from reddit.

    Raw items are what PRAW hands the tasks: every value the tasks read is a field here,
    including the TextBlob results for a title or body (polarity, subjectivity, word and
    sentence counts), which are computed outside this model. A network call that may raise
    `prawcore.exceptions.RequestException` is a `Fetch` value. */
module Records {
  import opened Opt

  /** `update_average(current_average, new_value, n)` from helpers.py; its arithmetic is not
      part of this model, so every fold is stated in terms of an arbitrary updater. */
  type Updater = (real, real, nat) -> real

  /** The three award tiers of `gildings`: gid_1, gid_2, gid_3. */
  datatype Gildings = Gildings(silver: int, gold: int, platinum: int)

  /** The result of a network fetch that may raise a RequestException. */
  datatype Fetch<T> = Fetched(value: T) | RequestFailed

  datatype RawSubreddit = RawSubreddit(name: string, title: string, publicDescription: Option<string>)

  /** A PRAW comment. `body` is None when the attribute is missing (deleted content), `author`
      is None for a deleted account, `distinguished` is None when unset. */
  datatype RawComment = RawComment(
    id: string,
    body: Option<string>,
    author: Option<string>,
    distinguished: Option<string>,
    score: int,
    isRoot: bool,
    gildings: Gildings,
    polarity: real,
    subjectivity: real,
    words: nat,
    sentences: nat,
    createdUtc: int)

  /** A PRAW submission from the hot listing. `author` is None when the attribute is missing or
      None. `comments` is the flattened comment tree after `replace_more(limit=0)`;
      `refetched` is the flattened tree of the second fetch made when there are more than 500
      comments. */
  datatype RawSubmission = RawSubmission(
    id: string,
    subreddit: RawSubreddit,
    title: string,
    author: Option<string>,
    score: int,
    numComments: int,
    polarity: real,
    subjectivity: real,
    domain: string,
    linkFlairText: Option<string>,
    upvoteRatio: real,
    stickied: bool,
    over18: bool,
    spoiler: bool,
    locked: bool,
    gildings: Gildings,
    createdUtc: int,
    comments: Fetch<seq<RawComment>>,
    refetched: Fetch<seq<RawComment>>)

  datatype Subreddit = Subreddit(
    name: string,
    title: string,
    description: string,
    score: int,
    numComments: int,
    trackedSubmissions: nat,
    trackedComments: nat,
    averageSubmissionPolarity: real,
    averageSubmissionSubjectivity: real,
    averageUpvoteRatio: real,
    averageGildedSilver: real,
    averageGildedGold: real,
    averageGildedPlatinum: real,
    averageIsOp: real,
    averageIsMod: real,
    averageIsAdmin: real,
    averageIsSpecial: real,
    averageCommentsPolarity: real,
    averageCommentsSubjectivity: real)

  datatype Submission = Submission(
    id: string,
    subreddit: string,
    title: string,
    author: string,
    rank: int,
    rankPrevious: int,
    rankPeak: int,
    score: int,
    numComments: int,
    polarity: real,
    subjectivity: real,
    domain: string,
    linkFlairText: string,
    upvoteRatio: real,
    stickied: bool,
    over18: bool,
    spoiler: bool,
    locked: bool,
    gildings: Gildings,
    createdAt: int)

  /** A stored comment. The four role flags are tri-state: None means the author is unknown. */
  datatype Comment = Comment(
    id: string,
    submission: string,
    score: int,
    isRoot: bool,
    isOp: Option<bool>,
    isMod: Option<bool>,
    isAdmin: Option<bool>,
    isSpecial: Option<bool>,
    gildings: Gildings,
    characters: nat,
    words: nat,
    sentences: nat,
    polarity: real,
    subjectivity: real,
    createdAt: int)

  /** One row of a per-record time series (SubmissionScore, SubredditNumComments, ...). */
  datatype Sample<T> = Sample(key: string, value: T)

  /** The whole database: tables keyed by id, the order in which rows were inserted (the order
      a query without `order_by` walks them), and the append-only tracker series, oldest
      first. */
  datatype Db = Db(
    subreddits: map<string, Subreddit>,
    submissions: map<string, Submission>,
    submissionIds: seq<string>,
    comments: map<string, Comment>,
    commentIds: seq<string>,
    submissionScores: seq<Sample<int>>,
    submissionNumComments: seq<Sample<int>>,
    submissionUpvoteRatios: seq<Sample<real>>,
    subredditScores: seq<Sample<int>>,
    subredditNumComments: seq<Sample<int>>,
    totalScores: seq<int>,
    totalNumComments: seq<int>,
    averageScores: seq<real>,
    averageNumComments: seq<real>)

  predicate NoDuplicates<T(==)>(s: seq<T>)
  {
    forall i, j :: 0 <= i < j < |s| ==> s[i] != s[j]
  }

  /** A rank is a position 1..N in the window or the sentinel -1; the peak is the best rank seen,
      so it is never worse than a current in-window rank. */
  predicate RankOk(s: Submission)
  {
    && (s.rank == -1 || s.rank >= 1)
    && s.rankPeak >= 1
    && (s.rank >= 1 ==> s.rankPeak <= s.rank)
  }

  /** The consistency of the database: keys match ids, foreign keys resolve, the insertion
      orders list every key once, ranks are well formed, and the two global series grow
      together. */
  ghost predicate Wf(db: Db)
  {
    && (forall n :: n in db.subreddits ==> db.subreddits[n].name == n)
    && (forall id :: id in db.submissions ==>
          db.submissions[id].id == id && db.submissions[id].subreddit in db.subreddits &&
          RankOk(db.submissions[id]))
    && (forall id :: id in db.comments ==>
          db.comments[id].id == id && db.comments[id].submission in db.submissions)
    && NoDuplicates(db.submissionIds)
    && (forall id :: id in db.submissions <==> id in db.submissionIds)
    && NoDuplicates(db.commentIds)
    && (forall id :: id in db.comments <==> id in db.commentIds)
    && |db.totalScores| == |db.totalNumComments|
  }

  /** The empty database. */
  function EmptyDb(): (db: Db)
    ensures Wf(db)
  {
    Db(map[], map[], [], map[], [], [], [], [], [], [], [], [], [], [])
  }
}
