/** The rollup of tasks.py: `update_subreddit_obj`, `create_cumulative_tracker_objs`,
    `create_subreddit_tracker_objs` and the exit scan of `get_top_submissions`, which rolls up
    every stored submission that has left the window and marks it with rank -1. */
module Rollup {
  import opened Opt
  import opened Records

  /** Every id in the comment order names a stored comment. */
  predicate CommentsIndexed(db: Db)
  {
    forall k :: 0 <= k < |db.commentIds| ==> db.commentIds[k] in db.comments
  }

  /** `Comment.objects.filter(submission=submission_obj)`, walked in insertion order. */
  function CommentsOf(comments: map<string, Comment>, ids: seq<string>, sid: string): (cs: seq<Comment>)
    requires forall k :: 0 <= k < |ids| ==> ids[k] in comments
    ensures forall c :: c in cs ==> c.submission == sid && c in comments.Values
    ensures |cs| <= |ids|
  {
    if ids == [] then []
    else
      var c := comments[ids[|ids| - 1]];
      CommentsOf(comments, ids[..|ids| - 1], sid) + (if c.submission == sid then [c] else [])
  }

  /** No comment of the submission is missed: every id in the order whose comment belongs to
      `sid` contributes that comment. */
  lemma {:induction false} CommentsOfComplete(comments: map<string, Comment>, ids: seq<string>, sid: string)
    requires forall k :: 0 <= k < |ids| ==> ids[k] in comments
    decreases |ids|
    ensures forall k :: 0 <= k < |ids| && comments[ids[k]].submission == sid ==>
      comments[ids[k]] in CommentsOf(comments, ids, sid)
  {
    if ids != [] {
      var ids' := ids[..|ids| - 1];
      CommentsOfComplete(comments, ids', sid);
      assert forall k :: 0 <= k < |ids'| ==> ids[k] == ids'[k];
    }
  }

  /** With a comment order that lists each id once, over a table keyed by comment id, every
      comment of the submission is walked exactly once. */
  lemma {:induction false} CommentsOfOnce(comments: map<string, Comment>, ids: seq<string>, sid: string)
    requires forall k :: 0 <= k < |ids| ==> ids[k] in comments
    requires forall id :: id in comments ==> comments[id].id == id
    requires NoDuplicates(ids)
    decreases |ids|
    ensures var cs := CommentsOf(comments, ids, sid);
      && (forall c :: c in cs ==> c.id in ids)
      && (forall i, j :: 0 <= i < j < |cs| ==> cs[i].id != cs[j].id)
  {
    if ids != [] {
      var ids', last := ids[..|ids| - 1], ids[|ids| - 1];
      CommentsOfOnce(comments, ids', sid);
      assert last !in ids' by {
        forall k | 0 <= k < |ids'|
          ensures ids'[k] != last
        {
          assert ids'[k] == ids[k];
        }
      }
      var cs' := CommentsOf(comments, ids', sid);
      forall c | c in cs'
        ensures c.id != last && c.id in ids
      {
      }
    }
  }

  function AddGildings(a: Gildings, b: Gildings): Gildings
  {
    Gildings(a.silver + b.silver, a.gold + b.gold, a.platinum + b.platinum)
  }

  /** `sum(c.gilded_silver for c in comments)` and the same for gold and platinum. */
  function SumGildings(cs: seq<Comment>): Gildings
  {
    if cs == [] then Gildings(0, 0, 0)
    else AddGildings(SumGildings(cs[..|cs| - 1]), cs[|cs| - 1].gildings)
  }

  /** The gilding sums are additive, so they do not depend on how the rows are grouped. */
  lemma {:induction false} SumGildingsAppend(a: seq<Comment>, b: seq<Comment>)
    decreases |b|
    ensures SumGildings(a + b) == AddGildings(SumGildings(a), SumGildings(b))
  {
    if b == [] {
      assert a + b == a;
    } else {
      SumGildingsAppend(a, b[..|b| - 1]);
      assert (a + b)[..|a + b| - 1] == a + b[..|b| - 1];
    }
  }

  datatype Role = Op | Mod | Admin | Special

  function Flag(c: Comment, r: Role): Option<bool>
  {
    match r
    case Op => c.isOp
    case Mod => c.isMod
    case Admin => c.isAdmin
    case Special => c.isSpecial
  }

  /** The list `[c.is_<role> for c in comments]`. */
  function Flags(cs: seq<Comment>, r: Role): (fs: seq<Option<bool>>)
    ensures |fs| == |cs| && forall k :: 0 <= k < |cs| ==> fs[k] == Flag(cs[k], r)
  {
    seq(|cs|, k requires 0 <= k < |cs| => Flag(cs[k], r))
  }

  /** `[c.is_<role> for c in comments].count(True)`. */
  function CountTrue(cs: seq<Comment>, r: Role): (n: nat)
    ensures n <= |cs|
  {
    if cs == [] then 0
    else CountTrue(cs[..|cs| - 1], r) + (if Flag(cs[|cs| - 1], r) == Some(true) then 1 else 0)
  }

  /** The role count is the multiplicity of `True` among the flags: unknown (None) and False
      flags are not counted. */
  lemma {:induction false} CountTrueIsMultiplicity(cs: seq<Comment>, r: Role)
    ensures CountTrue(cs, r) == multiset(Flags(cs, r))[Some(true)]
  {
    if cs != [] {
      var init := cs[..|cs| - 1];
      CountTrueIsMultiplicity(init, r);
      assert Flags(cs, r) == Flags(init, r) + [Flag(cs[|cs| - 1], r)];
    }
  }

  /** The ten per-submission averages of a subreddit, in the order update_subreddit_obj folds
      them. */
  function SubmissionAverages(sr: Subreddit): (a: seq<real>)
    ensures |a| == 10
  {
    [sr.averageSubmissionPolarity, sr.averageSubmissionSubjectivity, sr.averageUpvoteRatio,
     sr.averageGildedSilver, sr.averageGildedGold, sr.averageGildedPlatinum,
     sr.averageIsOp, sr.averageIsMod, sr.averageIsAdmin, sr.averageIsSpecial]
  }

  /** The ten values folded into those averages for one exiting submission. */
  function RollupSamples(s: Submission, cs: seq<Comment>): (v: seq<real>)
    ensures |v| == 10
  {
    var g := SumGildings(cs);
    [s.polarity, s.subjectivity, s.upvoteRatio,
     g.silver as real, g.gold as real, g.platinum as real,
     CountTrue(cs, Op) as real, CountTrue(cs, Mod) as real,
     CountTrue(cs, Admin) as real, CountTrue(cs, Special) as real]
  }

  /** The subreddit after `update_subreddit_obj` has folded in one submission and its
      comments `cs`. */
  function RollupSubreddit(sr: Subreddit, upd: Updater, s: Submission, cs: seq<Comment>): Subreddit
  {
    var n := sr.trackedSubmissions;
    var v := RollupSamples(s, cs);
    sr.(averageSubmissionPolarity := upd(sr.averageSubmissionPolarity, v[0], n),
        averageSubmissionSubjectivity := upd(sr.averageSubmissionSubjectivity, v[1], n),
        averageUpvoteRatio := upd(sr.averageUpvoteRatio, v[2], n),
        averageGildedSilver := upd(sr.averageGildedSilver, v[3], n),
        averageGildedGold := upd(sr.averageGildedGold, v[4], n),
        averageGildedPlatinum := upd(sr.averageGildedPlatinum, v[5], n),
        averageIsOp := upd(sr.averageIsOp, v[6], n),
        averageIsMod := upd(sr.averageIsMod, v[7], n),
        averageIsAdmin := upd(sr.averageIsAdmin, v[8], n),
        averageIsSpecial := upd(sr.averageIsSpecial, v[9], n),
        score := sr.score + s.score,
        numComments := sr.numComments + s.numComments,
        trackedSubmissions := n + 1)
  }

  /** What a rollup does to a subreddit: one more tracked submission, the submission's score
      and comment count added, all ten averages folded with the same n (the count before the
      increment), and nothing else changed. */
  lemma RollupSubredditFacts(sr: Subreddit, upd: Updater, s: Submission, cs: seq<Comment>)
    ensures var sr' := RollupSubreddit(sr, upd, s, cs);
      && sr'.trackedSubmissions == sr.trackedSubmissions + 1
      && sr'.score == sr.score + s.score
      && sr'.numComments == sr.numComments + s.numComments
      && (forall k :: 0 <= k < 10 ==>
            SubmissionAverages(sr')[k] == upd(SubmissionAverages(sr)[k], RollupSamples(s, cs)[k], sr.trackedSubmissions))
      && sr'.name == sr.name && sr'.title == sr.title && sr'.description == sr.description
      && sr'.trackedComments == sr.trackedComments
      && sr'.averageCommentsPolarity == sr.averageCommentsPolarity
      && sr'.averageCommentsSubjectivity == sr.averageCommentsSubjectivity
  {
  }

  /** `update_subreddit_obj(submission_obj)`: the database with the rolled-up subreddit saved,
      and that subreddit object. */
  function UpdateSubreddit(db: Db, upd: Updater, s: Submission): (r: (Db, Subreddit))
    requires s.subreddit in db.subreddits && CommentsIndexed(db)
    ensures r.0 == db.(subreddits := db.subreddits[s.subreddit := r.1])
    ensures r.1 == RollupSubreddit(db.subreddits[s.subreddit], upd, s, CommentsOf(db.comments, db.commentIds, s.id))
  {
    var sr := RollupSubreddit(db.subreddits[s.subreddit], upd, s, CommentsOf(db.comments, db.commentIds, s.id));
    (db.(subreddits := db.subreddits[s.subreddit := sr]), sr)
  }

  /** `latest('timestamp')` of an append-only series, 0 when it is empty. */
  function Latest(series: seq<int>): int
  {
    if series == [] then 0 else series[|series| - 1]
  }

  /** `create_cumulative_tracker_objs(submission_obj)`: the global totals grow by one sample
      each, equal to the latest total plus this submission's score (comment count). Only a
      missing TotalScore is caught, and it resets both latest values to 0, so with no score
      yet recorded each new total is the submission's own value. */
  function AppendCumulative(db: Db, s: Submission): (db': Db)
    ensures db' == db.(totalScores := db'.totalScores, totalNumComments := db'.totalNumComments)
    ensures db'.totalScores == db.totalScores + [Latest(db.totalScores) + s.score]
    ensures db.totalScores != [] ==>
      db'.totalNumComments == db.totalNumComments + [Latest(db.totalNumComments) + s.numComments]
    ensures db.totalScores == [] ==>
      db'.totalNumComments == db.totalNumComments + [s.numComments] && Latest(db'.totalScores) == s.score
  {
    var latestScore := if db.totalScores == [] then 0 else Latest(db.totalScores);
    var latestNumComments := if db.totalScores == [] then 0 else Latest(db.totalNumComments);
    db.(totalScores := db.totalScores + [latestScore + s.score],
        totalNumComments := db.totalNumComments + [latestNumComments + s.numComments])
  }

  /** The exit scan in progress: the database and `modified_subreddits`, the subreddit objects
      in the order they were first touched. */
  datatype ExitState = ExitState(db: Db, touched: seq<Subreddit>)

  function Names(touched: seq<Subreddit>): (names: seq<string>)
    ensures |names| == |touched| && forall k :: 0 <= k < |touched| ==> names[k] == touched[k].name
  {
    seq(|touched|, k requires 0 <= k < |touched| => touched[k].name)
  }

  /** `subreddit not in modified_subreddits`: Django model instances compare by primary key,
      which for a subreddit is its name. */
  predicate Listed(touched: seq<Subreddit>, name: string)
  {
    exists k :: 0 <= k < |touched| && touched[k].name == name
  }

  /** One iteration of the exit scan for the queried submission `s`. */
  function ExitStep(st: ExitState, upd: Updater, s: Submission, newIds: set<string>): (st': ExitState)
    requires s.subreddit in st.db.subreddits && s.id in st.db.submissions && CommentsIndexed(st.db)
    ensures ExitFrame(st.db, st'.db)
    ensures s.id in newIds ==> st' == st
    ensures s.id !in newIds ==>
      && st'.db.submissions == st.db.submissions[s.id := s.(rank := -1)]
      && st'.db.subreddits == st.db.subreddits[s.subreddit :=
           RollupSubreddit(st.db.subreddits[s.subreddit], upd, s, CommentsOf(st.db.comments, st.db.commentIds, s.id))]
  {
    if s.id in newIds then st
    else
      var db1 := AppendCumulative(st.db, s);
      var r := UpdateSubreddit(db1, upd, s);
      var touched := if Listed(st.touched, r.1.name) then st.touched else st.touched + [r.1];
      ExitState(r.0.(submissions := r.0.submissions[s.id := s.(rank := -1)]), touched)
  }

  /** The part of the database the exit scan may change: submission records (not keys),
      subreddits (not keys) and the two global series. */
  predicate ExitFrame(db: Db, db': Db)
  {
    && db' == db.(submissions := db'.submissions, subreddits := db'.subreddits,
                  totalScores := db'.totalScores, totalNumComments := db'.totalNumComments)
    && db'.submissions.Keys == db.submissions.Keys
    && db'.subreddits.Keys == db.subreddits.Keys
  }

  /** The exit scan over the queried submissions `snap` (those with rank > 0, as read when the
      scan starts), with `newIds` the ids of the new listing. */
  function ExitFold(db: Db, upd: Updater, snap: seq<Submission>, newIds: set<string>): (st: ExitState)
    requires CommentsIndexed(db)
    requires forall k :: 0 <= k < |snap| ==> snap[k].subreddit in db.subreddits && snap[k].id in db.submissions
    decreases |snap|
    ensures ExitFrame(db, st.db) && CommentsIndexed(st.db)
  {
    if snap == [] then ExitState(db, [])
    else
      var st := ExitFold(db, upd, snap[..|snap| - 1], newIds);
      ExitStep(st, upd, snap[|snap| - 1], newIds)
  }

  /** Distinct submissions in a snapshot. */
  predicate DistinctIds(snap: seq<Submission>)
  {
    forall i, j :: 0 <= i < j < |snap| ==> snap[i].id != snap[j].id
  }

  /** The ids of the snapshot's exiting submissions. */
  function ExitIds(snap: seq<Submission>, newIds: set<string>): (ids: set<string>)
    ensures forall k :: 0 <= k < |snap| && snap[k].id !in newIds ==> snap[k].id in ids
    ensures forall id :: id in ids ==> id !in newIds && exists k :: 0 <= k < |snap| && snap[k].id == id
  {
    if snap == [] then {}
    else
      var s := snap[|snap| - 1];
      ExitIds(snap[..|snap| - 1], newIds) + (if s.id !in newIds then {s.id} else {})
  }

  /** The subreddits of the snapshot's exiting submissions. */
  function ExitSubreddits(snap: seq<Submission>, newIds: set<string>): (names: set<string>)
    ensures forall k :: 0 <= k < |snap| && snap[k].id !in newIds ==> snap[k].subreddit in names
    ensures forall n :: n in names ==> exists k :: 0 <= k < |snap| && snap[k].id !in newIds && snap[k].subreddit == n
  {
    if snap == [] then {}
    else
      var s := snap[|snap| - 1];
      ExitSubreddits(snap[..|snap| - 1], newIds) + (if s.id !in newIds then {s.subreddit} else {})
  }

  /** Each exiting submission is written back once with rank -1 (every other field as
      queried); every other stored submission is untouched. */
  lemma {:induction false} ExitFoldRanks(db: Db, upd: Updater, snap: seq<Submission>, newIds: set<string>)
    requires CommentsIndexed(db) && DistinctIds(snap)
    requires forall k :: 0 <= k < |snap| ==> snap[k].subreddit in db.subreddits && snap[k].id in db.submissions
    decreases |snap|
    ensures ExitFold(db, upd, snap, newIds).db.submissions.Keys == db.submissions.Keys
    ensures forall s :: s in snap && s.id !in newIds ==>
      ExitFold(db, upd, snap, newIds).db.submissions[s.id] == s.(rank := -1)
    ensures forall id :: id in db.submissions && id !in ExitIds(snap, newIds) ==>
      ExitFold(db, upd, snap, newIds).db.submissions[id] == db.submissions[id]
  {
    if snap != [] {
      var init, s := snap[..|snap| - 1], snap[|snap| - 1];
      ExitFoldRanks(db, upd, init, newIds);
      var st := ExitFold(db, upd, init, newIds);
      var st' := ExitFold(db, upd, snap, newIds);
      assert st' == ExitStep(st, upd, s, newIds);
      assert ExitIds(snap, newIds) == ExitIds(init, newIds) + (if s.id !in newIds then {s.id} else {});
      LastIdFresh(snap);
      RanksStep(db.submissions, st.db.submissions, st'.db.submissions, init, s, newIds, ExitIds(init, newIds));
    }
  }

  /** The last submission of a snapshot with distinct ids shares its id with none before it. */
  lemma LastIdFresh(snap: seq<Submission>)
    requires |snap| >= 1 && DistinctIds(snap)
    ensures snap == snap[..|snap| - 1] + [snap[|snap| - 1]]
    ensures forall x :: x in snap[..|snap| - 1] ==> x.id != snap[|snap| - 1].id
  {
  }

  /** The induction step of `ExitFoldRanks`, on the submission table alone: `subs0` is the
      table after the scan of `init`, `subs1` after one more step for `s`. */
  lemma RanksStep(subs: map<string, Submission>, subs0: map<string, Submission>, subs1: map<string, Submission>,
                  init: seq<Submission>, s: Submission, newIds: set<string>, ids: set<string>)
    requires forall x :: x in init ==> x.id != s.id
    requires subs0.Keys == subs.Keys
    requires forall x :: x in init && x.id !in newIds ==> x.id in subs0 && subs0[x.id] == x.(rank := -1)
    requires forall id :: id in subs && id !in ids ==> id in subs0 && subs0[id] == subs[id]
    requires s.id in subs0
    requires s.id in newIds ==> subs1 == subs0
    requires s.id !in newIds ==> subs1 == subs0[s.id := s.(rank := -1)]
    ensures subs1.Keys == subs.Keys
    ensures forall x :: x in init + [s] && x.id !in newIds ==> x.id in subs1 && subs1[x.id] == x.(rank := -1)
    ensures forall id :: id in subs && id !in ids + (if s.id !in newIds then {s.id} else {}) ==>
      id in subs1 && subs1[id] == subs[id]
  {
  }

  /** Number of exiting submissions in subreddit `n`. */
  function ExitCount(snap: seq<Submission>, newIds: set<string>, n: string): nat
  {
    if snap == [] then 0
    else
      var s := snap[|snap| - 1];
      ExitCount(snap[..|snap| - 1], newIds, n) + (if s.id !in newIds && s.subreddit == n then 1 else 0)
  }

  /** Total score of the exiting submissions in subreddit `n`. */
  function ExitScore(snap: seq<Submission>, newIds: set<string>, n: string): int
  {
    if snap == [] then 0
    else
      var s := snap[|snap| - 1];
      ExitScore(snap[..|snap| - 1], newIds, n) + (if s.id !in newIds && s.subreddit == n then s.score else 0)
  }

  /** Total comment count of the exiting submissions in subreddit `n`. */
  function ExitComments(snap: seq<Submission>, newIds: set<string>, n: string): int
  {
    if snap == [] then 0
    else
      var s := snap[|snap| - 1];
      ExitComments(snap[..|snap| - 1], newIds, n) + (if s.id !in newIds && s.subreddit == n then s.numComments else 0)
  }

  /** Each exit is rolled up exactly once into its own subreddit: a subreddit's tracked
      submissions, score and comment count grow by exactly the count, the scores and the
      comment counts of its exiting submissions, and its name, title, description and comment
      statistics stay as they were. */
  lemma {:induction false} ExitFoldSubreddit(db: Db, upd: Updater, snap: seq<Submission>, newIds: set<string>, n: string)
    requires CommentsIndexed(db) && n in db.subreddits
    requires forall k :: 0 <= k < |snap| ==> snap[k].subreddit in db.subreddits && snap[k].id in db.submissions
    decreases |snap|
    ensures var sr, sr' := db.subreddits[n], ExitFold(db, upd, snap, newIds).db.subreddits[n];
      && sr'.trackedSubmissions == sr.trackedSubmissions + ExitCount(snap, newIds, n)
      && sr'.score == sr.score + ExitScore(snap, newIds, n)
      && sr'.numComments == sr.numComments + ExitComments(snap, newIds, n)
      && sr'.name == sr.name && sr'.title == sr.title && sr'.description == sr.description
      && sr'.trackedComments == sr.trackedComments
      && sr'.averageCommentsPolarity == sr.averageCommentsPolarity
      && sr'.averageCommentsSubjectivity == sr.averageCommentsSubjectivity
  {
    if snap != [] {
      var init, s := snap[..|snap| - 1], snap[|snap| - 1];
      ExitFoldSubreddit(db, upd, init, newIds, n);
      var st := ExitFold(db, upd, init, newIds);
      assert ExitFold(db, upd, snap, newIds) == ExitStep(st, upd, s, newIds);
      ExitStepSubreddit(st, upd, s, newIds, n);
    }
  }

  /** One step of the scan on subreddit `n`: an exit from `n` adds one tracked submission
      and the exit's score and comment count; the name, title, description and comment
      statistics never change. */
  lemma ExitStepSubreddit(st: ExitState, upd: Updater, s: Submission, newIds: set<string>, n: string)
    requires s.subreddit in st.db.subreddits && s.id in st.db.submissions && CommentsIndexed(st.db)
    requires n in st.db.subreddits
    ensures var sr, sr' := st.db.subreddits[n], ExitStep(st, upd, s, newIds).db.subreddits[n];
      var hit := s.id !in newIds && s.subreddit == n;
      && sr'.trackedSubmissions == sr.trackedSubmissions + (if hit then 1 else 0)
      && sr'.score == sr.score + (if hit then s.score else 0)
      && sr'.numComments == sr.numComments + (if hit then s.numComments else 0)
      && sr'.name == sr.name && sr'.title == sr.title && sr'.description == sr.description
      && sr'.trackedComments == sr.trackedComments
      && sr'.averageCommentsPolarity == sr.averageCommentsPolarity
      && sr'.averageCommentsSubjectivity == sr.averageCommentsSubjectivity
  {
    if s.id !in newIds && s.subreddit == n {
      RollupSubredditFacts(st.db.subreddits[n], upd, s, CommentsOf(st.db.comments, st.db.commentIds, s.id));
    }
  }

  /** Total score of all exiting submissions. */
  function ExitScoreAll(snap: seq<Submission>, newIds: set<string>): int
  {
    if snap == [] then 0
    else
      var s := snap[|snap| - 1];
      ExitScoreAll(snap[..|snap| - 1], newIds) + (if s.id !in newIds then s.score else 0)
  }

  /** Number of all exiting submissions. */
  function ExitCountAll(snap: seq<Submission>, newIds: set<string>): nat
  {
    if snap == [] then 0
    else
      var s := snap[|snap| - 1];
      ExitCountAll(snap[..|snap| - 1], newIds) + (if s.id !in newIds then 1 else 0)
  }

  /** The global score series gains one sample per exit, and its latest value is the previous
      latest plus the scores of all exiting submissions. */
  lemma {:induction false} ExitFoldTotals(db: Db, upd: Updater, snap: seq<Submission>, newIds: set<string>)
    requires CommentsIndexed(db)
    requires forall k :: 0 <= k < |snap| ==> snap[k].subreddit in db.subreddits && snap[k].id in db.submissions
    decreases |snap|
    ensures var db' := ExitFold(db, upd, snap, newIds).db;
      && |db'.totalScores| == |db.totalScores| + ExitCountAll(snap, newIds)
      && |db'.totalNumComments| == |db.totalNumComments| + ExitCountAll(snap, newIds)
      && db'.totalScores[..|db.totalScores|] == db.totalScores
      && Latest(db'.totalScores) == Latest(db.totalScores) + ExitScoreAll(snap, newIds)
  {
    if snap != [] {
      var init, s := snap[..|snap| - 1], snap[|snap| - 1];
      ExitFoldTotals(db, upd, init, newIds);
      var st := ExitFold(db, upd, init, newIds);
      assert ExitFold(db, upd, snap, newIds) == ExitStep(st, upd, s, newIds);
      ExitStepTotals(st, upd, s, newIds);
      PrefixOfPrefix(db.totalScores, st.db.totalScores, ExitFold(db, upd, snap, newIds).db.totalScores);
    }
  }

  /** One step of the scan on the total series: an exit appends one sample to each, the
      score sample being the latest total plus the exit's score; a listed submission appends
      nothing. */
  lemma ExitStepTotals(st: ExitState, upd: Updater, s: Submission, newIds: set<string>)
    requires s.subreddit in st.db.subreddits && s.id in st.db.submissions && CommentsIndexed(st.db)
    ensures var db, db' := st.db, ExitStep(st, upd, s, newIds).db;
      && |db'.totalScores| == |db.totalScores| + (if s.id !in newIds then 1 else 0)
      && |db'.totalNumComments| == |db.totalNumComments| + (if s.id !in newIds then 1 else 0)
      && db'.totalScores[..|db.totalScores|] == db.totalScores
      && Latest(db'.totalScores) == Latest(db.totalScores) + (if s.id !in newIds then s.score else 0)
  {
    if s.id !in newIds {
      var db1 := AppendCumulative(st.db, s);
      assert ExitStep(st, upd, s, newIds).db.totalScores == db1.totalScores;
      assert db1.totalScores[..|st.db.totalScores|] == st.db.totalScores;
    }
  }

  /** A prefix of a prefix is a prefix. */
  lemma PrefixOfPrefix<T>(a: seq<T>, b: seq<T>, c: seq<T>)
    requires |a| <= |b| <= |c| && b[..|a|] == a && c[..|b|] == b
    ensures c[..|a|] == a
  {
    assert c[..|a|] == c[..|b|][..|a|];
  }

  /** `modified_subreddits` lists each subreddit of an exiting submission exactly once, and
      no other. */
  lemma {:induction false} ExitFoldTouched(db: Db, upd: Updater, snap: seq<Submission>, newIds: set<string>)
    requires CommentsIndexed(db)
    requires forall k :: 0 <= k < |snap| ==> snap[k].subreddit in db.subreddits && snap[k].id in db.submissions
    requires forall n :: n in db.subreddits ==> db.subreddits[n].name == n
    decreases |snap|
    ensures NoDuplicates(Names(ExitFold(db, upd, snap, newIds).touched))
    ensures forall n :: n in Names(ExitFold(db, upd, snap, newIds).touched) <==> n in ExitSubreddits(snap, newIds)
  {
    if snap != [] {
      var init, s := snap[..|snap| - 1], snap[|snap| - 1];
      assert forall k :: 0 <= k < |init| ==> init[k].subreddit in db.subreddits && init[k].id in db.submissions;
      ExitFoldTouched(db, upd, init, newIds);
      ExitFoldNames(db, upd, init, newIds);
      var st := ExitFold(db, upd, init, newIds);
      ExitStepTouched(st, upd, s, newIds);
      assert ExitFold(db, upd, snap, newIds) == ExitStep(st, upd, s, newIds);
      assert ExitSubreddits(snap, newIds) ==
        ExitSubreddits(init, newIds) + (if s.id !in newIds then {s.subreddit} else {});
      NamesStep(Names(st.touched), Names(ExitFold(db, upd, snap, newIds).touched),
                ExitSubreddits(init, newIds), ExitSubreddits(snap, newIds), s.subreddit, s.id !in newIds);
    }
  }

  /** The induction step of `ExitFoldTouched`, on the name lists alone: a name is appended
      only when it is new, so the list stays free of duplicates and names the same set. */
  lemma NamesStep(names0: seq<string>, names1: seq<string>, subs0: set<string>, subs1: set<string>,
                  n: string, exits: bool)
    requires NoDuplicates(names0) && forall m :: m in names0 <==> m in subs0
    requires names1 == names0 + (if exits && n !in names0 then [n] else [])
    requires subs1 == subs0 + (if exits then {n} else {})
    ensures NoDuplicates(names1) && forall m :: m in names1 <==> m in subs1
  {
  }

  /** One step of the scan appends a subreddit to `modified_subreddits` only when it is not
      listed yet. */
  lemma ExitStepTouched(st: ExitState, upd: Updater, s: Submission, newIds: set<string>)
    requires s.subreddit in st.db.subreddits && s.id in st.db.submissions && CommentsIndexed(st.db)
    requires forall n :: n in st.db.subreddits ==> st.db.subreddits[n].name == n
    ensures Names(ExitStep(st, upd, s, newIds).touched) ==
      Names(st.touched) + (if s.id !in newIds && s.subreddit !in Names(st.touched) then [s.subreddit] else [])
  {
    if s.id !in newIds {
      var cs := CommentsOf(st.db.comments, st.db.commentIds, s.id);
      var sr := RollupSubreddit(st.db.subreddits[s.subreddit], upd, s, cs);
      RollupSubredditFacts(st.db.subreddits[s.subreddit], upd, s, cs);
      assert sr.name == s.subreddit;
      assert Listed(st.touched, s.subreddit) <==> s.subreddit in Names(st.touched);
      if !Listed(st.touched, s.subreddit) {
        assert Names(st.touched + [sr]) == Names(st.touched) + [s.subreddit];
      }
    }
  }

  /** The exit scan keeps the subreddit table's keys equal to the names of its rows. */
  lemma {:induction false} ExitFoldNames(db: Db, upd: Updater, snap: seq<Submission>, newIds: set<string>)
    requires CommentsIndexed(db)
    requires forall k :: 0 <= k < |snap| ==> snap[k].subreddit in db.subreddits && snap[k].id in db.submissions
    requires forall n :: n in db.subreddits ==> db.subreddits[n].name == n
    decreases |snap|
    ensures forall n :: n in ExitFold(db, upd, snap, newIds).db.subreddits ==>
      ExitFold(db, upd, snap, newIds).db.subreddits[n].name == n
  {
    if snap != [] {
      var init, s := snap[..|snap| - 1], snap[|snap| - 1];
      ExitFoldNames(db, upd, init, newIds);
      assert forall k :: 0 <= k < |init| ==> init[k].subreddit in db.subreddits && init[k].id in db.submissions;
      var st := ExitFold(db, upd, init, newIds);
      if s.id !in newIds {
        var cs := CommentsOf(st.db.comments, st.db.commentIds, s.id);
        assert forall n :: n in st.db.subreddits ==> st.db.subreddits[n].name == n;
        assert s.subreddit in st.db.subreddits;
        assert st.db.subreddits[s.subreddit].name == s.subreddit;
        RollupSubredditFacts(st.db.subreddits[s.subreddit], upd, s, cs);
        assert RollupSubreddit(st.db.subreddits[s.subreddit], upd, s, cs).name == s.subreddit;
      }
    }
  }

  /** A scan in which nothing exits changes nothing. With the snapshot of the database a scan
      leaves behind, every queried submission is in the listing, so a second scan for the same
      listing rolls nothing up again. */
  lemma {:induction false} ExitFoldNoExits(db: Db, upd: Updater, snap: seq<Submission>, newIds: set<string>)
    requires CommentsIndexed(db)
    requires forall k :: 0 <= k < |snap| ==>
      snap[k].subreddit in db.subreddits && snap[k].id in db.submissions && snap[k].id in newIds
    decreases |snap|
    ensures ExitFold(db, upd, snap, newIds) == ExitState(db, [])
  {
    if snap != [] {
      ExitFoldNoExits(db, upd, snap[..|snap| - 1], newIds);
    }
  }

  /** `create_subreddit_tracker_objs` for each touched subreddit, reading the subreddit as it
      is stored once the scan is over. */
  function SubredditTrackers(db: Db, names: seq<string>): (db': Db)
    requires forall k :: 0 <= k < |names| ==> names[k] in db.subreddits
    decreases |names|
    ensures db' == db.(subredditScores := db'.subredditScores, subredditNumComments := db'.subredditNumComments)
    ensures |db'.subredditScores| == |db.subredditScores| + |names|
    ensures |db'.subredditNumComments| == |db.subredditNumComments| + |names|
    ensures forall k :: 0 <= k < |names| ==>
      && db'.subredditScores[|db.subredditScores| + k] == Sample(names[k], db.subreddits[names[k]].score)
      && db'.subredditNumComments[|db.subredditNumComments| + k] == Sample(names[k], db.subreddits[names[k]].numComments)
    ensures db'.subredditScores[..|db.subredditScores|] == db.subredditScores
    ensures db'.subredditNumComments[..|db.subredditNumComments|] == db.subredditNumComments
  {
    if names == [] then db
    else
      var d := SubredditTrackers(db, names[..|names| - 1]);
      var sr := d.subreddits[names[|names| - 1]];
      d.(subredditScores := d.subredditScores + [Sample(names[|names| - 1], sr.score)],
         subredditNumComments := d.subredditNumComments + [Sample(names[|names| - 1], sr.numComments)])
  }

  /** `create_subreddit_tracker_objs(subreddit)` for each object in `modified_subreddits`, as
      tasks.py writes it: the score and comment count recorded are those of the object
      appended to the list, i.e. as they stood after that subreddit's FIRST exit of the tick. */
  function SubredditTrackersAsWritten(db: Db, touched: seq<Subreddit>): (db': Db)
    decreases |touched|
    ensures db' == db.(subredditScores := db'.subredditScores, subredditNumComments := db'.subredditNumComments)
    ensures |db'.subredditScores| == |db.subredditScores| + |touched|
    ensures |db'.subredditNumComments| == |db.subredditNumComments| + |touched|
    ensures forall k :: 0 <= k < |touched| ==>
      && db'.subredditScores[|db.subredditScores| + k] == Sample(touched[k].name, touched[k].score)
      && db'.subredditNumComments[|db.subredditNumComments| + k] == Sample(touched[k].name, touched[k].numComments)
    ensures db'.subredditScores[..|db.subredditScores|] == db.subredditScores
    ensures db'.subredditNumComments[..|db.subredditNumComments|] == db.subredditNumComments
  {
    if touched == [] then db
    else
      var d := SubredditTrackersAsWritten(db, touched[..|touched| - 1]);
      var sr := touched[|touched| - 1];
      d.(subredditScores := d.subredditScores + [Sample(sr.name, sr.score)],
         subredditNumComments := d.subredditNumComments + [Sample(sr.name, sr.numComments)])
  }

  /** The first exit of a scan puts the rolled-up row of its subreddit into
      `modified_subreddits`, and that row holds the subreddit's score plus the exit's score. */
  lemma FirstExit(db: Db, upd: Updater, a: Submission)
    requires CommentsIndexed(db) && a.subreddit in db.subreddits && a.id in db.submissions
    requires db.subreddits[a.subreddit].name == a.subreddit
    ensures var st := ExitFold(db, upd, [a], {});
      && st.touched == [st.db.subreddits[a.subreddit]]
      && st.db.subreddits[a.subreddit].name == a.subreddit
      && st.db.subreddits[a.subreddit].score == db.subreddits[a.subreddit].score + a.score
  {
    assert [a][..0] == [];
    RollupSubredditFacts(db.subreddits[a.subreddit], upd, a, CommentsOf(db.comments, db.commentIds, a.id));
  }

  /** A later exit from a subreddit already in `modified_subreddits` adds its score to the
      stored row and leaves the list as it was. */
  lemma LaterExit(st: ExitState, upd: Updater, b: Submission)
    requires CommentsIndexed(st.db) && b.subreddit in st.db.subreddits && b.id in st.db.submissions
    requires st.db.subreddits[b.subreddit].name == b.subreddit
    requires |st.touched| == 1 && st.touched[0].name == b.subreddit
    ensures var st' := ExitStep(st, upd, b, {});
      && st'.touched == st.touched
      && st'.db.subreddits[b.subreddit].score == st.db.subreddits[b.subreddit].score + b.score
  {
    assert Listed(st.touched, b.subreddit);
    RollupSubredditFacts(st.db.subreddits[b.subreddit], upd, b, CommentsOf(st.db.comments, st.db.commentIds, b.id));
  }

  /** Two submissions of one subreddit leave the window in the same scan: the subreddit is
      listed once, as the row stored after the first exit, and its stored score counts both. */
  lemma TwoExitsState(db: Db, upd: Updater, a: Submission, b: Submission)
    requires CommentsIndexed(db) && a.subreddit in db.subreddits && b.subreddit == a.subreddit
    requires a.id in db.submissions && b.id in db.submissions
    requires db.subreddits[a.subreddit].name == a.subreddit
    ensures var n, st := a.subreddit, ExitFold(db, upd, [a, b], {});
      && |st.touched| == 1 && st.touched[0].name == n
      && st.touched[0].score == db.subreddits[n].score + a.score
      && n in st.db.subreddits && st.db.subreddits[n].name == n
      && st.db.subreddits[n].score == db.subreddits[n].score + a.score + b.score
      && st.db.subredditScores == db.subredditScores
  {
    FirstExit(db, upd, a);
    var st1 := ExitFold(db, upd, [a], {});
    assert [a, b][..1] == [a];
    assert ExitFold(db, upd, [a, b], {}) == ExitStep(st1, upd, b, {});
    LaterExit(st1, upd, b);
    RollupSubredditFacts(st1.db.subreddits[b.subreddit], upd, b, CommentsOf(st1.db.comments, st1.db.commentIds, b.id));
  }

  /** The trackers after a scan that touched a single subreddit `n`, listed with score
      `listed` and stored with score `stored`, as written and as corrected. */
  lemma OneTouched(st: ExitState, n: string, base: seq<Sample<int>>, listed: int, stored: int)
    requires |st.touched| == 1 && st.touched[0].name == n && st.touched[0].score == listed
    requires n in st.db.subreddits && st.db.subreddits[n].name == n && st.db.subreddits[n].score == stored
    requires st.db.subredditScores == base
    ensures Names(st.touched) == [n]
    ensures SubredditTrackersAsWritten(st.db, st.touched).subredditScores == base + [Sample(n, listed)]
    ensures SubredditTrackers(st.db, Names(st.touched)).subredditScores == base + [Sample(n, stored)]
  {
    assert st.touched == [st.touched[0]];
    assert Names(st.touched) == [n];
    TrackersOfOne(st.db, st.touched[0]);
    TrackersOfOne(st.db, st.db.subreddits[n]);
  }

  /** The trackers of a single touched subreddit, as written and as corrected. */
  lemma TrackersOfOne(db: Db, sr: Subreddit)
    requires sr.name in db.subreddits
    ensures SubredditTrackersAsWritten(db, [sr]).subredditScores == db.subredditScores + [Sample(sr.name, sr.score)]
    ensures SubredditTrackers(db, [sr.name]).subredditScores ==
      db.subredditScores + [Sample(sr.name, db.subreddits[sr.name].score)]
  {
    assert [sr.name][..0] == [];
  }

  /** Two submissions of one subreddit, scoring 10 and 20, leave the window in the same scan.
      `modified_subreddits` keeps the row as it stood after the first exit, so the as-written
      trackers record a score of 10, while the stored score, the one the corrected trackers
      record, is 30. */
  lemma StaleSubredditTracker(upd: Updater)
    ensures var sr := Subreddit("pics", "", "", 0, 0, 0, 0, 0.0, 0.0, 0.0, 0.0, 0.0, 0.0, 0.0, 0.0, 0.0, 0.0, 0.0, 0.0);
      var a := Submission("a", "pics", "", "", 1, 1, 1, 10, 0, 0.0, 0.0, "", "", 0.0, false, false, false, false,
                          Gildings(0, 0, 0), 0);
      var b := a.(id := "b", rank := 2, rankPrevious := 2, rankPeak := 2, score := 20);
      var db := Db(map["pics" := sr], map["a" := a, "b" := b], ["a", "b"], map[], [], [], [], [], [], [], [], [], [], []);
      var st := ExitFold(db, upd, [a, b], {});
      && Names(st.touched) == ["pics"]
      && st.db.subreddits["pics"].score == 30
      && SubredditTrackersAsWritten(st.db, st.touched).subredditScores == [Sample("pics", 10)]
      && SubredditTrackers(st.db, Names(st.touched)).subredditScores == [Sample("pics", 30)]
  {
    var sr := Subreddit("pics", "", "", 0, 0, 0, 0, 0.0, 0.0, 0.0, 0.0, 0.0, 0.0, 0.0, 0.0, 0.0, 0.0, 0.0, 0.0);
    var a := Submission("a", "pics", "", "", 1, 1, 1, 10, 0, 0.0, 0.0, "", "", 0.0, false, false, false, false,
                        Gildings(0, 0, 0), 0);
    var b := a.(id := "b", rank := 2, rankPrevious := 2, rankPeak := 2, score := 20);
    var db := Db(map["pics" := sr], map["a" := a, "b" := b], ["a", "b"], map[], [], [], [], [], [], [], [], [], [], []);
    TwoExitsState(db, upd, a, b);
    OneTouched(ExitFold(db, upd, [a, b], {}), "pics", [], 10, 30);
  }
}
