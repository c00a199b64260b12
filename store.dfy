/** The database as tasks.py drives it through the ORM: tables and series that its functions
    update in place. Each method is one function of tasks.py and is proved to leave the tables
    (and return the object) that the matching function of the model describes. */
module Store {
  import opened Opt
  import opened Records
  import opened Ingest
  import opened Rollup
  import opened Tick

  class Store {
    /** `update_average` from helpers.py. */
    const updateAverage: Updater

    var subreddits: map<string, Subreddit>
    var submissions: map<string, Submission>
    var submissionIds: seq<string>
    var comments: map<string, Comment>
    var commentIds: seq<string>
    var submissionScores: seq<Sample<int>>
    var submissionNumComments: seq<Sample<int>>
    var submissionUpvoteRatios: seq<Sample<real>>
    var subredditScores: seq<Sample<int>>
    var subredditNumComments: seq<Sample<int>>
    var totalScores: seq<int>
    var totalNumComments: seq<int>
    var averageScores: seq<real>
    var averageNumComments: seq<real>

    /** The tables as a value. */
    function Db(): Db
      reads this
    {
      Records.Db.Db(subreddits, submissions, submissionIds, comments, commentIds, submissionScores,
         submissionNumComments, submissionUpvoteRatios, subredditScores, subredditNumComments,
         totalScores, totalNumComments, averageScores, averageNumComments)
    }

    ghost predicate Valid()
      reads this
    {
      Wf(Db())
    }

    /** An empty database. */
    constructor (updateAverage: Updater)
      ensures this.updateAverage == updateAverage
      ensures Db() == EmptyDb() && Valid()
    {
      this.updateAverage := updateAverage;
      subreddits, submissions, submissionIds := map[], map[], [];
      comments, commentIds := map[], [];
      submissionScores, submissionNumComments, submissionUpvoteRatios := [], [], [];
      subredditScores, subredditNumComments := [], [];
      totalScores, totalNumComments, averageScores, averageNumComments := [], [], [], [];
    }

    /** `create_comment_obj(comment, submission_obj)`. */
    method CreateCommentObj(comment: RawComment, submissionObj: Submission)
      requires submissionObj.subreddit in subreddits
      modifies this
      ensures Db() == UpsertComment(old(Db()), updateAverage, comment, submissionObj)
    {
      if comment.id !in comments {
        if comment.body.None? {
          return;
        }
        var commentObj := NewComment(comment, submissionObj);
        comments := comments[comment.id := commentObj];
        commentIds := commentIds + [comment.id];
        var subreddit := subreddits[submissionObj.subreddit];
        subreddit := subreddit.(averageCommentsPolarity :=
          updateAverage(subreddit.averageCommentsPolarity, comment.polarity, subreddit.trackedComments));
        subreddit := subreddit.(averageCommentsSubjectivity :=
          updateAverage(subreddit.averageCommentsSubjectivity, comment.subjectivity, subreddit.trackedComments));
        subreddit := subreddit.(trackedComments := subreddit.trackedComments + 1);
        subreddits := subreddits[submissionObj.subreddit := subreddit];
      } else {
        var commentObj := comments[comment.id];
        commentObj := commentObj.(score := comment.score, gildings := comment.gildings);
        comments := comments[comment.id := commentObj];
      }
    }

    /** `for comment in comments: create_comment_obj(comment, submission_obj)`. */
    method CreateCommentObjs(tree: seq<RawComment>, submissionObj: Submission)
      requires submissionObj.subreddit in subreddits
      modifies this
      ensures Db() == UpsertComments(old(Db()), updateAverage, tree, submissionObj)
    {
      ghost var db0 := Db();
      for i := 0 to |tree|
        invariant Db() == UpsertComments(db0, updateAverage, tree[..i], submissionObj)
        invariant submissionObj.subreddit in subreddits
      {
        UpsertCommentsSnoc(db0, updateAverage, tree, i, submissionObj);
        CreateCommentObj(tree[i], submissionObj);
      }
      assert tree[..|tree|] == tree;
    }

    /** `create_submission_obj(submission, rank)`. None stands for the RequestException a
        comment fetch raises; the subreddit and the submission are saved before that. */
    method CreateSubmissionObj(submission: RawSubmission, rank: int) returns (submissionObj: Option<Submission>)
      modifies this
      ensures Outcome(Db(), submissionObj) == CreateSubmission(old(Db()), updateAverage, submission, rank)
    {
      if submission.subreddit.name !in subreddits {
        subreddits := subreddits[submission.subreddit.name := NewSubreddit(submission.subreddit)];
      }
      var obj := NewSubmission(submission, rank);
      submissions := submissions[submission.id := obj];
      submissionIds := submissionIds + [submission.id];
      if submission.comments.RequestFailed? {
        assert CommentTree(submission).None?;
        return None;
      }
      var tree := submission.comments.value;
      if submission.numComments > 500 {
        if submission.refetched.RequestFailed? {
          assert CommentTree(submission).None?;
          return None;
        }
        tree := tree + submission.refetched.value;
      }
      assert CommentTree(submission) == Some(tree);
      CreateCommentObjs(tree, obj);
      return Some(obj);
    }

    /** `update_submission_obj(submission, rank)`. The updated object is returned unsaved;
        None stands for a RequestException, which leaves the tables untouched. */
    method UpdateSubmissionObj(submission: RawSubmission, rank: int) returns (submissionObj: Option<Submission>)
      requires submission.id in submissions && submissions[submission.id].subreddit in subreddits
      modifies this
      ensures Outcome(Db(), submissionObj) == UpdateSubmission(old(Db()), updateAverage, submission, rank)
    {
      var obj := submissions[submission.id];
      var rankPeak := if rank < obj.rankPeak then rank else obj.rankPeak;
      if submission.comments.RequestFailed? {
        assert CommentTree(submission).None?;
        return None;
      }
      var tree := submission.comments.value;
      var linkFlairText := submission.linkFlairText.GetOr(obj.linkFlairText);
      obj := obj.(rankPrevious := obj.rank, rank := rank, rankPeak := rankPeak,
                  score := submission.score, numComments := submission.numComments,
                  linkFlairText := linkFlairText, upvoteRatio := submission.upvoteRatio,
                  stickied := submission.stickied, over18 := submission.over18,
                  spoiler := submission.spoiler, locked := submission.locked,
                  gildings := submission.gildings);
      if submission.numComments > 500 {
        if submission.refetched.RequestFailed? {
          assert CommentTree(submission).None?;
          return None;
        }
        tree := tree + submission.refetched.value;
      }
      assert obj == UpdatedRecord(old(submissions)[submission.id], submission, rank);
      assert CommentTree(submission) == Some(tree);
      CreateCommentObjs(tree, obj);
      return Some(obj);
    }

    /** `create_submission_tracker_objs(submission_obj, submission)`. */
    method CreateSubmissionTrackerObjs(submissionObj: Submission, submission: RawSubmission)
      modifies this
      ensures Db() == SubmissionTrackers(old(Db()), submissionObj, submission)
    {
      submissionScores := submissionScores + [Sample(submissionObj.id, submission.score)];
      submissionNumComments := submissionNumComments + [Sample(submissionObj.id, submission.numComments)];
      submissionUpvoteRatios := submissionUpvoteRatios + [Sample(submissionObj.id, submission.upvoteRatio)];
    }

    /** The comment sums and role counts of `update_subreddit_obj`, over
        `Comment.objects.filter(submission=submission_obj)`. */
    method CommentStats(sid: string) returns (gilded: Gildings, isOp: nat, isMod: nat, isAdmin: nat, isSpecial: nat)
      requires CommentsIndexed(Db())
      ensures var cs := CommentsOf(comments, commentIds, sid);
        && gilded == SumGildings(cs)
        && isOp == CountTrue(cs, Op) && isMod == CountTrue(cs, Mod)
        && isAdmin == CountTrue(cs, Admin) && isSpecial == CountTrue(cs, Special)
    {
      var table, ids := comments, commentIds;
      gilded := Gildings(0, 0, 0);
      isOp, isMod, isAdmin, isSpecial := 0, 0, 0, 0;
      ghost var cs: seq<Comment> := [];
      for k := 0 to |ids|
        invariant cs == CommentsOf(table, ids[..k], sid)
        invariant gilded == SumGildings(cs)
        invariant isOp == CountTrue(cs, Op) && isMod == CountTrue(cs, Mod)
        invariant isAdmin == CountTrue(cs, Admin) && isSpecial == CountTrue(cs, Special)
      {
        CommentsOfStep(table, ids, k, sid);
        var c := table[ids[k]];
        if c.submission == sid {
          StatsStep(cs, c);
          cs := cs + [c];
          gilded := AddGildings(gilded, c.gildings);
          isOp := isOp + (if c.isOp == Some(true) then 1 else 0);
          isMod := isMod + (if c.isMod == Some(true) then 1 else 0);
          isAdmin := isAdmin + (if c.isAdmin == Some(true) then 1 else 0);
          isSpecial := isSpecial + (if c.isSpecial == Some(true) then 1 else 0);
        }
      }
      assert ids[..|ids|] == ids;
    }

    /** `update_subreddit_obj(submission_obj)`: the subreddit is saved and returned. */
    method UpdateSubredditObj(submissionObj: Submission) returns (subreddit: Subreddit)
      requires submissionObj.subreddit in subreddits && CommentsIndexed(Db())
      modifies this
      ensures (Db(), subreddit) == UpdateSubreddit(old(Db()), updateAverage, submissionObj)
    {
      subreddit := subreddits[submissionObj.subreddit];
      var gilded, isOp, isMod, isAdmin, isSpecial := CommentStats(submissionObj.id);
      var n := subreddit.trackedSubmissions;
      subreddit := subreddit.(
        averageSubmissionPolarity := updateAverage(subreddit.averageSubmissionPolarity, submissionObj.polarity, n),
        averageSubmissionSubjectivity := updateAverage(subreddit.averageSubmissionSubjectivity, submissionObj.subjectivity, n),
        averageUpvoteRatio := updateAverage(subreddit.averageUpvoteRatio, submissionObj.upvoteRatio, n),
        averageGildedSilver := updateAverage(subreddit.averageGildedSilver, gilded.silver as real, n),
        averageGildedGold := updateAverage(subreddit.averageGildedGold, gilded.gold as real, n),
        averageGildedPlatinum := updateAverage(subreddit.averageGildedPlatinum, gilded.platinum as real, n),
        averageIsOp := updateAverage(subreddit.averageIsOp, isOp as real, n),
        averageIsMod := updateAverage(subreddit.averageIsMod, isMod as real, n),
        averageIsAdmin := updateAverage(subreddit.averageIsAdmin, isAdmin as real, n),
        averageIsSpecial := updateAverage(subreddit.averageIsSpecial, isSpecial as real, n));
      subreddit := subreddit.(score := subreddit.score + submissionObj.score);
      subreddit := subreddit.(numComments := subreddit.numComments + submissionObj.numComments);
      subreddit := subreddit.(trackedSubmissions := subreddit.trackedSubmissions + 1);
      subreddits := subreddits[submissionObj.subreddit := subreddit];
    }

    /** `create_cumulative_tracker_objs(submission_obj)`. */
    method CreateCumulativeTrackerObjs(submissionObj: Submission)
      modifies this
      ensures Db() == AppendCumulative(old(Db()), submissionObj)
    {
      var latestScore, latestNumComments := 0, 0;
      if totalScores != [] {
        latestScore := totalScores[|totalScores| - 1];
        latestNumComments := Latest(totalNumComments);
      }
      totalScores := totalScores + [latestScore + submissionObj.score];
      totalNumComments := totalNumComments + [latestNumComments + submissionObj.numComments];
    }

    /** `create_subreddit_tracker_objs(subreddit)`. */
    method CreateSubredditTrackerObjs(subreddit: Subreddit)
      modifies this
      ensures Db() == old(Db()).(subredditScores := old(subredditScores) + [Sample(subreddit.name, subreddit.score)],
                                 subredditNumComments := old(subredditNumComments) + [Sample(subreddit.name, subreddit.numComments)])
    {
      subredditScores := subredditScores + [Sample(subreddit.name, subreddit.score)];
      subredditNumComments := subredditNumComments + [Sample(subreddit.name, subreddit.numComments)];
    }

    /** The materialize loop of `get_top_submissions`: returns `submission_objs` and the two
        running front-page totals. */
    method MaterializeListing(submissions': seq<RawSubmission>)
      returns (submissionObjs: seq<Submission>, frontpageScore: int, frontpageNumComments: int)
      requires Resolves(Db())
      modifies this
      ensures Db() == IngestFold(old(Db()), updateAverage, submissions').db
      ensures submissionObjs == IngestFold(old(Db()), updateAverage, submissions').pending
      ensures frontpageScore == SumScores(submissions') && frontpageNumComments == SumNumComments(submissions')
    {
      ghost var db0 := Db();
      var rank := 0;
      submissionObjs, frontpageScore, frontpageNumComments := [], 0, 0;
      for i := 0 to |submissions'|
        invariant rank == i
        invariant Db() == IngestFold(db0, updateAverage, submissions'[..i]).db
        invariant submissionObjs == IngestFold(db0, updateAverage, submissions'[..i]).pending
        invariant frontpageScore == SumScores(submissions'[..i])
        invariant frontpageNumComments == SumNumComments(submissions'[..i])
      {
        var submission := submissions'[i];
        IngestFoldSnoc(db0, updateAverage, submissions', i);
        rank := rank + 1;
        frontpageScore := frontpageScore + submission.score;
        frontpageNumComments := frontpageNumComments + submission.numComments;
        submissionObjs := MaterializeOne(submission, rank, submissionObjs);
      }
      assert submissions'[..|submissions'|] == submissions';
    }

    /** The `try` block of the materialize loop: update or create the submission, keep the
        object and record its trackers; a RequestException skips the item. */
    method MaterializeOne(submission: RawSubmission, rank: int, submissionObjs: seq<Submission>)
      returns (submissionObjs': seq<Submission>)
      requires Resolves(Db())
      modifies this
      ensures IngestState(Db(), submissionObjs') ==
        IngestStep(IngestState(old(Db()), submissionObjs), updateAverage, submission, rank)
    {
      submissionObjs' := submissionObjs;
      var submissionObj: Option<Submission>;
      if submission.id in submissions {
        submissionObj := UpdateSubmissionObj(submission, rank);
      } else {
        submissionObj := CreateSubmissionObj(submission, rank);
      }
      if submissionObj.Some? {
        submissionObjs' := submissionObjs' + [submissionObj.value];
        CreateSubmissionTrackerObjs(submissionObj.value, submission);
      }
    }

    /** One iteration of the exit scan, for the queried `submissionObj`. */
    method RetireOne(submissionObj: Submission, submissionIds: set<string>, modifiedSubreddits: seq<Subreddit>)
      returns (modifiedSubreddits': seq<Subreddit>)
      requires submissionObj.subreddit in subreddits && submissionObj.id in submissions && CommentsIndexed(Db())
      modifies this
      ensures ExitState(Db(), modifiedSubreddits') ==
        ExitStep(ExitState(old(Db()), modifiedSubreddits), updateAverage, submissionObj, submissionIds)
    {
      modifiedSubreddits' := modifiedSubreddits;
      if submissionObj.id !in submissionIds {
        CreateCumulativeTrackerObjs(submissionObj);
        var subreddit := UpdateSubredditObj(submissionObj);
        assert subreddit.name in Names(modifiedSubreddits) <==> Listed(modifiedSubreddits, subreddit.name);
        if subreddit.name !in Names(modifiedSubreddits) {
          modifiedSubreddits' := modifiedSubreddits + [subreddit];
        }
        submissions := submissions[submissionObj.id := submissionObj.(rank := -1)];
      }
    }

    /** The exit scan of `get_top_submissions`: every queried submission (rank > 0) whose id
        is not in `submissionIds` is rolled up into the cumulative totals and its subreddit,
        and marked rank -1. Returns `modified_subreddits`. */
    method RetireExited(submissionIds: set<string>) returns (modifiedSubreddits: seq<Subreddit>)
      requires Valid()
      modifies this
      ensures CommentsIndexed(old(Db()))
      ensures ExitState(Db(), modifiedSubreddits) == ExitFold(old(Db()), updateAverage, Snapshot(old(Db())), submissionIds)
    {
      ghost var db0 := Db();
      var queried := Snapshot(Db());
      SnapshotResolves(db0);
      modifiedSubreddits := [];
      for j := 0 to |queried|
        invariant ExitState(Db(), modifiedSubreddits) == ExitFold(db0, updateAverage, queried[..j], submissionIds)
      {
        ExitFoldSnoc(db0, updateAverage, queried, j, submissionIds);
        modifiedSubreddits := RetireOne(queried[j], submissionIds, modifiedSubreddits);
      }
      assert queried[..|queried|] == queried;
    }

    /** `for subreddit in modified_subreddits: create_subreddit_tracker_objs(subreddit)`: each
        sample holds the values of the object in the list, not of the stored row. */
    method TrackSubreddits(modifiedSubreddits: seq<Subreddit>)
      modifies this
      ensures Db() == SubredditTrackersAsWritten(old(Db()), modifiedSubreddits)
    {
      ghost var db0 := Db();
      for k := 0 to |modifiedSubreddits|
        invariant Db() == SubredditTrackersAsWritten(db0, modifiedSubreddits[..k])
      {
        assert modifiedSubreddits[..k + 1][..k] == modifiedSubreddits[..k];
        CreateSubredditTrackerObjs(modifiedSubreddits[k]);
      }
      assert modifiedSubreddits[..|modifiedSubreddits|] == modifiedSubreddits;
    }

    /** `for submission_obj in submission_objs: submission_obj.save()`. */
    method SaveSubmissionObjs(submissionObjs: seq<Submission>)
      requires PendingStored(submissions, submissionObjs)
      modifies this
      ensures Db() == SaveAll(old(Db()), submissionObjs)
    {
      ghost var db0 := Db();
      for k := 0 to |submissionObjs|
        invariant Db() == SaveAll(db0, submissionObjs[..k])
      {
        assert submissionObjs[..k + 1][..k] == submissionObjs[..k];
        submissions := submissions[submissionObjs[k].id := submissionObjs[k]];
      }
      assert submissionObjs[..|submissionObjs|] == submissionObjs;
    }

    /** The AverageScore and AverageNumComments rows of `get_top_submissions`: the front-page
        totals divided by 100. */
    method CreateAverageObjs(ghost submissions': seq<RawSubmission>, frontpageScore: int, frontpageNumComments: int)
      requires frontpageScore == SumScores(submissions') && frontpageNumComments == SumNumComments(submissions')
      modifies this
      ensures Db() == FrontpageAverages(old(Db()), submissions')
    {
      averageScores := averageScores + [frontpageScore as real / 100.0];
      averageNumComments := averageNumComments + [frontpageNumComments as real / 100.0];
    }

    /** `get_top_submissions()` with the hot listing `hot`: one tick of the collector. */
    method GetTopSubmissions(hot: Fetch<seq<RawSubmission>>)
      requires Valid()
      modifies this
      ensures Valid()
      ensures Db() == TickSpec(old(Db()), updateAverage, hot)
    {
      ghost var db0 := Db();
      TickWf(db0, updateAverage, hot);
      if hot.RequestFailed? {
        return;
      }
      var submissions' := hot.value;
      TickSteps(db0, updateAverage, submissions');
      ghost var st := IngestFold(db0, updateAverage, submissions');
      var submissionObjs, frontpageScore, frontpageNumComments := MaterializeListing(submissions');
      var submissionIds := RawIds(submissions');
      var modifiedSubreddits := RetireExited(submissionIds);
      ghost var ex := ExitScan(st.db, updateAverage, submissionIds);
      assert ex == ExitState(Db(), modifiedSubreddits);
      TrackSubreddits(modifiedSubreddits);
      ghost var db1 := SubredditTrackersAsWritten(ex.db, ex.touched);
      assert Db() == db1;
      CreateAverageObjs(submissions', frontpageScore, frontpageNumComments);
      ghost var db2 := FrontpageAverages(db1, submissions');
      SaveSubmissionObjs(submissionObjs);
      assert Db() == SaveAll(db2, st.pending);
    }
  }

  /** Each object names a stored submission. */
  predicate PendingStored(submissions: map<string, Submission>, pending: seq<Submission>)
  {
    forall k :: 0 <= k < |pending| ==> pending[k].id in submissions
  }

  /** The facts `get_top_submissions` needs between its loops: what each loop is handed
      satisfies the next loop's needs, and the tick is the composition of the loops. */
  lemma TickSteps(db: Db, upd: Updater, raws: seq<RawSubmission>)
    requires Wf(db)
    ensures Resolves(db) && Wf(IngestFold(db, upd, raws).db)
    ensures PendingStored(ExitScan(IngestFold(db, upd, raws).db, upd, RawIds(raws)).db.submissions,
                          IngestFold(db, upd, raws).pending)
    ensures TickSpec(db, upd, Fetched(raws)) ==
      SaveAll(FrontpageAverages(SubredditTrackersAsWritten(ExitScan(IngestFold(db, upd, raws).db, upd, RawIds(raws)).db,
                                                           ExitScan(IngestFold(db, upd, raws).db, upd, RawIds(raws)).touched),
                                raws),
              IngestFold(db, upd, raws).pending)
  {
    IngestFoldWf(db, upd, raws);
    var st := IngestFold(db, upd, raws);
    SnapshotStored(st.db);
    ExitFoldWf(st.db, upd, Snapshot(st.db), RawIds(raws));
    var ex := ExitScan(st.db, upd, RawIds(raws));
    assert ex.db.submissions.Keys == st.db.submissions.Keys;
  }

  /** The comment loop over one more comment is one more upsert. */
  lemma UpsertCommentsSnoc(db: Db, upd: Updater, tree: seq<RawComment>, i: nat, parent: Submission)
    requires parent.subreddit in db.subreddits && i < |tree|
    ensures parent.subreddit in UpsertComments(db, upd, tree[..i], parent).subreddits
    ensures UpsertComments(db, upd, tree[..i + 1], parent) ==
      UpsertComment(UpsertComments(db, upd, tree[..i], parent), upd, tree[i], parent)
  {
    assert tree[..i + 1][..i] == tree[..i];
  }

  /** The materialize loop over one more item is one more step at the next rank, and the
      running totals grow by that item's score and comment count. */
  lemma IngestFoldSnoc(db: Db, upd: Updater, raws: seq<RawSubmission>, i: nat)
    requires Resolves(db) && i < |raws|
    ensures IngestFold(db, upd, raws[..i + 1]) == IngestStep(IngestFold(db, upd, raws[..i]), upd, raws[i], i + 1)
    ensures SumScores(raws[..i + 1]) == SumScores(raws[..i]) + raws[i].score
    ensures SumNumComments(raws[..i + 1]) == SumNumComments(raws[..i]) + raws[i].numComments
  {
    assert raws[..i + 1][..i] == raws[..i];
  }

  /** One more id of the comment order adds its comment when it belongs to `sid`. */
  lemma CommentsOfStep(table: map<string, Comment>, ids: seq<string>, k: nat, sid: string)
    requires k < |ids| && forall j :: 0 <= j < |ids| ==> ids[j] in table
    ensures CommentsOf(table, ids[..k + 1], sid) ==
      CommentsOf(table, ids[..k], sid) + (if table[ids[k]].submission == sid then [table[ids[k]]] else [])
  {
    assert ids[..k + 1][..k] == ids[..k];
  }

  /** Adding one matching comment adds its gildings to the sums and one to each role count
      whose flag is True. */
  lemma StatsStep(cs: seq<Comment>, c: Comment)
    ensures SumGildings(cs + [c]) == AddGildings(SumGildings(cs), c.gildings)
    ensures CountTrue(cs + [c], Op) == CountTrue(cs, Op) + (if c.isOp == Some(true) then 1 else 0)
    ensures CountTrue(cs + [c], Mod) == CountTrue(cs, Mod) + (if c.isMod == Some(true) then 1 else 0)
    ensures CountTrue(cs + [c], Admin) == CountTrue(cs, Admin) + (if c.isAdmin == Some(true) then 1 else 0)
    ensures CountTrue(cs + [c], Special) == CountTrue(cs, Special) + (if c.isSpecial == Some(true) then 1 else 0)
  {
    assert (cs + [c])[..|cs|] == cs;
  }

  /** The queried submissions name stored submissions and stored subreddits. */
  lemma SnapshotResolves(db: Db)
    requires Wf(db)
    ensures CommentsIndexed(db)
    ensures forall k :: 0 <= k < |Snapshot(db)| ==>
      Snapshot(db)[k].subreddit in db.subreddits && Snapshot(db)[k].id in db.submissions
  {
    SnapshotStored(db);
  }

  /** The exit scan over one more queried submission is one more exit step. */
  lemma ExitFoldSnoc(db: Db, upd: Updater, snap: seq<Submission>, j: nat, newIds: set<string>)
    requires CommentsIndexed(db) && j < |snap|
    requires forall k :: 0 <= k < |snap| ==> snap[k].subreddit in db.subreddits && snap[k].id in db.submissions
    ensures var pre := ExitFold(db, upd, snap[..j], newIds);
      && snap[j].subreddit in pre.db.subreddits && snap[j].id in pre.db.submissions && CommentsIndexed(pre.db)
      && ExitFold(db, upd, snap[..j + 1], newIds) == ExitStep(pre, upd, snap[j], newIds)
  {
    assert snap[..j + 1][..j] == snap[..j];
  }
}
