/** `get_top_submissions` of tasks.py, the driver run every tick: it materializes every
    submission of the hot listing, rolls up and retires every stored submission that has left
    the window, records the subreddit and front-page series and finally saves the updated
    submission objects. Here it is a function from the database before the tick to the
    database after it; the class in store.dfy runs the same steps in place. */
module Tick {
  import opened Opt
  import opened Records
  import opened Ingest
  import opened Rollup

  /** What the materializing functions need in order to be defined: every stored submission
      is keyed by its id and its subreddit is stored, and the comment order names stored
      comments. */
  predicate Resolves(db: Db)
  {
    && (forall id :: id in db.submissions ==>
          db.submissions[id].id == id && db.submissions[id].subreddit in db.subreddits)
    && CommentsIndexed(db)
  }

  /** The object a successful materialization returns: the updated stored record for a known
      id, the new record otherwise. */
  function Record(db: Db, raw: RawSubmission, rank: int): Submission
  {
    if raw.id in db.submissions then UpdatedRecord(db.submissions[raw.id], raw, rank)
    else NewSubmission(raw, rank)
  }

  /** Materializing comments keeps the comment order pointing at stored comments. */
  lemma UpsertCommentIndexed(db: Db, upd: Updater, c: RawComment, parent: Submission)
    requires parent.subreddit in db.subreddits && CommentsIndexed(db)
    ensures CommentsIndexed(UpsertComment(db, upd, c, parent))
  {
  }

  lemma {:induction false} UpsertCommentsIndexed(db: Db, upd: Updater, cs: seq<RawComment>, parent: Submission)
    requires parent.subreddit in db.subreddits && CommentsIndexed(db)
    decreases |cs|
    ensures CommentsIndexed(UpsertComments(db, upd, cs, parent))
  {
    if cs != [] {
      UpsertCommentsIndexed(db, upd, cs[..|cs| - 1], parent);
      UpsertCommentIndexed(UpsertComments(db, upd, cs[..|cs| - 1], parent), upd, cs[|cs| - 1], parent);
    }
  }

  /** One iteration of the materialize loop: `update_submission_obj` for a stored id,
      `create_submission_obj` otherwise. */
  function Materialize(db: Db, upd: Updater, raw: RawSubmission, rank: int): Outcome
    requires Resolves(db)
  {
    if raw.id in db.submissions then UpdateSubmission(db, upd, raw, rank)
    else CreateSubmission(db, upd, raw, rank)
  }

  /** The stored table gains the listed id (the create path saves it before it can fail)
      and nothing else in it changes; the object kept is `Record`, exactly when the comment
      tree was fetched. */
  lemma MaterializeFacts(db: Db, upd: Updater, raw: RawSubmission, rank: int)
    requires Resolves(db)
    ensures var o := Materialize(db, upd, raw, rank);
      && Resolves(o.db)
      && o.db.submissions.Keys == db.submissions.Keys + {raw.id}
      && db.subreddits.Keys <= o.db.subreddits.Keys
      && (forall id :: id in db.submissions && id != raw.id ==> o.db.submissions[id] == db.submissions[id])
      && (raw.id in db.submissions ==> o.db.submissions[raw.id] == db.submissions[raw.id])
      && (raw.id !in db.submissions ==> o.db.submissions[raw.id] == NewSubmission(raw, rank))
      && (o.saved.None? <==> CommentTree(raw).None?)
      && (o.saved.Some? ==> o.saved.value == Record(db, raw, rank))
  {
    if raw.id in db.submissions {
      match CommentTree(raw)
      case None =>
      case Some(cs) => UpsertCommentsIndexed(db, upd, cs, UpdatedRecord(db.submissions[raw.id], raw, rank));
    } else {
      var db2 := SavedSubmission(db, raw, rank);
      assert db2.submissions == db.submissions[raw.id := NewSubmission(raw, rank)];
      assert db.subreddits.Keys <= db2.subreddits.Keys;
      assert Resolves(db2);
      match CommentTree(raw)
      case None =>
      case Some(cs) => UpsertCommentsIndexed(db2, upd, cs, NewSubmission(raw, rank));
    }
  }

  /** The records waiting in `submission_objs` are stored, with a stored subreddit and
      well-formed ranks, so saving them keeps the database consistent. */
  predicate PendingOk(db: Db, pending: seq<Submission>)
  {
    forall k :: 0 <= k < |pending| ==>
      pending[k].id in db.submissions && pending[k].subreddit in db.subreddits && RankOk(pending[k])
  }

  lemma MaterializeWf(db: Db, upd: Updater, raw: RawSubmission, rank: int)
    requires Wf(db) && rank >= 1
    ensures Resolves(db)
    ensures Wf(Materialize(db, upd, raw, rank).db)
  {
    assert Resolves(db);
    if raw.id in db.submissions {
      UpdateSubmissionWf(db, upd, raw, rank);
      assert Materialize(db, upd, raw, rank) == UpdateSubmission(db, upd, raw, rank);
    } else {
      CreateSubmissionWf(db, upd, raw, rank);
      assert Materialize(db, upd, raw, rank) == CreateSubmission(db, upd, raw, rank);
    }
  }

  /** The object a materialization keeps is ready to be saved. */
  lemma MaterializePending(db: Db, upd: Updater, raw: RawSubmission, rank: int)
    requires Wf(db) && rank >= 1
    ensures Resolves(db)
    ensures var o := Materialize(db, upd, raw, rank);
      o.saved.Some? ==> PendingOk(o.db, [o.saved.value]) && o.saved.value.id == raw.id
  {
    if raw.id in db.submissions {
      UpdatePending(db, upd, raw, rank);
    } else {
      CreatePending(db, upd, raw, rank);
    }
  }

  lemma UpdatePending(db: Db, upd: Updater, raw: RawSubmission, rank: int)
    requires Wf(db) && rank >= 1 && raw.id in db.submissions
    ensures var o := UpdateSubmission(db, upd, raw, rank);
      o.saved.Some? ==> PendingOk(o.db, [o.saved.value]) && o.saved.value.id == raw.id
  {
    var o := UpdateSubmission(db, upd, raw, rank);
    if o.saved.Some? {
      var s := db.submissions[raw.id];
      assert o.db.subreddits.Keys == db.subreddits.Keys;
      assert s.subreddit in o.db.subreddits;
    }
  }

  lemma CreatePending(db: Db, upd: Updater, raw: RawSubmission, rank: int)
    requires rank >= 1
    ensures var o := CreateSubmission(db, upd, raw, rank);
      o.saved.Some? ==> PendingOk(o.db, [o.saved.value]) && o.saved.value.id == raw.id
  {
    var o := CreateSubmission(db, upd, raw, rank);
    if o.saved.Some? {
      var db2 := SavedSubmission(db, raw, rank);
      assert db2.subreddits.Keys == o.db.subreddits.Keys;
      assert db2.submissions == o.db.submissions;
    }
  }

  /** `create_submission_tracker_objs(submission_obj, submission)`: one sample in each
      submission series, keyed by the object, holding the values just fetched. */
  function SubmissionTrackers(db: Db, rec: Submission, raw: RawSubmission): (db': Db)
    ensures db' == db.(submissionScores := db'.submissionScores,
                       submissionNumComments := db'.submissionNumComments,
                       submissionUpvoteRatios := db'.submissionUpvoteRatios)
    ensures db'.submissionScores == db.submissionScores + [Sample(rec.id, raw.score)]
    ensures db'.submissionNumComments == db.submissionNumComments + [Sample(rec.id, raw.numComments)]
    ensures db'.submissionUpvoteRatios == db.submissionUpvoteRatios + [Sample(rec.id, raw.upvoteRatio)]
  {
    db.(submissionScores := db.submissionScores + [Sample(rec.id, raw.score)],
        submissionNumComments := db.submissionNumComments + [Sample(rec.id, raw.numComments)],
        submissionUpvoteRatios := db.submissionUpvoteRatios + [Sample(rec.id, raw.upvoteRatio)])
  }

  /** The database and `submission_objs` while the materialize loop runs. */
  datatype IngestState = IngestState(db: Db, pending: seq<Submission>)

  /** One iteration of the materialize loop. A RequestException skips the item: its object
      is neither kept nor tracked. */
  function IngestStep(st: IngestState, upd: Updater, raw: RawSubmission, rank: int): (st': IngestState)
    requires Resolves(st.db)
    ensures Resolves(st'.db)
  {
    MaterializeFacts(st.db, upd, raw, rank);
    var o := Materialize(st.db, upd, raw, rank);
    match o.saved
    case None => IngestState(o.db, st.pending)
    case Some(rec) => IngestState(SubmissionTrackers(o.db, rec, raw), st.pending + [rec])
  }

  /** One iteration adds the listed id to the stored table, changes no other stored
      submission, and keeps the object exactly when the comment tree was fetched. */
  lemma IngestStepFacts(st: IngestState, upd: Updater, raw: RawSubmission, rank: int)
    requires Resolves(st.db)
    ensures var st' := IngestStep(st, upd, raw, rank);
      && st'.db.submissions.Keys == st.db.submissions.Keys + {raw.id}
      && st.db.subreddits.Keys <= st'.db.subreddits.Keys
      && (forall id :: id in st.db.submissions && id != raw.id ==> st'.db.submissions[id] == st.db.submissions[id])
      && (raw.id in st.db.submissions ==> st'.db.submissions[raw.id] == st.db.submissions[raw.id])
      && (raw.id !in st.db.submissions ==> st'.db.submissions[raw.id] == NewSubmission(raw, rank))
      && st'.pending == st.pending + (if CommentTree(raw).Some? then [Record(st.db, raw, rank)] else [])
      && (CommentTree(raw).Some? ==>
            && st'.db.submissionScores == st.db.submissionScores + [Sample(raw.id, raw.score)]
            && st'.db.submissionNumComments == st.db.submissionNumComments + [Sample(raw.id, raw.numComments)]
            && st'.db.submissionUpvoteRatios == st.db.submissionUpvoteRatios + [Sample(raw.id, raw.upvoteRatio)])
      && (CommentTree(raw).None? ==>
            && st'.db.submissionScores == st.db.submissionScores
            && st'.db.submissionNumComments == st.db.submissionNumComments
            && st'.db.submissionUpvoteRatios == st.db.submissionUpvoteRatios)
  {
    MaterializeFacts(st.db, upd, raw, rank);
    MaterializeSeries(st.db, upd, raw, rank);
  }

  /** Materializing a submission writes none of the three submission series; the trackers
      are the loop's next statement. */
  lemma MaterializeSeries(db: Db, upd: Updater, raw: RawSubmission, rank: int)
    requires Resolves(db)
    ensures var o := Materialize(db, upd, raw, rank);
      && o.db.submissionScores == db.submissionScores
      && o.db.submissionNumComments == db.submissionNumComments
      && o.db.submissionUpvoteRatios == db.submissionUpvoteRatios
  {
  }

  /** The materialize loop over the listing; item `i` (from 0) gets rank `i + 1`. */
  function IngestFold(db: Db, upd: Updater, raws: seq<RawSubmission>): (st: IngestState)
    requires Resolves(db)
    decreases |raws|
    ensures Resolves(st.db)
  {
    if raws == [] then IngestState(db, [])
    else IngestStep(IngestFold(db, upd, raws[..|raws| - 1]), upd, raws[|raws| - 1], |raws|)
  }

  /** The materialize loop over a non-empty listing ends with the step for its last item. */
  lemma IngestFoldLast(db: Db, upd: Updater, raws: seq<RawSubmission>)
    requires Resolves(db) && raws != []
    ensures IngestFold(db, upd, raws) ==
      IngestStep(IngestFold(db, upd, raws[..|raws| - 1]), upd, raws[|raws| - 1], |raws|)
  {
  }

  /** `submission_ids`: the ids of the listing. */
  function RawIds(raws: seq<RawSubmission>): (ids: set<string>)
    ensures forall k :: 0 <= k < |raws| ==> raws[k].id in ids
  {
    if raws == [] then {} else RawIds(raws[..|raws| - 1]) + {raws[|raws| - 1].id}
  }

  /** An id no item of the listing has is not in `submission_ids`. */
  lemma {:induction false} RawIdsOnly(raws: seq<RawSubmission>, id: string)
    requires forall k :: 0 <= k < |raws| ==> raws[k].id != id
    decreases |raws|
    ensures id !in RawIds(raws)
  {
    if raws != [] {
      RawIdsOnly(raws[..|raws| - 1], id);
    }
  }

  /** The listing names each submission once. */
  predicate DistinctRaw(raws: seq<RawSubmission>)
  {
    forall i, j :: 0 <= i < j < |raws| ==> raws[i].id != raws[j].id
  }

  /** The materialize loop keeps the database consistent and leaves every kept object ready
      to be saved. */
  lemma {:induction false} IngestFoldWf(db: Db, upd: Updater, raws: seq<RawSubmission>)
    requires Wf(db)
    decreases |raws|
    ensures Resolves(db)
    ensures var st := IngestFold(db, upd, raws); Wf(st.db) && PendingOk(st.db, st.pending)
  {
    if raws != [] {
      var init := raws[..|raws| - 1];
      IngestFoldWf(db, upd, init);
      var st := IngestFold(db, upd, init);
      MaterializeWf(st.db, upd, raws[|raws| - 1], |raws|);
      IngestStepPendingOk(st, upd, raws[|raws| - 1], |raws|);
      assert IngestFold(db, upd, raws) == IngestStep(st, upd, raws[|raws| - 1], |raws|);
    }
  }

  /** One iteration keeps every kept object ready to be saved. */
  lemma IngestStepPendingOk(st: IngestState, upd: Updater, raw: RawSubmission, rank: int)
    requires Wf(st.db) && rank >= 1 && PendingOk(st.db, st.pending)
    ensures Resolves(st.db)
    ensures var st' := IngestStep(st, upd, raw, rank); PendingOk(st'.db, st'.pending)
  {
    IngestStepFacts(st, upd, raw, rank);
    MaterializePending(st.db, upd, raw, rank);
    var o := Materialize(st.db, upd, raw, rank);
    var st' := IngestStep(st, upd, raw, rank);
    assert st'.db.submissions == o.db.submissions && st'.db.subreddits == o.db.subreddits;
    forall k | 0 <= k < |st'.pending|
      ensures st'.pending[k].id in st'.db.submissions && st'.pending[k].subreddit in st'.db.subreddits
      ensures RankOk(st'.pending[k])
    {
      if k < |st.pending| {
        assert st'.pending[k] == st.pending[k];
      } else {
        assert st'.pending[k] == o.saved.value;
      }
    }
  }

  /** After the materialize loop every listed submission is stored and the stored
      submissions that are not listed are untouched. */
  lemma {:induction false} IngestFoldKeys(db: Db, upd: Updater, raws: seq<RawSubmission>)
    requires Resolves(db)
    decreases |raws|
    ensures var st := IngestFold(db, upd, raws);
      && st.db.submissions.Keys == db.submissions.Keys + RawIds(raws)
      && (forall id :: id in db.submissions && id !in RawIds(raws) ==> st.db.submissions[id] == db.submissions[id])
      && st.db.subreddits.Keys >= db.subreddits.Keys
  {
    if raws != [] {
      var init, last := raws[..|raws| - 1], raws[|raws| - 1];
      IngestFoldKeys(db, upd, init);
      var st0 := IngestFold(db, upd, init);
      IngestStepFacts(st0, upd, last, |raws|);
      var st := IngestFold(db, upd, raws);
      assert st == IngestStep(st0, upd, last, |raws|);
      assert RawIds(raws) == RawIds(init) + {last.id};
      KeysStep(db.submissions, st0.db.submissions, st.db.submissions, RawIds(init), last.id);
    }
  }

  /** The induction step of `IngestFoldKeys`, on the submission table alone. */
  lemma KeysStep(subs: map<string, Submission>, subs0: map<string, Submission>, subs1: map<string, Submission>,
                 ids: set<string>, id: string)
    requires subs0.Keys == subs.Keys + ids
    requires forall x :: x in subs && x !in ids ==> subs0[x] == subs[x]
    requires subs1.Keys == subs0.Keys + {id}
    requires forall x :: x in subs0 && x != id ==> subs1[x] == subs0[x]
    ensures subs1.Keys == subs.Keys + (ids + {id})
    ensures forall x :: x in subs && x !in ids + {id} ==> subs1[x] == subs[x]
  {
  }

  /** Every object kept by the materialize loop is one of the listing. */
  lemma {:induction false} IngestFoldPendingIds(db: Db, upd: Updater, raws: seq<RawSubmission>)
    requires Resolves(db)
    decreases |raws|
    ensures forall k :: 0 <= k < |IngestFold(db, upd, raws).pending| ==>
      IngestFold(db, upd, raws).pending[k].id in RawIds(raws)
  {
    if raws != [] {
      var init, last := raws[..|raws| - 1], raws[|raws| - 1];
      IngestFoldPendingIds(db, upd, init);
      var st0 := IngestFold(db, upd, init);
      IngestStepFacts(st0, upd, last, |raws|);
      var st := IngestFold(db, upd, raws);
      assert st == IngestStep(st0, upd, last, |raws|);
      assert RawIds(raws) == RawIds(init) + {last.id};
      forall k | 0 <= k < |st.pending|
        ensures st.pending[k].id in RawIds(raws)
      {
        if k < |st0.pending| {
          assert st.pending[k] == st0.pending[k];
          assert st0.pending[k].id in RawIds(init);
          assert st.pending[k].id in RawIds(raws);
        } else {
          assert st.pending[k] == Record(st0.db, last, |raws|);
          assert Record(st0.db, last, |raws|).id == last.id;
          assert last.id in RawIds(raws);
        }
      }
    }
  }

  /** The last object of `pending` for id `id`: the one whose save wins. */
  function PendingFor(pending: seq<Submission>, id: string): (r: Option<Submission>)
    ensures r.Some? ==> r.value in pending && r.value.id == id
    ensures r.None? ==> forall k :: 0 <= k < |pending| ==> pending[k].id != id
  {
    if pending == [] then None
    else if pending[|pending| - 1].id == id then Some(pending[|pending| - 1])
    else PendingFor(pending[..|pending| - 1], id)
  }

  lemma PendingForAppend(pending: seq<Submission>, rec: Submission, id: string)
    requires rec.id != id
    ensures PendingFor(pending + [rec], id) == PendingFor(pending, id)
  {
    assert (pending + [rec])[..|pending|] == pending;
  }

  /** Item `i` of the listing is stored as before, or as created at rank `i + 1`. */
  predicate StoredAsListed(db: Db, subs: map<string, Submission>, raws: seq<RawSubmission>)
  {
    forall i :: 0 <= i < |raws| ==>
      && raws[i].id in subs
      && subs[raws[i].id] ==
           (if raws[i].id in db.submissions then db.submissions[raws[i].id] else NewSubmission(raws[i], i + 1))
  }

  /** `submission_objs` holds the object of item `i` exactly when its comment tree was
      fetched. */
  predicate KeptAsListed(db: Db, pending: seq<Submission>, raws: seq<RawSubmission>)
  {
    forall i :: 0 <= i < |raws| ==>
      PendingFor(pending, raws[i].id) ==
        (if CommentTree(raws[i]).Some? then Some(Record(db, raws[i], i + 1)) else None)
  }

  lemma {:induction false} IngestFoldStored(db: Db, upd: Updater, raws: seq<RawSubmission>)
    requires Resolves(db) && DistinctRaw(raws)
    decreases |raws|
    ensures StoredAsListed(db, IngestFold(db, upd, raws).db.submissions, raws)
  {
    if raws != [] {
      var n := |raws|;
      var init, last := raws[..n - 1], raws[n - 1];
      IngestFoldStored(db, upd, init);
      IngestFoldKeys(db, upd, init);
      RawIdsOnly(init, last.id);
      var st0 := IngestFold(db, upd, init);
      IngestStepFacts(st0, upd, last, n);
      var subs := IngestFold(db, upd, raws).db.submissions;
      IngestFoldLast(db, upd, raws);
      StoredStep(db, st0.db.submissions, subs, raws);
    }
  }

  /** The induction step of `IngestFoldStored`, on the submission table alone. */
  lemma StoredStep(db: Db, subs0: map<string, Submission>, subs: map<string, Submission>, raws: seq<RawSubmission>)
    requires |raws| >= 1 && DistinctRaw(raws)
    requires StoredAsListed(db, subs0, raws[..|raws| - 1])
    requires subs.Keys == subs0.Keys + {raws[|raws| - 1].id}
    requires forall id :: id in subs0 && id != raws[|raws| - 1].id ==> subs[id] == subs0[id]
    requires raws[|raws| - 1].id in db.submissions ==> subs[raws[|raws| - 1].id] == db.submissions[raws[|raws| - 1].id]
    requires raws[|raws| - 1].id !in db.submissions ==> subs[raws[|raws| - 1].id] == NewSubmission(raws[|raws| - 1], |raws|)
    ensures StoredAsListed(db, subs, raws)
  {
    var n := |raws|;
    var init, last := raws[..n - 1], raws[n - 1];
    forall i | 0 <= i < n - 1
      ensures raws[i].id in subs
      ensures subs[raws[i].id] ==
        (if raws[i].id in db.submissions then db.submissions[raws[i].id] else NewSubmission(raws[i], i + 1))
    {
      assert raws[i] == init[i] && raws[i].id != last.id;
    }
  }

  /** The induction step of `IngestFoldKept`, on the kept objects alone. */
  lemma KeptStep(db: Db, pending0: seq<Submission>, pending: seq<Submission>, raws: seq<RawSubmission>)
    requires |raws| >= 1 && DistinctRaw(raws)
    requires KeptAsListed(db, pending0, raws[..|raws| - 1])
    requires forall k :: 0 <= k < |pending0| ==> pending0[k].id != raws[|raws| - 1].id
    requires Record(db, raws[|raws| - 1], |raws|).id == raws[|raws| - 1].id
    requires pending == pending0 +
      (if CommentTree(raws[|raws| - 1]).Some? then [Record(db, raws[|raws| - 1], |raws|)] else [])
    ensures KeptAsListed(db, pending, raws)
  {
    var n := |raws|;
    var init, last := raws[..n - 1], raws[n - 1];
    var rec := Record(db, last, n);
    forall i | 0 <= i < n
      ensures PendingFor(pending, raws[i].id) ==
        (if CommentTree(raws[i]).Some? then Some(Record(db, raws[i], i + 1)) else None)
    {
      if i < n - 1 {
        assert raws[i] == init[i] && raws[i].id != last.id;
        assert PendingFor(pending0, init[i].id) ==
          (if CommentTree(init[i]).Some? then Some(Record(db, init[i], i + 1)) else None);
        if CommentTree(last).Some? {
          PendingForAppend(pending0, rec, raws[i].id);
        } else {
          assert pending == pending0;
        }
      } else if CommentTree(last).Some? {
        assert pending[|pending| - 1] == rec;
        assert pending[..|pending| - 1] == pending0;
      } else {
        assert pending == pending0;
        assert PendingFor(pending0, last.id) == None;
      }
    }
  }

  /** The object one iteration keeps depends only on the stored record for its id. */
  lemma IngestStepPending(db: Db, st: IngestState, upd: Updater, raw: RawSubmission, rank: int)
    requires Resolves(st.db)
    requires raw.id in st.db.submissions <==> raw.id in db.submissions
    requires raw.id in db.submissions ==> st.db.submissions[raw.id] == db.submissions[raw.id]
    ensures IngestStep(st, upd, raw, rank).pending ==
      st.pending + (if CommentTree(raw).Some? then [Record(db, raw, rank)] else [])
  {
    IngestStepFacts(st, upd, raw, rank);
    assert Record(st.db, raw, rank) == Record(db, raw, rank);
  }

  lemma {:induction false} IngestFoldKept(db: Db, upd: Updater, raws: seq<RawSubmission>)
    requires Resolves(db) && DistinctRaw(raws)
    decreases |raws|
    ensures KeptAsListed(db, IngestFold(db, upd, raws).pending, raws)
  {
    if raws != [] {
      var n := |raws|;
      var init, last := raws[..n - 1], raws[n - 1];
      IngestFoldKept(db, upd, init);
      IngestFoldKeys(db, upd, init);
      IngestFoldPendingIds(db, upd, init);
      RawIdsOnly(init, last.id);
      var st0 := IngestFold(db, upd, init);
      IngestStepPending(db, st0, upd, last, n);
      var st := IngestFold(db, upd, raws);
      assert st.pending == IngestStep(st0, upd, last, n).pending;
      KeptStep(db, st0.pending, st.pending, raws);
    }
  }

  /** `Submission.objects.filter(rank__gt=0)`: the stored submissions inside the window,
      walked in insertion order. */
  function SnapshotOf(subs: map<string, Submission>, ids: seq<string>): (r: seq<Submission>)
    requires forall k :: 0 <= k < |ids| ==> ids[k] in subs
    ensures forall j :: 0 <= j < |r| ==> r[j].rank > 0 && exists m :: 0 <= m < |ids| && r[j] == subs[ids[m]]
    ensures forall m :: 0 <= m < |ids| && subs[ids[m]].rank > 0 ==> subs[ids[m]] in r
  {
    if ids == [] then []
    else
      var s := subs[ids[|ids| - 1]];
      SnapshotOf(subs, ids[..|ids| - 1]) + (if s.rank > 0 then [s] else [])
  }

  function Snapshot(db: Db): seq<Submission>
    requires forall k :: 0 <= k < |db.submissionIds| ==> db.submissionIds[k] in db.submissions
  {
    SnapshotOf(db.submissions, db.submissionIds)
  }

  /** Every submission of a snapshot of a table keyed by id has one of the walked ids. */
  lemma {:induction false} SnapshotOfIds(subs: map<string, Submission>, ids: seq<string>)
    requires forall k :: 0 <= k < |ids| ==> ids[k] in subs && subs[ids[k]].id == ids[k]
    decreases |ids|
    ensures forall j :: 0 <= j < |SnapshotOf(subs, ids)| ==> SnapshotOf(subs, ids)[j].id in ids
  {
    if ids != [] {
      var init := ids[..|ids| - 1];
      SnapshotOfIds(subs, init);
      var r0 := SnapshotOf(subs, init);
      var s := subs[ids[|ids| - 1]];
      var r := SnapshotOf(subs, ids);
      assert r == r0 + (if s.rank > 0 then [s] else []);
      forall j | 0 <= j < |r|
        ensures r[j].id in ids
      {
        if j < |r0| {
          assert r[j] == r0[j] && r0[j].id in init;
        }
      }
    }
  }

  /** A snapshot of a consistent database names distinct stored submissions, each as stored,
      and lists every stored submission inside the window. */
  lemma {:induction false} SnapshotOfDistinct(subs: map<string, Submission>, ids: seq<string>)
    requires forall k :: 0 <= k < |ids| ==> ids[k] in subs && subs[ids[k]].id == ids[k]
    requires NoDuplicates(ids)
    decreases |ids|
    ensures DistinctIds(SnapshotOf(subs, ids))
  {
    if ids != [] {
      var init := ids[..|ids| - 1];
      var last := ids[|ids| - 1];
      SnapshotOfDistinct(subs, init);
      SnapshotOfIds(subs, init);
      var r0 := SnapshotOf(subs, init);
      assert last !in init;
      var s := subs[last];
      var r := SnapshotOf(subs, ids);
      assert r == r0 + (if s.rank > 0 then [s] else []);
      forall i, j | 0 <= i < j < |r|
        ensures r[i].id != r[j].id
      {
        assert r[i] == r0[i] && r0[i].id in init;
        if j < |r0| {
          assert r[j] == r0[j];
        } else {
          assert r[j] == s && s.id == last;
        }
      }
    }
  }

  /** The snapshot names distinct stored submissions, each as stored and inside the
      window, and lists every stored submission inside the window. */
  predicate SnapOk(db: Db, snap: seq<Submission>)
  {
    && DistinctIds(snap)
    && (forall j :: 0 <= j < |snap| ==>
          snap[j].id in db.submissions && snap[j] == db.submissions[snap[j].id] &&
          snap[j].subreddit in db.subreddits && RankOk(snap[j]) && snap[j].rank > 0)
    && (forall id :: id in db.submissions && db.submissions[id].rank > 0 ==> db.submissions[id] in snap)
  }

  lemma SnapshotStored(db: Db)
    requires Wf(db)
    ensures SnapOk(db, Snapshot(db))
  {
    assert forall id :: id in db.submissions ==> exists m :: 0 <= m < |db.submissionIds| && db.submissionIds[m] == id;
    SnapshotOfDistinct(db.submissions, db.submissionIds);
  }

  /** The exit scan of `get_top_submissions`, over the snapshot taken when it starts. */
  function ExitScan(db: Db, upd: Updater, newIds: set<string>): (st: ExitState)
    requires Wf(db)
  {
    SnapshotStored(db);
    ExitFold(db, upd, Snapshot(db), newIds)
  }

  /** One exit keeps the database consistent. */
  lemma ExitStepWf(st: ExitState, upd: Updater, s: Submission, newIds: set<string>)
    requires Wf(st.db) && s.id in st.db.submissions && s.subreddit in st.db.subreddits && RankOk(s)
    ensures Wf(ExitStep(st, upd, s, newIds).db)
  {
    if s.id !in newIds {
      var cs := CommentsOf(st.db.comments, st.db.commentIds, s.id);
      RollupSubredditFacts(st.db.subreddits[s.subreddit], upd, s, cs);
    }
  }

  lemma {:induction false} ExitFoldWf(db: Db, upd: Updater, snap: seq<Submission>, newIds: set<string>)
    requires Wf(db)
    requires forall k :: 0 <= k < |snap| ==>
      snap[k].subreddit in db.subreddits && snap[k].id in db.submissions && RankOk(snap[k])
    decreases |snap|
    ensures CommentsIndexed(db)
    ensures Wf(ExitFold(db, upd, snap, newIds).db)
  {
    if snap != [] {
      var init := snap[..|snap| - 1];
      ExitFoldWf(db, upd, init, newIds);
      ExitStepWf(ExitFold(db, upd, init, newIds), upd, snap[|snap| - 1], newIds);
    }
  }

  /** Every subreddit `modified_subreddits` names is stored. */
  predicate TouchedStored(st: ExitState)
  {
    forall k :: 0 <= k < |Names(st.touched)| ==> Names(st.touched)[k] in st.db.subreddits
  }

  lemma ExitScanTouched(db: Db, upd: Updater, newIds: set<string>)
    requires Wf(db)
    ensures TouchedStored(ExitScan(db, upd, newIds))
  {
    SnapshotStored(db);
    var snap := Snapshot(db);
    ExitFoldTouched(db, upd, snap, newIds);
    var st := ExitFold(db, upd, snap, newIds);
    forall k | 0 <= k < |Names(st.touched)|
      ensures Names(st.touched)[k] in st.db.subreddits
    {
      var n := Names(st.touched)[k];
      assert n in Names(st.touched);
      assert n in ExitSubreddits(snap, newIds);
      var j :| 0 <= j < |snap| && snap[j].id !in newIds && snap[j].subreddit == n;
    }
  }

  function SumScores(raws: seq<RawSubmission>): int
  {
    if raws == [] then 0 else SumScores(raws[..|raws| - 1]) + raws[|raws| - 1].score
  }

  function SumNumComments(raws: seq<RawSubmission>): int
  {
    if raws == [] then 0 else SumNumComments(raws[..|raws| - 1]) + raws[|raws| - 1].numComments
  }

  /** The AverageScore and AverageNumComments rows: the listing's totals divided by 100 (true
      division, whatever the length of the listing). */
  function FrontpageAverages(db: Db, raws: seq<RawSubmission>): (db': Db)
    ensures db' == db.(averageScores := db'.averageScores, averageNumComments := db'.averageNumComments)
    ensures db'.averageScores == db.averageScores + [SumScores(raws) as real / 100.0]
    ensures db'.averageNumComments == db.averageNumComments + [SumNumComments(raws) as real / 100.0]
  {
    db.(averageScores := db.averageScores + [SumScores(raws) as real / 100.0],
        averageNumComments := db.averageNumComments + [SumNumComments(raws) as real / 100.0])
  }

  /** The final loop: `submission_obj.save()` for each kept object, in order. */
  function SaveAll(db: Db, pending: seq<Submission>): (db': Db)
    requires forall k :: 0 <= k < |pending| ==> pending[k].id in db.submissions
    ensures db' == db.(submissions := db'.submissions)
    ensures db'.submissions.Keys == db.submissions.Keys
  {
    if pending == [] then db
    else
      var d := SaveAll(db, pending[..|pending| - 1]);
      var p := pending[|pending| - 1];
      d.(submissions := d.submissions[p.id := p])
  }

  /** After the save loop each stored submission holds the last object saved for it, or its
      stored value when none was. */
  lemma {:induction false} SaveAllFacts(db: Db, pending: seq<Submission>)
    requires forall k :: 0 <= k < |pending| ==> pending[k].id in db.submissions
    decreases |pending|
    ensures forall id :: id in db.submissions ==>
      SaveAll(db, pending).submissions[id] == PendingFor(pending, id).GetOr(db.submissions[id])
  {
    if pending != [] {
      SaveAllFacts(db, pending[..|pending| - 1]);
    }
  }

  lemma {:induction false} SaveAllWf(db: Db, pending: seq<Submission>)
    requires Wf(db) && PendingOk(db, pending)
    decreases |pending|
    ensures Wf(SaveAll(db, pending))
  {
    if pending != [] {
      SaveAllWf(db, pending[..|pending| - 1]);
    }
  }

  /** One run of `get_top_submissions` with the hot listing `hot`, as tasks.py writes it: the
      subreddit trackers record the objects held in `modified_subreddits`. When fetching the
      listing raises, nothing is written. */
  function TickSpec(db: Db, upd: Updater, hot: Fetch<seq<RawSubmission>>): Db
    requires Wf(db)
  {
    match hot
    case RequestFailed => db
    case Fetched(raws) =>
      IngestFoldWf(db, upd, raws);
      var st := IngestFold(db, upd, raws);
      var ex := ExitScan(st.db, upd, RawIds(raws));
      var db' := FrontpageAverages(SubredditTrackersAsWritten(ex.db, ex.touched), raws);
      SaveAll(db', st.pending)
  }

  /** The tick with the subreddit trackers corrected: each touched subreddit is recorded as it
      is stored once the exit scan is over. */
  function TickSpecIntended(db: Db, upd: Updater, hot: Fetch<seq<RawSubmission>>): Db
    requires Wf(db)
  {
    match hot
    case RequestFailed => db
    case Fetched(raws) =>
      IngestFoldWf(db, upd, raws);
      var st := IngestFold(db, upd, raws);
      var ex := ExitScan(st.db, upd, RawIds(raws));
      ExitScanTouched(st.db, upd, RawIds(raws));
      var db' := FrontpageAverages(SubredditTrackers(ex.db, Names(ex.touched)), raws);
      SaveAll(db', st.pending)
  }

  /** The corrected tick differs from the tick as written only in the subreddit samples. Both
      keep the earlier samples and record the touched subreddits in the same order; the
      corrected one records the score and comment count each of them is stored with at the end
      of the tick, the one as written those of the object held in `modified_subreddits`. */
  lemma TickIntendedTrackers(db: Db, upd: Updater, raws: seq<RawSubmission>)
    requires Wf(db)
    ensures Wf(IngestFold(db, upd, raws).db)
    ensures var db1, db2 := TickSpec(db, upd, Fetched(raws)), TickSpecIntended(db, upd, Fetched(raws));
      var touched := ExitScan(IngestFold(db, upd, raws).db, upd, RawIds(raws)).touched;
      && db2 == db1.(subredditScores := db2.subredditScores, subredditNumComments := db2.subredditNumComments)
      && TrackersDiffer(db1, db2, touched)
  {
    IngestFoldWf(db, upd, raws);
    var st := IngestFold(db, upd, raws);
    var ex := ExitScan(st.db, upd, RawIds(raws));
    ExitScanTouched(st.db, upd, RawIds(raws));
    var a := SubredditTrackersAsWritten(ex.db, ex.touched);
    var b := SubredditTrackers(ex.db, Names(ex.touched));
    TrackersCompare(ex.db, ex.touched);
    var fa, fb := FrontpageAverages(a, raws), FrontpageAverages(b, raws);
    assert ex.db.submissions.Keys == st.db.submissions.Keys;
    SaveAllSame(fa, fb, st.pending);
    var db1, db2 := SaveAll(fa, st.pending), SaveAll(fb, st.pending);
    assert TickSpec(db, upd, Fetched(raws)) == db1;
    assert TickSpecIntended(db, upd, Fetched(raws)) == db2;
    assert db1.subreddits == a.subreddits && db1.subredditScores == a.subredditScores;
    assert db1.subredditNumComments == a.subredditNumComments;
    assert db2.subreddits == b.subreddits && db2.subredditScores == b.subredditScores;
    assert db2.subredditNumComments == b.subredditNumComments;
    TrackersDifferFields(a, b, db1, db2, ex.touched);
  }

  /** Only the subreddit rows and the two subreddit series matter to `TrackersDiffer`. */
  lemma TrackersDifferFields(a: Db, b: Db, db1: Db, db2: Db, touched: seq<Subreddit>)
    requires TrackersDiffer(a, b, touched)
    requires db1.subredditScores == a.subredditScores && db1.subredditNumComments == a.subredditNumComments
    requires db2.subredditScores == b.subredditScores && db2.subredditNumComments == b.subredditNumComments
    requires db2.subreddits == b.subreddits
    ensures TrackersDiffer(db1, db2, touched)
  {
  }

  /** `db2` records, after the samples it shares with `db1`, the stored values of the
      subreddits `db1` records from the objects `touched`, in the same order. */
  ghost predicate TrackersDiffer(db1: Db, db2: Db, touched: seq<Subreddit>)
  {
    && |db1.subredditScores| == |db2.subredditScores| >= |touched|
    && |db1.subredditNumComments| == |db2.subredditNumComments| >= |touched|
    && var m, c := |db1.subredditScores| - |touched|, |db1.subredditNumComments| - |touched|;
    && db1.subredditScores[..m] == db2.subredditScores[..m]
    && db1.subredditNumComments[..c] == db2.subredditNumComments[..c]
    && forall k :: 0 <= k < |touched| ==>
      && touched[k].name in db2.subreddits
      && db1.subredditScores[m + k] == Sample(touched[k].name, touched[k].score)
      && db1.subredditNumComments[c + k] == Sample(touched[k].name, touched[k].numComments)
      && db2.subredditScores[m + k] == Sample(touched[k].name, db2.subreddits[touched[k].name].score)
      && db2.subredditNumComments[c + k] == Sample(touched[k].name, db2.subreddits[touched[k].name].numComments)
  }

  /** The two ways of recording the subreddit trackers, side by side. */
  lemma TrackersCompare(d: Db, touched: seq<Subreddit>)
    requires forall k :: 0 <= k < |touched| ==> touched[k].name in d.subreddits
    ensures var a, b := SubredditTrackersAsWritten(d, touched), SubredditTrackers(d, Names(touched));
      && b == a.(subredditScores := b.subredditScores, subredditNumComments := b.subredditNumComments)
      && a.subreddits == d.subreddits
      && TrackersDiffer(a, b, touched)
  {
  }

  /** The final loop writes only the submissions table, and what it writes there depends on
      nothing else. */
  lemma {:induction false} SaveAllSame(x: Db, y: Db, pending: seq<Submission>)
    requires x.submissions == y.submissions
    requires forall k :: 0 <= k < |pending| ==> pending[k].id in x.submissions
    decreases |pending|
    ensures SaveAll(x, pending).submissions == SaveAll(y, pending).submissions
  {
    if pending != [] {
      SaveAllSame(x, y, pending[..|pending| - 1]);
    }
  }

  /** A tick keeps the database consistent. */
  lemma TickWf(db: Db, upd: Updater, hot: Fetch<seq<RawSubmission>>)
    requires Wf(db)
    ensures Wf(TickSpec(db, upd, hot))
    ensures hot.RequestFailed? ==> TickSpec(db, upd, hot) == db
  {
    match hot
    case RequestFailed =>
    case Fetched(raws) =>
      IngestFoldWf(db, upd, raws);
      var st := IngestFold(db, upd, raws);
      SnapshotStored(st.db);
      ExitFoldWf(st.db, upd, Snapshot(st.db), RawIds(raws));
      var ex := ExitScan(st.db, upd, RawIds(raws));
      var db' := FrontpageAverages(SubredditTrackersAsWritten(ex.db, ex.touched), raws);
      assert Wf(db');
      SaveAllWf(db', st.pending);
  }

  /** Every stored submission stays stored, and every listed one is stored afterwards. */
  lemma TickKeys(db: Db, upd: Updater, raws: seq<RawSubmission>)
    requires Wf(db)
    ensures TickSpec(db, upd, Fetched(raws)).submissions.Keys == db.submissions.Keys + RawIds(raws)
  {
    IngestFoldWf(db, upd, raws);
    IngestFoldKeys(db, upd, raws);
  }

  /** The exit scan retires a stored submission missing from the listing when it is inside
      the window (rank -1, every other field unchanged) and leaves it alone otherwise; a
      listed submission is left alone. */
  lemma ExitScanRetires(db: Db, upd: Updater, newIds: set<string>, id: string)
    requires Wf(db) && id in db.submissions
    ensures id in ExitScan(db, upd, newIds).db.submissions
    ensures ExitScan(db, upd, newIds).db.submissions[id] ==
      if id !in newIds && db.submissions[id].rank > 0 then db.submissions[id].(rank := -1) else db.submissions[id]
  {
    SnapshotStored(db);
    var snap := Snapshot(db);
    ExitFoldRanks(db, upd, snap, newIds);
    var s := db.submissions[id];
    if id !in newIds && s.rank > 0 {
      assert s in snap;
    }
  }

  /** A stored submission ends the tick as the last object kept for it, or else as the exit
      scan left it. */
  lemma TickSubmission(db: Db, upd: Updater, raws: seq<RawSubmission>, id: string)
    requires Wf(db)
    ensures Wf(IngestFold(db, upd, raws).db)
    ensures var st := IngestFold(db, upd, raws);
      var ex := ExitScan(st.db, upd, RawIds(raws));
      && TickSpec(db, upd, Fetched(raws)).submissions.Keys == ex.db.submissions.Keys
      && (id in ex.db.submissions ==>
            TickSpec(db, upd, Fetched(raws)).submissions[id] == PendingFor(st.pending, id).GetOr(ex.db.submissions[id]))
  {
    IngestFoldWf(db, upd, raws);
    var st := IngestFold(db, upd, raws);
    var ex := ExitScan(st.db, upd, RawIds(raws));
    var db' := FrontpageAverages(SubredditTrackersAsWritten(ex.db, ex.touched), raws);
    assert db'.submissions == ex.db.submissions;
    assert ex.db.submissions.Keys == st.db.submissions.Keys;
    SaveAllFacts(db', st.pending);
    assert TickSpec(db, upd, Fetched(raws)) == SaveAll(db', st.pending);
  }

  /** A stored submission missing from the listing is retired: if it was inside the window it
      ends the tick with rank -1 and every other field unchanged; otherwise it is untouched. */
  lemma TickExits(db: Db, upd: Updater, raws: seq<RawSubmission>, id: string)
    requires Wf(db) && id in db.submissions && id !in RawIds(raws)
    ensures id in TickSpec(db, upd, Fetched(raws)).submissions
    ensures TickSpec(db, upd, Fetched(raws)).submissions[id] ==
      if db.submissions[id].rank > 0 then db.submissions[id].(rank := -1) else db.submissions[id]
  {
    IngestFoldWf(db, upd, raws);
    IngestFoldKeys(db, upd, raws);
    IngestFoldPendingIds(db, upd, raws);
    TickSubmission(db, upd, raws, id);
    var st := IngestFold(db, upd, raws);
    ExitScanRetires(st.db, upd, RawIds(raws), id);
    assert PendingFor(st.pending, id) == None;
  }

  /** With a listing of distinct ids, item `i` ends the tick at rank `i + 1` whenever it was
      new or its comment tree was fetched: as the updated object (rank `i + 1`, previous rank
      the stored one, peak the better of the two) or as the created one. A stored item whose
      fetch raised keeps its stored record. */
  lemma TickRanks(db: Db, upd: Updater, raws: seq<RawSubmission>, i: nat)
    requires Wf(db) && DistinctRaw(raws) && i < |raws|
    ensures raws[i].id in TickSpec(db, upd, Fetched(raws)).submissions
    ensures var s' := TickSpec(db, upd, Fetched(raws)).submissions[raws[i].id];
      && (CommentTree(raws[i]).Some? ==> s' == Record(db, raws[i], i + 1))
      && (CommentTree(raws[i]).None? && raws[i].id !in db.submissions ==> s' == NewSubmission(raws[i], i + 1))
      && (CommentTree(raws[i]).None? && raws[i].id in db.submissions ==> s' == db.submissions[raws[i].id])
      && (CommentTree(raws[i]).Some? || raws[i].id !in db.submissions ==> s'.rank == i + 1)
  {
    var id := raws[i].id;
    var st := IngestFold(db, upd, raws);
    var newIds := RawIds(raws);
    IngestFoldWf(db, upd, raws);
    assert Wf(st.db);
    IngestFoldKeys(db, upd, raws);
    IngestFoldStored(db, upd, raws);
    IngestFoldKept(db, upd, raws);
    assert PendingFor(st.pending, id) ==
      (if CommentTree(raws[i]).Some? then Some(Record(db, raws[i], i + 1)) else None);
    assert id in st.db.submissions && st.db.submissions[id] ==
      (if id in db.submissions then db.submissions[id] else NewSubmission(raws[i], i + 1));
    ListedNotRetired(st.db, upd, newIds, id);
    TickSubmission(db, upd, raws, id);
  }

  /** The exit scan leaves a listed submission as it is. */
  lemma ListedNotRetired(db: Db, upd: Updater, newIds: set<string>, id: string)
    requires Wf(db) && id in db.submissions && id in newIds
    ensures id in ExitScan(db, upd, newIds).db.submissions
    ensures ExitScan(db, upd, newIds).db.submissions[id] == db.submissions[id]
  {
    ExitScanRetires(db, upd, newIds, id);
  }

  /** A submission is rolled up once: after a tick, an exit scan for the same listing finds
      no submission to retire, so it changes nothing. */
  lemma TickRollupOnce(db: Db, upd: Updater, raws: seq<RawSubmission>)
    requires Wf(db)
    ensures Wf(TickSpec(db, upd, Fetched(raws)))
    ensures var db' := TickSpec(db, upd, Fetched(raws));
      ExitScan(db', upd, RawIds(raws)) == ExitState(db', [])
  {
    TickWf(db, upd, Fetched(raws));
    TickKeys(db, upd, raws);
    var db' := TickSpec(db, upd, Fetched(raws));
    SnapshotStored(db');
    var snap := Snapshot(db');
    forall k | 0 <= k < |snap|
      ensures snap[k].id in RawIds(raws)
    {
      var id := snap[k].id;
      if id !in RawIds(raws) {
        TickExits(db, upd, raws, id);
        assert false;
      }
    }
    ExitFoldNoExits(db', upd, snap, RawIds(raws));
  }
}
