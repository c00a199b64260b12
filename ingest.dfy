/** The record materializer of tasks.py: `create_comment_obj`, `create_submission_obj` and
    `update_submission_obj`, as functions from the database before the call to the database
    after it. The class in store.dfy performs them step by step and is proved against these. */
module Ingest {
  import opened Opt
  import opened Strings
  import opened Records

  /** Python truthiness of `comment.distinguished`: set and non-empty. */
  predicate Truthy(d: Option<string>)
  {
    d.Some? && d.value != ""
  }

  datatype Roles = Roles(isOp: Option<bool>, isMod: Option<bool>, isAdmin: Option<bool>, isSpecial: Option<bool>)

  /** One of the three `distinguished` flags: `marker in distinguished` when it is truthy. */
  function DistinguishedAs(distinguished: Option<string>, marker: string): (r: bool)
    ensures r <==> Truthy(distinguished) && Occurs(distinguished.value, marker)
  {
    if Truthy(distinguished) then
      ContainsOccurs(distinguished.value, marker);
      Contains(distinguished.value, marker)
    else false
  }

  /** The author-role classification of a new comment. An unknown author gives four unknown
      flags; a known author is the OP exactly when the names match, and holds each
      distinguished role exactly when the marker occurs in a truthy `distinguished`. */
  function ClassifyRoles(author: Option<string>, distinguished: Option<string>, opAuthor: string): (r: Roles)
    ensures author.None? <==> r.isOp.None?
    ensures author.None? ==> r == Roles(None, None, None, None)
    ensures author.Some? ==> r.isOp == Some(author.value == opAuthor)
    ensures author.Some? ==>
      && r.isMod == Some(Truthy(distinguished) && Occurs(distinguished.value, "moderator"))
      && r.isAdmin == Some(Truthy(distinguished) && Occurs(distinguished.value, "admin"))
      && r.isSpecial == Some(Truthy(distinguished) && Occurs(distinguished.value, "special"))
  {
    match author
    case None => Roles(None, None, None, None)
    case Some(name) =>
      Roles(Some(name == opAuthor),
            Some(DistinguishedAs(distinguished, "moderator")),
            Some(DistinguishedAs(distinguished, "admin")),
            Some(DistinguishedAs(distinguished, "special")))
  }

  predicate IsAsciiLetter(c: char)
  {
    'a' <= c <= 'z' || 'A' <= c <= 'Z'
  }

  /** `sum(c in string.ascii_letters for c in body)`. */
  function CountLetters(s: string): (n: nat)
    ensures n <= |s|
  {
    if s == [] then 0 else CountLetters(s[..|s| - 1]) + (if IsAsciiLetter(s[|s| - 1]) then 1 else 0)
  }

  /** The letter count is additive over concatenation. */
  lemma {:induction false} CountLettersAppend(a: string, b: string)
    decreases |b|
    ensures CountLetters(a + b) == CountLetters(a) + CountLetters(b)
  {
    if b != [] {
      CountLettersAppend(a, b[..|b| - 1]);
      assert (a + b)[..|a + b| - 1] == a + b[..|b| - 1];
      assert (a + b)[|a + b| - 1] == b[|b| - 1];
    } else {
      assert a + b == a;
    }
  }

  /** Every character is counted exactly when every character is an ASCII letter. */
  lemma {:induction false} CountLettersAll(s: string)
    ensures CountLetters(s) == |s| <==> forall k :: 0 <= k < |s| ==> IsAsciiLetter(s[k])
  {
    if s != [] {
      var p := s[..|s| - 1];
      CountLettersAll(p);
      assert forall k :: 0 <= k < |p| ==> p[k] == s[k];
    }
  }

  /** The Comment row that `create_comment_obj` saves for a new comment with a body. */
  function NewComment(c: RawComment, parent: Submission): Comment
    requires c.body.Some?
  {
    var roles := ClassifyRoles(c.author, c.distinguished, parent.author);
    Comment(c.id, parent.id, c.score, c.isRoot, roles.isOp, roles.isMod, roles.isAdmin, roles.isSpecial,
            c.gildings, CountLetters(c.body.value), c.words, c.sentences, c.polarity, c.subjectivity,
            c.createdUtc)
  }

  /** The subreddit after one new comment is folded into its comment averages. */
  function FoldComment(sr: Subreddit, upd: Updater, c: RawComment): Subreddit
  {
    sr.(averageCommentsPolarity := upd(sr.averageCommentsPolarity, c.polarity, sr.trackedComments),
        averageCommentsSubjectivity := upd(sr.averageCommentsSubjectivity, c.subjectivity, sr.trackedComments),
        trackedComments := sr.trackedComments + 1)
  }

  /** The parent submission of a comment being materialized: stored, with its subreddit. */
  predicate ParentOk(db: Db, parent: Submission)
  {
    parent.id in db.submissions && parent.subreddit in db.subreddits
  }

  /** A subreddit whose comment statistics alone may have moved, its comment count only up. */
  predicate OnlyCommentStats(a: Subreddit, b: Subreddit)
  {
    && b == a.(trackedComments := b.trackedComments,
               averageCommentsPolarity := b.averageCommentsPolarity,
               averageCommentsSubjectivity := b.averageCommentsSubjectivity)
    && a.trackedComments <= b.trackedComments
  }

  /** Only the comments table and the subreddits' comment statistics change; no key
      disappears, no subreddit appears, and comment rows are only ever appended to the
      insertion order. */
  predicate CommentFrame(db: Db, db': Db)
  {
    && db' == db.(comments := db'.comments, commentIds := db'.commentIds, subreddits := db'.subreddits)
    && db'.subreddits.Keys == db.subreddits.Keys
    && (forall n :: n in db.subreddits ==> OnlyCommentStats(db.subreddits[n], db'.subreddits[n]))
    && db.comments.Keys <= db'.comments.Keys
    && |db.commentIds| <= |db'.commentIds| && db'.commentIds[..|db.commentIds|] == db.commentIds
  }

  /** `create_comment_obj(comment, submission_obj)`: a known id only refreshes score and
      gildings; an unknown id without a body is skipped; otherwise the comment is created and
      folded into its subreddit's comment averages. */
  function UpsertComment(db: Db, upd: Updater, c: RawComment, parent: Submission): (db': Db)
    requires parent.subreddit in db.subreddits
    ensures CommentFrame(db, db')
  {
    if c.id in db.comments then
      var row := db.comments[c.id];
      db.(comments := db.comments[c.id := row.(score := c.score, gildings := c.gildings)])
    else if c.body.None? then
      db
    else
      var sr := db.subreddits[parent.subreddit];
      db.(comments := db.comments[c.id := NewComment(c, parent)],
          commentIds := db.commentIds + [c.id],
          subreddits := db.subreddits[parent.subreddit := FoldComment(sr, upd, c)])
  }

  /** `for comment in comments: create_comment_obj(comment, submission_obj)`. */
  function UpsertComments(db: Db, upd: Updater, cs: seq<RawComment>, parent: Submission): (db': Db)
    requires parent.subreddit in db.subreddits
    decreases |cs|
    ensures CommentFrame(db, db')
  {
    if cs == [] then db
    else UpsertComment(UpsertComments(db, upd, cs[..|cs| - 1], parent), upd, cs[|cs| - 1], parent)
  }

  /** Materializing a comment under a stored parent keeps the database consistent: in
      particular the comment order still lists every comment id exactly once. */
  lemma UpsertCommentWf(db: Db, upd: Updater, c: RawComment, parent: Submission)
    requires Wf(db) && ParentOk(db, parent)
    ensures Wf(UpsertComment(db, upd, c, parent))
  {
    if c.id !in db.comments && c.body.Some? {
      var db' := UpsertComment(db, upd, c, parent);
      AppendKey(db.comments, db.commentIds, c.id, NewComment(c, parent));
      assert db'.comments == db.comments[c.id := NewComment(c, parent)];
      assert db'.commentIds == db.commentIds + [c.id];
    }
  }

  /** Storing a row under a new key and appending the key to the insertion order keeps the
      order listing every key exactly once. */
  lemma AppendKey<V>(m: map<string, V>, ids: seq<string>, k: string, v: V)
    requires NoDuplicates(ids) && (forall id :: id in m <==> id in ids) && k !in m
    ensures NoDuplicates(ids + [k]) && forall id :: id in m[k := v] <==> id in ids + [k]
  {
  }

  lemma {:induction false} UpsertCommentsWf(db: Db, upd: Updater, cs: seq<RawComment>, parent: Submission)
    requires Wf(db) && ParentOk(db, parent)
    decreases |cs|
    ensures Wf(UpsertComments(db, upd, cs, parent))
  {
    if cs != [] {
      UpsertCommentsWf(db, upd, cs[..|cs| - 1], parent);
      UpsertCommentWf(UpsertComments(db, upd, cs[..|cs| - 1], parent), upd, cs[|cs| - 1], parent);
    }
  }

  /** A comment id already stored: only its score and gildings change, and no subreddit is
      touched. */
  lemma UpsertExisting(db: Db, upd: Updater, c: RawComment, parent: Submission)
    requires parent.subreddit in db.subreddits && c.id in db.comments
    ensures var db' := UpsertComment(db, upd, c, parent);
      && db'.subreddits == db.subreddits && db'.commentIds == db.commentIds
      && db'.comments.Keys == db.comments.Keys
      && db'.comments[c.id].score == c.score && db'.comments[c.id].gildings == c.gildings
      && db'.comments[c.id] == db.comments[c.id].(score := c.score, gildings := c.gildings)
      && (forall id :: id in db.comments && id != c.id ==> db'.comments[id] == db.comments[id])
  {
  }

  /** An unknown id with no body changes nothing at all. */
  lemma UpsertDeleted(db: Db, upd: Updater, c: RawComment, parent: Submission)
    requires parent.subreddit in db.subreddits && c.id !in db.comments && c.body.None?
    ensures UpsertComment(db, upd, c, parent) == db
  {
  }

  /** A new comment with a body: it is stored with the classified roles and the letter count
      of its body, the subreddit's comment count grows by exactly one, and both comment
      averages are folded with n equal to the count before the increment. */
  lemma UpsertNew(db: Db, upd: Updater, c: RawComment, parent: Submission)
    requires parent.subreddit in db.subreddits && c.id !in db.comments && c.body.Some?
    ensures var db' := UpsertComment(db, upd, c, parent);
      var sr, sr' := db.subreddits[parent.subreddit], db'.subreddits[parent.subreddit];
      var roles := ClassifyRoles(c.author, c.distinguished, parent.author);
      && db'.comments.Keys == db.comments.Keys + {c.id}
      && db'.commentIds == db.commentIds + [c.id]
      && db'.comments[c.id].submission == parent.id
      && db'.comments[c.id].isOp == roles.isOp && db'.comments[c.id].isMod == roles.isMod
      && db'.comments[c.id].isAdmin == roles.isAdmin && db'.comments[c.id].isSpecial == roles.isSpecial
      && db'.comments[c.id].characters == CountLetters(c.body.value)
      && sr'.trackedComments == sr.trackedComments + 1
      && sr'.averageCommentsPolarity == upd(sr.averageCommentsPolarity, c.polarity, sr.trackedComments)
      && sr'.averageCommentsSubjectivity == upd(sr.averageCommentsSubjectivity, c.subjectivity, sr.trackedComments)
      && sr' == sr.(trackedComments := sr'.trackedComments,
                    averageCommentsPolarity := sr'.averageCommentsPolarity,
                    averageCommentsSubjectivity := sr'.averageCommentsSubjectivity)
      && (forall n :: n in db.subreddits && n != parent.subreddit ==> db'.subreddits[n] == db.subreddits[n])
      && (forall id :: id in db.comments ==> db'.comments[id] == db.comments[id])
      && db'.subreddits.Keys == db.subreddits.Keys
      && db' == db.(comments := db'.comments, commentIds := db'.commentIds, subreddits := db'.subreddits)
  {
  }

  /** Upserting the same comment twice is the same as upserting it once. */
  lemma UpsertIdempotent(db: Db, upd: Updater, c: RawComment, parent: Submission)
    requires parent.subreddit in db.subreddits
    ensures var db' := UpsertComment(db, upd, c, parent);
      parent.subreddit in db'.subreddits && UpsertComment(db', upd, c, parent) == db'
  {
    var db' := UpsertComment(db, upd, c, parent);
    if c.id in db'.comments {
      var row := db'.comments[c.id];
      assert row.(score := c.score, gildings := c.gildings) == row;
      assert db'.comments[c.id := row] == db'.comments;
    }
  }

  /** The ids of the listed comments that have a body. */
  function BodyIds(cs: seq<RawComment>): (ids: set<string>)
    ensures forall c :: c in cs && c.body.Some? ==> c.id in ids
    ensures forall id :: id in ids ==> exists c :: c in cs && c.body.Some? && c.id == id
  {
    if cs == [] then {}
    else
      var init, last := cs[..|cs| - 1], cs[|cs| - 1];
      assert cs == init + [last];
      BodyIds(init) + (if last.body.Some? then {last.id} else {})
  }

  /** The ids stored after a comment list is processed: the old ones plus the id of every
      listed comment that has a body. Since ids are map keys and `commentIds` never repeats
      (Wf), a list that names an id twice still yields a single record for it. */
  lemma {:induction false} UpsertCommentsKeys(db: Db, upd: Updater, cs: seq<RawComment>, parent: Submission)
    requires parent.subreddit in db.subreddits
    decreases |cs|
    ensures UpsertComments(db, upd, cs, parent).comments.Keys == db.comments.Keys + BodyIds(cs)
  {
    if cs != [] {
      UpsertCommentsKeys(db, upd, cs[..|cs| - 1], parent);
    }
  }

  /** The parent's subreddit counts exactly the comments created: its `tracked_comments` grows
      by the number of new rows, and every other subreddit is unchanged. */
  lemma {:induction false} UpsertCommentsCount(db: Db, upd: Updater, cs: seq<RawComment>, parent: Submission)
    requires parent.subreddit in db.subreddits
    decreases |cs|
    ensures var db' := UpsertComments(db, upd, cs, parent);
      && db'.subreddits[parent.subreddit].trackedComments ==
         db.subreddits[parent.subreddit].trackedComments + (|db'.commentIds| - |db.commentIds|)
      && (forall n :: n in db.subreddits && n != parent.subreddit ==> db'.subreddits[n] == db.subreddits[n])
  {
    if cs != [] {
      UpsertCommentsCount(db, upd, cs[..|cs| - 1], parent);
      UpsertCommentCount(UpsertComments(db, upd, cs[..|cs| - 1], parent), upd, cs[|cs| - 1], parent);
    }
  }

  /** One comment: the parent's subreddit counts one more comment exactly when one id was
      appended, and every other subreddit is unchanged. */
  lemma UpsertCommentCount(db: Db, upd: Updater, c: RawComment, parent: Submission)
    requires parent.subreddit in db.subreddits
    ensures var db' := UpsertComment(db, upd, c, parent);
      && db'.subreddits[parent.subreddit].trackedComments ==
         db.subreddits[parent.subreddit].trackedComments + (|db'.commentIds| - |db.commentIds|)
      && (forall n :: n in db.subreddits && n != parent.subreddit ==> db'.subreddits[n] == db.subreddits[n])
  {
  }

  /** The subreddit row created on first sight of a subreddit. Counters and averages start at
      zero (the model defaults; models.py is not part of this model). */
  function NewSubreddit(raw: RawSubreddit): Subreddit
  {
    Subreddit(raw.name, raw.title, raw.publicDescription.GetOr(""), 0, 0, 0, 0,
              0.0, 0.0, 0.0, 0.0, 0.0, 0.0, 0.0, 0.0, 0.0, 0.0, 0.0, 0.0)
  }

  /** The Submission row `create_submission_obj` saves. */
  function NewSubmission(raw: RawSubmission, rank: int): Submission
  {
    var author := raw.author.GetOr("");
    Submission(raw.id, raw.subreddit.name, raw.title, author, rank, rank, rank, raw.score,
               raw.numComments, raw.polarity, raw.subjectivity, raw.domain,
               raw.linkFlairText.GetOr(""), raw.upvoteRatio, raw.stickied, raw.over18, raw.spoiler,
               raw.locked, raw.gildings, raw.createdUtc)
  }

  /** The comments a submission's materialization walks: the first fetch, plus the second
      fetch when there are more than 500 comments. None when a fetch raised. */
  function CommentTree(raw: RawSubmission): (r: Option<seq<RawComment>>)
    ensures r.Some? <==> raw.comments.Fetched? && (raw.numComments > 500 ==> raw.refetched.Fetched?)
    ensures r.Some? && raw.numComments <= 500 ==> r.value == raw.comments.value
    ensures r.Some? && raw.numComments > 500 ==> r.value == raw.comments.value + raw.refetched.value
  {
    match raw.comments
    case RequestFailed => None
    case Fetched(cs) =>
      if raw.numComments <= 500 then Some(cs)
      else match raw.refetched
        case RequestFailed => None
        case Fetched(more) => Some(cs + more)
  }

  /** The database after a materialization, and the submission object it returns (None when
      a fetch raised RequestException and the exception left the function). */
  datatype Outcome = Outcome(db: Db, saved: Option<Submission>)

  /** The subreddit get-or-create of `create_submission_obj`. */
  function WithSubreddit(db: Db, raw: RawSubreddit): (db': Db)
    ensures raw.name in db'.subreddits
    ensures raw.name in db.subreddits ==> db' == db
    ensures raw.name !in db.subreddits ==> db' == db.(subreddits := db.subreddits[raw.name := NewSubreddit(raw)])
  {
    if raw.name in db.subreddits then db
    else db.(subreddits := db.subreddits[raw.name := NewSubreddit(raw)])
  }

  /** The database once `create_submission_obj` has saved the subreddit and the submission,
      before it fetches the comment tree. */
  function SavedSubmission(db: Db, raw: RawSubmission, rank: int): (db': Db)
    ensures raw.subreddit.name in db'.subreddits && raw.id in db'.submissions
  {
    var db1 := WithSubreddit(db, raw.subreddit);
    db1.(submissions := db1.submissions[raw.id := NewSubmission(raw, rank)],
         submissionIds := db1.submissionIds + [raw.id])
  }

  /** `create_submission_obj(submission, rank)`. The subreddit and the submission are saved
      before the comment tree is fetched, so they stay saved when that fetch raises. */
  function CreateSubmission(db: Db, upd: Updater, raw: RawSubmission, rank: int): (o: Outcome)
  {
    var db2 := SavedSubmission(db, raw, rank);
    match CommentTree(raw)
    case None => Outcome(db2, None)
    case Some(cs) => Outcome(UpsertComments(db2, upd, cs, NewSubmission(raw, rank)), Some(NewSubmission(raw, rank)))
  }

  /** Creating a submission that is not yet stored, at a rank in the window, keeps the
      database consistent. */
  lemma CreateSubmissionWf(db: Db, upd: Updater, raw: RawSubmission, rank: int)
    requires Wf(db) && raw.id !in db.submissions && rank >= 1
    ensures Wf(CreateSubmission(db, upd, raw, rank).db)
  {
    var db2 := SavedSubmission(db, raw, rank);
    AppendKey(db.submissions, db.submissionIds, raw.id, NewSubmission(raw, rank));
    assert Wf(db2);
    match CommentTree(raw)
    case None =>
    case Some(cs) => UpsertCommentsWf(db2, upd, cs, NewSubmission(raw, rank));
  }

  /** A created submission starts with all three ranks equal to its rank, with `''` for a
      missing author or flair; its subreddit exists afterwards and an existing one keeps its
      title and description. */
  lemma CreateSubmissionFields(db: Db, upd: Updater, raw: RawSubmission, rank: int)
    ensures var o := CreateSubmission(db, upd, raw, rank);
      var s := o.db.submissions[raw.id];
      && raw.id in o.db.submissions
      && s.rank == rank && s.rankPrevious == rank && s.rankPeak == rank
      && (raw.author.None? ==> s.author == "") && (raw.author.Some? ==> s.author == raw.author.value)
      && (raw.linkFlairText.None? ==> s.linkFlairText == "")
      && (raw.linkFlairText.Some? ==> s.linkFlairText == raw.linkFlairText.value)
      && o.db.submissionIds == db.submissionIds + [raw.id]
      && raw.subreddit.name in o.db.subreddits
      && (raw.subreddit.name in db.subreddits ==>
            o.db.subreddits[raw.subreddit.name].title == db.subreddits[raw.subreddit.name].title &&
            o.db.subreddits[raw.subreddit.name].description == db.subreddits[raw.subreddit.name].description)
      && (raw.subreddit.name !in db.subreddits ==>
            o.db.subreddits[raw.subreddit.name].title == raw.subreddit.title &&
            o.db.subreddits[raw.subreddit.name].description == raw.subreddit.publicDescription.GetOr(""))
      && (o.saved.Some? <==> CommentTree(raw).Some?)
      && (o.saved.Some? ==> o.saved.value == s)
  {
    var db2 := SavedSubmission(db, raw, rank);
    var o := CreateSubmission(db, upd, raw, rank);
    var n := raw.subreddit.name;
    assert o.db.submissions == db2.submissions && o.db.submissionIds == db2.submissionIds;
    assert OnlyCommentStats(db2.subreddits[n], o.db.subreddits[n]);
  }

  /** The new ranks of `update_submission_obj`: the old rank becomes the previous rank and the
      peak is the better (smaller) of the old peak and the new rank, so it never grows. A
      flair of None keeps the stored flair. */
  function UpdatedRecord(s: Submission, raw: RawSubmission, rank: int): (r: Submission)
    ensures RankOk(s) && rank >= 1 ==> RankOk(r)
    ensures r.id == s.id && r.subreddit == s.subreddit && r.author == s.author
    ensures r.rank == rank && r.rankPrevious == s.rank
    ensures r.rankPeak <= s.rankPeak && r.rankPeak <= rank && (r.rankPeak == s.rankPeak || r.rankPeak == rank)
    ensures raw.linkFlairText.None? ==> r.linkFlairText == s.linkFlairText
    ensures raw.linkFlairText.Some? ==> r.linkFlairText == raw.linkFlairText.value
    ensures r.score == raw.score && r.numComments == raw.numComments && r.gildings == raw.gildings
    ensures r.title == s.title && r.polarity == s.polarity && r.subjectivity == s.subjectivity
    ensures r.domain == s.domain && r.createdAt == s.createdAt
    ensures r.upvoteRatio == raw.upvoteRatio && r.stickied == raw.stickied && r.over18 == raw.over18
    ensures r.spoiler == raw.spoiler && r.locked == raw.locked
  {
    s.(rankPrevious := s.rank,
       rank := rank,
       rankPeak := if rank < s.rankPeak then rank else s.rankPeak,
       score := raw.score,
       numComments := raw.numComments,
       linkFlairText := if raw.linkFlairText.Some? then raw.linkFlairText.value else s.linkFlairText,
       upvoteRatio := raw.upvoteRatio,
       stickied := raw.stickied,
       over18 := raw.over18,
       spoiler := raw.spoiler,
       locked := raw.locked,
       gildings := raw.gildings)
  }

  /** `update_submission_obj(submission, rank)`. The updated object is returned, not saved:
      the tick saves it at its end. Only comments and the subreddit's comment statistics are
      written here, and nothing at all when a fetch raises. */
  function UpdateSubmission(db: Db, upd: Updater, raw: RawSubmission, rank: int): (o: Outcome)
    requires raw.id in db.submissions && db.submissions[raw.id].subreddit in db.subreddits
    ensures o.db.submissions == db.submissions && o.db.submissionIds == db.submissionIds
    ensures o.saved.Some? ==> o.saved.value == UpdatedRecord(db.submissions[raw.id], raw, rank)
    ensures o.saved.None? <==> CommentTree(raw).None?
    ensures o.saved.None? ==> o.db == db
  {
    var rec := UpdatedRecord(db.submissions[raw.id], raw, rank);
    match CommentTree(raw)
    case None => Outcome(db, None)
    case Some(cs) => Outcome(UpsertComments(db, upd, cs, rec), Some(rec))
  }

  lemma UpdateSubmissionWf(db: Db, upd: Updater, raw: RawSubmission, rank: int)
    requires Wf(db) && raw.id in db.submissions
    ensures Wf(UpdateSubmission(db, upd, raw, rank).db)
  {
    match CommentTree(raw)
    case None =>
    case Some(cs) => UpsertCommentsWf(db, upd, cs, UpdatedRecord(db.submissions[raw.id], raw, rank));
  }
}
