# aliendb analytics: a verified model

aliendb collects statistics about the submissions on the front page of /r/all. A periodic
task (`get_top_submissions`) fetches the hot listing of the top 100 submissions. For each
listed submission it creates or updates a stored Submission together with its comments, and
it records a score, comment-count and upvote-ratio sample. A submission that leaves the
listing is rolled up into the cumulative totals and into its subreddit's averages exactly
once, and it is then marked with rank -1. The web views show the current listing with rank
deltas and answer title searches and submission-link lookups.

This project models:

* the collector of `web/aliendb/apps/analytics/tasks.py`, in two layers:
  * specification functions over a database value `Records.Db` (modules `Ingest`, `Rollup`
    and `Tick`);
  * an imperative class `Store.Store` whose fields are the tables and whose methods perform
    the same steps as `tasks.py`, with the same loops. Each method is proved to produce
    exactly the database the matching specification function describes.
  * the tick `Tick.TickSpec` follows the program as written, including the stale subreddit
    trackers listed under "## Findings"; `Tick.TickSpecIntended` is the corrected tick, and
    `Tick.TickIntendedTrackers` relates the two.
* the request-level rules of `web/aliendb/apps/analytics/views.py` (module `Views`):
  * the rank-delta annotation of `home`, as a method that updates row objects in place;
  * the routing of `search`: the strip, the two kinds of submission link, the length gate
    and the time window.

Modules:

| file | module | contents |
|---|---|---|
| option.dfy | Opt | `Option` and `GetOr` (`x or default`) |
| strings.dfy | Strings | Python's `in`, `split`, `strip` and `%d` on `seq<char>` |
| records.dfy | Records | the stored rows, the PRAW inputs, the database value and its consistency predicate `Wf` |
| ingest.dfy | Ingest | `create_comment_obj`, `create_submission_obj`, `update_submission_obj` |
| rollup.dfy | Rollup | `update_subreddit_obj`, `create_cumulative_tracker_objs`, the exit scan and the subreddit trackers |
| tick.dfy | Tick | the whole tick `get_top_submissions` as `TickSpec`, and its properties |
| store.dfy | Store | the class that performs the tick step by step |
| views.dfy | Views | `home` and `search` |

Some inputs are parameters rather than code:

* `update_average` (imported from `helpers.py`) is the parameter `upd: Updater`. Every property that
  mentions an average holds for any averaging function.
* The result of each PRAW request is a value `Fetch<T>`, which is either `Fetched(value)` or
  `RequestFailed` (a `prawcore` RequestException).
* The TextBlob sentiment scores, word counts and sentence counts are fields of the raw
  comment and submission.
* In the views, the current time is the parameter `now`.

## Model

| member | source | states |
|---|---|---|
| Ingest.DistinguishedAs | web/aliendb/apps/analytics/tasks.py:167-171 | a role flag holds exactly when `distinguished` is truthy and contains the marker |
| Ingest.ClassifyRoles | web/aliendb/apps/analytics/tasks.py:166-181 | an unknown author gives four unknown flags; a known author is the OP exactly when the names match, and holds each distinguished role exactly when its marker occurs in a truthy `distinguished` |
| Ingest.CountLettersAll | web/aliendb/apps/analytics/tasks.py:188 | the letter count equals the body length exactly when every character is an ASCII letter |
| Ingest.CountLettersAppend | web/aliendb/apps/analytics/tasks.py:188 | the letter count is additive over concatenation |
| Ingest.UpsertExisting | web/aliendb/apps/analytics/tasks.py:223-232 | a stored comment id refreshes only that comment's score and gildings; no subreddit, no other comment and no key changes |
| Ingest.UpsertDeleted | web/aliendb/apps/analytics/tasks.py:160-163 | an unknown comment without a body changes nothing |
| Ingest.UpsertNew | web/aliendb/apps/analytics/tasks.py:166-221 | a new comment is stored with its classified roles and letter count and appended to the comment order; its subreddit's tracked comments grow by one and both comment averages are folded with the count before the increment; nothing else changes |
| Ingest.UpsertIdempotent | web/aliendb/apps/analytics/tasks.py:160-232 | upserting the same comment twice equals upserting it once |
| Ingest.UpsertCommentWf | web/aliendb/apps/analytics/tasks.py:152-232 | upserting a comment under a stored parent keeps the database consistent |
| Ingest.UpsertCommentsKeys | web/aliendb/apps/analytics/tasks.py:95-96 | after the comment loop the stored comment ids are the old ones plus the ids of the comments that have a body |
| Ingest.UpsertCommentsCount | web/aliendb/apps/analytics/tasks.py:95-96 | the parent's subreddit tracks exactly as many more comments as the loop appended to the comment order; every other subreddit is unchanged |
| Ingest.CommentTree | web/aliendb/apps/analytics/tasks.py:84-93 | the comments walked are the first fetch, plus the second fetch when there are more than 500; None exactly when a needed fetch raised |
| Ingest.WithSubreddit | web/aliendb/apps/analytics/tasks.py:36-46 | get-or-create of the subreddit: an existing one is kept unchanged, a missing one is created from the PRAW subreddit |
| Ingest.CreateSubmissionFields | web/aliendb/apps/analytics/tasks.py:22-98 | a created submission has all three ranks equal to its rank, `''` for a missing author or flair, and is appended to the submission order; its subreddit exists afterwards, an existing one keeps its title and description; an object is returned exactly when the comment tree was fetched |
| Ingest.CreateSubmissionWf | web/aliendb/apps/analytics/tasks.py:22-98 | creating a new submission at a positive rank keeps the database consistent |
| Ingest.UpdatedRecord | web/aliendb/apps/analytics/tasks.py:113-135 | the old rank becomes the previous rank; the peak is the smaller of the old peak and the new rank, so it never grows; a None flair keeps the stored flair; score, comment count, upvote ratio, the stickied, over-18, spoiler and locked flags and the gildings are the fetched ones; identity, title, sentiment, domain and creation time are kept |
| Ingest.UpdateSubmission | web/aliendb/apps/analytics/tasks.py:101-149 | the submission table is not written; the returned object is the updated record; nothing at all changes when a fetch raised |
| Ingest.UpdateSubmissionWf | web/aliendb/apps/analytics/tasks.py:101-149 | updating a stored submission keeps the database consistent |
| Rollup.CommentsOf | web/aliendb/apps/analytics/tasks.py:244-245 | the comments of a submission are stored comments whose parent is that submission |
| Rollup.CommentsOfComplete | web/aliendb/apps/analytics/tasks.py:244-245 | every stored comment whose parent is the submission is among them |
| Rollup.CommentsOfOnce | web/aliendb/apps/analytics/tasks.py:244-245 | in a consistent database each of them is walked once: their ids are distinct and come from the comment order |
| Rollup.SumGildingsAppend | web/aliendb/apps/analytics/tasks.py:247-253 | the gilding sums are additive over concatenation |
| Rollup.CountTrueIsMultiplicity | web/aliendb/apps/analytics/tasks.py:250-253 | the role count is the number of `True` flags; unknown and `False` flags do not count |
| Rollup.RollupSubredditFacts | web/aliendb/apps/analytics/tasks.py:255-298 | rolling up a submission adds one tracked submission and its score and comment count, folds all ten averages with the same count n (taken before the increment), and leaves name, title, description and the comment statistics alone |
| Rollup.UpdateSubreddit | web/aliendb/apps/analytics/tasks.py:235-301 | only the submission's subreddit is written, and it is saved and returned as rolled up from the submission and its stored comments |
| Rollup.AppendCumulative | web/aliendb/apps/analytics/tasks.py:329-355 | each total series gains one sample, equal to the latest total plus this submission's value; when no TotalScore exists yet both latest values count as 0; nothing else changes |
| Rollup.ExitStep | web/aliendb/apps/analytics/tasks.py:425-433 | a listed submission changes nothing; an exiting one is stored with rank -1 and every other field as queried, and its subreddit is rolled up from it and its stored comments; only submission records, subreddit rows and the total series may change |
| Rollup.ExitIds | web/aliendb/apps/analytics/tasks.py:424-425 | the exiting ids are exactly the ids of queried submissions that are not listed |
| Rollup.ExitFoldRanks | web/aliendb/apps/analytics/tasks.py:424-433 | after the exit scan each exiting submission is stored with rank -1 and every other field as queried; all other submissions and all keys are unchanged |
| Rollup.ExitFoldSubreddit | web/aliendb/apps/analytics/tasks.py:424-433 | each subreddit's tracked submissions, score and comment count grow by exactly the count, scores and comment counts of its exiting submissions, so each exit is rolled up once |
| Rollup.ExitFoldTotals | web/aliendb/apps/analytics/tasks.py:424-433 | the total series gain one sample per exit, and the latest total score grows by the scores of all exits |
| Rollup.ExitFoldTouched | web/aliendb/apps/analytics/tasks.py:429-430 | `modified_subreddits` names each subreddit of an exiting submission exactly once, and no other |
| Rollup.ExitStepTouched | web/aliendb/apps/analytics/tasks.py:429-430 | one exit appends its subreddit's name only when the name is not yet listed |
| Rollup.ExitFoldNames | web/aliendb/apps/analytics/tasks.py:424-433 | the exit scan keeps every subreddit row keyed by its own name |
| Rollup.ExitFoldNoExits | web/aliendb/apps/analytics/tasks.py:424-433 | a scan in which every queried submission is listed changes nothing |
| Rollup.SubredditTrackers | web/aliendb/apps/analytics/tasks.py:358-375 | one score sample and one comment-count sample per touched subreddit, in order, each holding the subreddit's stored values at the end of the scan; the existing samples and all other tables are unchanged |
| Rollup.SubredditTrackersAsWritten | web/aliendb/apps/analytics/tasks.py:435-436 | one score sample and one comment-count sample per object held in `modified_subreddits`, in order, each holding that object's values; the existing samples and all other tables are unchanged |
| Rollup.StaleSubredditTracker | web/aliendb/apps/analytics/tasks.py:429-436 | with two exits from one subreddit (scores 10 and 20), the tracker as written records 10, while the stored score and the corrected tracker are 30 |
| Tick.MaterializeFacts | web/aliendb/apps/analytics/tasks.py:409-416 | one materialization adds the listed id to the stored table and changes no other stored record; an object is kept exactly when the comment tree was fetched, and it is the updated or created record |
| Tick.MaterializeWf | web/aliendb/apps/analytics/tasks.py:409-416 | one materialization keeps the database consistent |
| Tick.SubmissionTrackers | web/aliendb/apps/analytics/tasks.py:304-326 | one score, one comment-count and one upvote-ratio sample for the object, holding the values fetched from PRAW; nothing else changes |
| Tick.IngestStepFacts | web/aliendb/apps/analytics/tasks.py:402-419 | a RequestException skips the item (no object kept, the three submission series unchanged), but the stored table still gains a created submission; otherwise each series gains one sample of the fetched value |
| Tick.RawIdsOnly | web/aliendb/apps/analytics/tasks.py:422 | an id that no listed item has is not in `submission_ids` |
| Tick.IngestFoldWf | web/aliendb/apps/analytics/tasks.py:398-419 | the materialize loop keeps the database consistent, and every kept object is stored with a stored subreddit |
| Tick.IngestFoldKeys | web/aliendb/apps/analytics/tasks.py:398-419 | after the loop the stored submission ids are the old ones plus the listed ones |
| Tick.IngestFoldPendingIds | web/aliendb/apps/analytics/tasks.py:398-419 | every kept object is one of the listing |
| Tick.IngestFoldStored | web/aliendb/apps/analytics/tasks.py:398-419 | item i of the listing is stored as before, or as created at rank i + 1 |
| Tick.IngestFoldKept | web/aliendb/apps/analytics/tasks.py:398-419 | the last kept object for item i is its record at rank i + 1 exactly when its comment tree was fetched |
| Tick.SnapshotOf | web/aliendb/apps/analytics/tasks.py:424 | the query returns exactly the stored submissions with rank > 0 |
| Tick.SnapshotStored | web/aliendb/apps/analytics/tasks.py:424 | the queried submissions are distinct, stored as they are, and inside the window |
| Tick.ExitFoldWf | web/aliendb/apps/analytics/tasks.py:421-433 | the exit scan keeps the database consistent |
| Tick.FrontpageAverages | web/aliendb/apps/analytics/tasks.py:439-443 | one AverageScore and one AverageNumComments sample, each the listing's total divided by 100 as a true division |
| Tick.SaveAllFacts | web/aliendb/apps/analytics/tasks.py:446-447 | after the save loop each stored submission holds the last kept object for its id, or else its previous record |
| Tick.TickWf | web/aliendb/apps/analytics/tasks.py:379-451 | a tick keeps the database consistent; a failed fetch of the listing writes nothing |
| Tick.TickIntendedTrackers | web/aliendb/apps/analytics/tasks.py:429-436 | the corrected tick differs from the tick as written only in the subreddit series: both keep the earlier samples and record the touched subreddits in the same order, the corrected one with the values stored at the end of the tick, the one as written with those of the object held in `modified_subreddits` |
| Tick.TickKeys | web/aliendb/apps/analytics/tasks.py:379-451 | after a tick the stored submissions are the old ones plus the listed ones |
| Tick.ExitScanRetires | web/aliendb/apps/analytics/tasks.py:424-433 | a stored submission inside the window and missing from the listing gets rank -1 with every other field unchanged; any other submission is left alone |
| Tick.TickExits | web/aliendb/apps/analytics/tasks.py:421-447 | at the end of a tick an unlisted submission has rank -1 if it was inside the window, and is untouched otherwise |
| Tick.TickRanks | web/aliendb/apps/analytics/tasks.py:398-447 | with distinct listed ids, item i ends the tick with rank i + 1, as the updated or the created record, unless it was stored and its fetch raised, in which case it keeps its stored record |
| Tick.TickRollupOnce | web/aliendb/apps/analytics/tasks.py:385-386 | after a tick, an exit scan for the same listing finds nothing to retire, so each exit is rolled up once |
| Store.Store.CreateCommentObj | web/aliendb/apps/analytics/tasks.py:152-232 | the new state is `UpsertComment` of the old state |
| Store.Store.CreateCommentObjs | web/aliendb/apps/analytics/tasks.py:95-96 | the loop's new state is `UpsertComments` of the old state |
| Store.Store.CreateSubmissionObj | web/aliendb/apps/analytics/tasks.py:22-98 | the new state and the returned object are those of `CreateSubmission` |
| Store.Store.UpdateSubmissionObj | web/aliendb/apps/analytics/tasks.py:101-149 | the new state and the returned object are those of `UpdateSubmission` |
| Store.Store.CreateSubmissionTrackerObjs | web/aliendb/apps/analytics/tasks.py:304-326 | the new state is `SubmissionTrackers` of the old state |
| Store.Store.CommentStats | web/aliendb/apps/analytics/tasks.py:243-253 | the loop returns the gilding sums and the four role counts of the submission's stored comments |
| Store.Store.UpdateSubredditObj | web/aliendb/apps/analytics/tasks.py:235-301 | the new state and the returned subreddit are those of `UpdateSubreddit` |
| Store.Store.CreateCumulativeTrackerObjs | web/aliendb/apps/analytics/tasks.py:329-355 | the new state is `AppendCumulative` of the old state |
| Store.Store.CreateSubredditTrackerObjs | web/aliendb/apps/analytics/tasks.py:358-375 | exactly one score sample and one comment-count sample are appended, holding the given subreddit's values |
| Store.Store.MaterializeListing | web/aliendb/apps/analytics/tasks.py:398-419 | the loop's new state and `submission_objs` are those of `IngestFold`; the running sums are the listing's score and comment totals |
| Store.Store.MaterializeOne | web/aliendb/apps/analytics/tasks.py:409-419 | one pass of the materialize loop performs `IngestStep`: an existing id is updated, a new one created, and a RequestException skips the item |
| Store.Store.RetireOne | web/aliendb/apps/analytics/tasks.py:425-433 | one pass of the exit loop performs `ExitStep` |
| Store.Store.RetireExited | web/aliendb/apps/analytics/tasks.py:421-433 | the exit loop over the queried submissions performs `ExitFold` |
| Store.Store.TrackSubreddits | web/aliendb/apps/analytics/tasks.py:435-436 | the tracker loop over the objects held in `modified_subreddits` performs `SubredditTrackersAsWritten` |
| Store.Store.CreateAverageObjs | web/aliendb/apps/analytics/tasks.py:439-443 | the new state is `FrontpageAverages` of the old state |
| Store.Store.SaveSubmissionObjs | web/aliendb/apps/analytics/tasks.py:446-447 | the save loop performs `SaveAll` |
| Store.Store.GetTopSubmissions | web/aliendb/apps/analytics/tasks.py:379-451 | the tick keeps the store consistent, and its new state is `TickSpec` (the tick as written) of the old state |
| Views.DeltaShape | web/aliendb/apps/analytics/views.py:19-28 | the arrow points up exactly for a positive delta (the submission climbed), down exactly for a negative one, and is level exactly for zero |
| Views.DeltaColor | web/aliendb/apps/analytics/views.py:19-29 | green exactly for a positive delta, red exactly for a negative one, orange exactly for zero |
| Views.DeltaString | web/aliendb/apps/analytics/views.py:30 | the arrow followed by the decimal delta, which parses back to the delta and is written as `%d` writes it (no leading zero, no `-0`); a minus sign appears exactly after a down arrow |
| Views.DeltaStringInjective | web/aliendb/apps/analytics/views.py:30 | distinct deltas are shown as distinct strings |
| Views.SortBy | web/aliendb/apps/analytics/views.py:15 | `order_by` returns a permutation of the rows, ordered by the key |
| Views.HomeSubmissions | web/aliendb/apps/analytics/views.py:15 | the home listing is ordered by rank |
| Views.HomeListsWindow | web/aliendb/apps/analytics/views.py:15 | the home page lists exactly the stored submissions with rank > 0, each once |
| Views.AnnotateDeltas | web/aliendb/apps/analytics/views.py:18-30 | every row object gets the colour and the string of its own delta, `rank_previous - rank` |
| Views.Home | web/aliendb/apps/analytics/views.py:14-34 | one annotated row per listed submission, in rank order |
| Views.TimeWindow | web/aliendb/apps/analytics/views.py:126-138 | no filter exactly for an empty value or 'all'; 1, 7, 30 and 365 days for today, week, month and year; any other value admits only rows created at or after the current time |
| Views.WindowsNest | web/aliendb/apps/analytics/views.py:126-138 | a longer window admits everything a shorter one admits, and no filter admits everything |
| Views.TimeWindowsOrdered | web/aliendb/apps/analytics/views.py:126-138 | today ⊆ week ⊆ month ⊆ year ⊆ all; an unrecognised value admits exactly the rows created at or after the current time |
| Views.SearchFormOnlyForEmpty | web/aliendb/apps/analytics/views.py:99-101 | the bare search form is shown exactly for the empty query |
| Views.SearchStripsFirst | web/aliendb/apps/analytics/views.py:104 | a query whose stripped form is not empty is answered as its stripped form |
| Views.RedditLinkId | web/aliendb/apps/analytics/views.py:107-109 | a reddit.com link redirects to the text after its first '/comments/', up to the next '/' |
| Views.RedditLinkWithoutComments | web/aliendb/apps/analytics/views.py:107-109 | a reddit.com link without '/comments/' raises an IndexError |
| Views.ShortLinkId | web/aliendb/apps/analytics/views.py:110-112 | a redd.it link redirects to the text after its first '//redd.it/', up to the next '//redd.it/' |
| Views.ShortLinkWithoutSlash | web/aliendb/apps/analytics/views.py:110-112 | a link containing '//redd.it' but not '//redd.it/' raises an IndexError |
| Views.SearchLengthGate | web/aliendb/apps/analytics/views.py:113-156 | a query that is not a link is searched, with the time window, exactly when its stripped form is shorter than 300 characters |
| Views.SearchAsWritten | web/aliendb/apps/analytics/views.py:93-156 | the view as written agrees with the corrected view, except that every query the corrected view rejects as too long crashes |
| Views.LongQueryCrashes | web/aliendb/apps/analytics/views.py:114-156 | a query of 300 letters crashes the view as written, and the corrected view answers it as too long |
| Strings.StripInfix | web/aliendb/apps/analytics/views.py:104 | the stripped query is an infix of the query with only whitespace before and after it |
| Strings.IntToStringCanonical | web/aliendb/apps/analytics/views.py:30 | `%d` writes an optional minus sign and digits with no leading zero, and never `-0` |
| Strings.StripIdempotent | web/aliendb/apps/analytics/views.py:104 | stripping twice is the same as stripping once |
| Strings.SplitJoin | web/aliendb/apps/analytics/views.py:108 | joining the pieces of a split with the separator gives back the string |
| Strings.IntToStringRoundTrip | web/aliendb/apps/analytics/views.py:30 | the `%d` rendering of an integer parses back to it |

## Left out

- Network access (PRAW, prawcore), Celery scheduling, the Redis client and the page cache. A
  listing or comment fetch is a `Fetch` value. `cache.delete` (tasks.py:449-450) changes no
  modelled state and is left out.
- `update_average` (helpers.py is not part of this model) is the parameter `upd`. TextBlob
  sentiment, word and sentence counts are given inputs. `datetime` conversions of
  `created_utc` are left out; the raw integer is kept.
- Python floats are modelled as `real`, with no rounding. `frontpage_score/100` is a true
  division.
- Django `models.py` is not part of this model. Field defaults (zero counters and averages
  for a new subreddit) follow the create calls in tasks.py, and `timestamp` ordering is the
  order of appends to a series.
- Tick.TickSpec requires a consistent database (`Wf`). This rules out a stored comment or
  submission whose parent row is missing, and a TotalNumComments table without a latest row
  while TotalScore has one (tasks.py:343). That case raises DoesNotExist, which is not
  caught.
- `Submission.objects.filter(...)` without `order_by` returns rows in insertion order. Ties
  in `order_by('rank')` keep insertion order (a stable sort). The database does not promise
  either order.
- Views.Home: the rendered template is left out. The result is the annotated row objects.
- Views.Search: the title query (`title__icontains`), the `order_by` and `subreddits`
  filters, and the rendering are left out. The result is the query and the time window
  that the results would be filtered by.
- Views.Search: the redirect target is the extracted id. The URL formatting is left out.
- Views.ShortLinkId: the id is the second piece of `split('//redd.it/')`. The code keeps
  everything after the marker, up to a second marker if there is one. A link containing only
  '//redd.it' without the slash raises IndexError, which the model answers as `ServerError`.
- The `api`, `about`, `submission` and `subreddit` views are outside this model.
- Ingest.WithSubreddit: reading `submission.subreddit.title` and `public_description`
  (tasks.py:41-43) is a lazy PRAW fetch. It is modelled as a value that is always available.
  In the program that fetch can raise a RequestException after `Subreddit.objects.create` at
  tasks.py:40. The loop catches it at tasks.py:417. The new subreddit row then keeps its
  default empty title and description for good, because the next tick's `get` finds it, and
  the new submission is never saved. `CreateSubmission`, `CreateSubmissionFields` and
  `TickRanks` do not cover that path.
- Records.Fetch: only `prawcore.exceptions.RequestException`, the one exception tasks.py
  catches (tasks.py:393, 417), is modelled. An HTTP-status error (`ResponseException`: server
  error, rate limit, forbidden, not found) from a per-item fetch escapes `get_top_submissions`.
  What earlier items wrote stays: created submissions, comment folds, subreddit comment
  statistics and trackers. The exit scan, the subreddit trackers, the averages and the final
  save loop (tasks.py:421-447) do not run, so the updated records of earlier items are lost.
  The model has no such abort.
- Records.RawSubmission: one snapshot per listed submission. In PRAW the first
  `submission.comments` access fetches the submission page and refreshes the object's
  attributes in place. So the trackers (tasks.py:416) and the `num_comments > 500` tests
  (tasks.py:87, 138) read the refreshed values, while `frontpage_score` (tasks.py:406) and a
  created record (tasks.py:58-80) read the listing's values. The model gives both the same
  value.
- Tick.TickRollupOnce: proves that one exit is rolled up once, not that a submission is
  tallied once in its lifetime, which tasks.py:332-333 and 385-386 intend. A retired submission
  (rank -1) that is listed again gets a positive rank (tasks.py:114-115, `TickRanks`). The next
  tick that does not list it selects it again through `rank__gt=0` (tasks.py:424). It is then
  added to the cumulative totals and to its subreddit a second time (`ExitFoldTotals`,
  `ExitFoldSubreddit`). The model does this as the program does, and no corrected version is
  given.
- `hasattr(submission, 'author')` and the `author is None` checks both become an `Option`.
  `hasattr(comment, 'body')` becomes `body: Option<string>`.
- The `Submission.objects.filter(id=...)` test of the materialize loop is a key lookup. A
  stored submission whose subreddit row is missing is ruled out by `Wf`.

## Findings

| source | as written | input that shows it | evidently intended | confidence | as-written member | corrected member |
|---|---|---|---|---|---|---|
| web/aliendb/apps/analytics/tasks.py:429-436 | `subreddit not in modified_subreddits` compares model instances by primary key, so the list keeps the object returned by the subreddit's first exit. The trackers then record that object's score and comment count. | Two submissions of subreddit "pics", scoring 10 and 20, leave the window in one tick. The stored score becomes 30, but the SubredditScore sample records 10 (Rollup.StaleSubredditTracker). | Each tracker records the subreddit's values after all of the tick's exits. | medium, not executed | Rollup.SubredditTrackersAsWritten | Tick.TickIntendedTrackers |
| web/aliendb/apps/analytics/views.py:114-156 | For a stripped query of 300 or more characters that is not a link, `submissions` is never bound, and the `render` call raises UnboundLocalError. | A query of 300 'a' characters. | Reject the over-long query with an answer instead of crashing. | high, not executed | Views.LongQueryCrashes | Views.SearchLengthGate |
