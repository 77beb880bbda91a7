# Post Status Updater: the bulk status transition, in Dafny

The Post Status Updater WordPress plugin adds an admin page. On that page an
editor pastes a list of post URLs, names the status the posts are expected to
have (for example "draft"), and names the status to move them to (for example
"publish"). The handler `psu_process_form` works in three stages:

1. It checks the nonce, then checks that the trimmed URL text and both
   sanitized status fields are non-empty.
2. It splits the text at line feeds and trims every line. If the validator
   rejects any line, the whole batch is refused before any post is looked up.
3. It visits the URLs in order:
   - A URL that resolves to no post, a post that cannot be loaded, and a post
     in another status are each reported and skipped.
   - A matching post is written with the new status and then re-read.
   - A write that fails, or a re-read that does not show the new status,
     stops the whole batch.

This project models that handler in three modules.

- `PhpStrings` (`php_strings.dfy`) holds the PHP string built-ins the handler
  uses: `trim()` with its default character list, `explode("\n", …)` and its
  inverse `implode`, and `empty()` on a string, which is true for `""` and
  `"0"`.
- `PostStatusUpdater` (`post_status_updater.dfy`) holds the handler.
  - The WordPress functions it calls are the fields of a `Host` value:
    - `filter_var(…, FILTER_VALIDATE_URL)`, as a predicate on URLs;
    - `url_to_postid`, where 0 means that no post matched;
    - `sanitize_text_field`;
    - the outcome of `wp_update_post`, which is `Rejected` or `Stored(status)`.
  - The content store is the class `PostStore`. Its field `status` maps each
    post ID that `get_post` can load to that post's `post_status`. A ghost
    `log` records every lookup, read and write in order, so statements such
    as "no post was looked up" and "only this post was written" can be made.
  - The behaviour is given first as functions:
    - `Admit`: the gate on the form;
    - `ProcessUrl`: one iteration of the loop;
    - `ProcessUrls`: the whole loop;
    - `HandleSubmission`: everything the handler does.
  - The imperative handler `PostStore.ProcessForm` is proved to do exactly
    what `HandleSubmission` says:
    - the notices it emits, in order;
    - the final store;
    - the calls it makes.
    Its processing loop is the `while` loop of `PostStore.ProcessUrlList`.
- `BatchProperties` (`batch_properties.dfy`) proves properties of whole
  batches:
  - a refused submission touches nothing;
  - writes happen only after a matching read;
  - a post that was not written keeps its status;
  - a fully successful batch leaves every named post in the new status;
  - when the expected status differs from the new one, a second run of that
    batch reports a mismatch for every URL;
  - a worked two-URL example.

## Model

| member | source | states |
|---|---|---|
| PhpStrings.Trim | post-status-updater.php:85 | trim() never lengthens its argument |
| PhpStrings.TrimSlice | post-status-updater.php:85 | what trim() leaves is a contiguous slice of the input, and everything cut from either end is whitespace or NUL |
| PhpStrings.TrimEnds | post-status-updater.php:85 | a non-empty result of trim() starts and ends with a character trim() keeps |
| PhpStrings.TrimBlank | post-status-updater.php:95 | trim() gives "" exactly when the input consists only of characters it strips (both directions) |
| PhpStrings.TrimIdempotent | post-status-updater.php:85 | trimming a trimmed string changes nothing |
| PhpStrings.TrimUnpadded | post-status-updater.php:95 | a string that starts and ends with a kept character is left unchanged |
| PhpStrings.Explode | post-status-updater.php:95 | explode("\n") gives at least one piece, and no piece contains a line feed |
| PhpStrings.ExplodeCount | post-status-updater.php:95 | explode("\n") gives exactly one more piece than the text has line feeds |
| PhpStrings.ImplodeExplode | post-status-updater.php:95 | joining the pieces with line feeds gives back the original text |
| PhpStrings.ExplodePrefix | post-status-updater.php:95 | a prefix without a line feed becomes part of the first piece |
| PhpStrings.ExplodeImplode | post-status-updater.php:95 | splitting a line-feed join of line-feed-free pieces gives back the pieces |
| PostStatusUpdater.ParseUrls | post-status-updater.php:95 | the URL list has one entry per line of the text, in order; entry i is line i trimmed |
| PostStatusUpdater.FirstInvalid | post-status-updater.php:96-101 | there is no result exactly when every URL validates; otherwise the result is the position of the first URL the validator rejects |
| PostStatusUpdater.FindInvalidUrl | post-status-updater.php:96-101 | the validation loop returns the first rejected URL's position, or nothing when every URL validates |
| PostStatusUpdater.Admit | post-status-updater.php:79-101 | a batch proceeds exactly when the nonce verifies, the trimmed URL text and both sanitized statuses are non-empty in PHP's sense, and every parsed URL validates. It then carries those URLs and statuses. A bad nonce is refused with the security notice. With the nonce verified, the refusal is "all fields are required" exactly when a field is empty; any other refusal names the first invalid URL. |
| PhpStrings.PhpEmpty | post-status-updater.php:89 | empty() on a string is true exactly for strings of at most one character, that character being '0' |
| PostStatusUpdater.UrlText | post-status-updater.php:85 | the URL text used is trim() of the posted text, or "" when the field was not posted; it has no padding at either end |
| PostStatusUpdater.StatusField | post-status-updater.php:86-87 | a posted status field is passed through sanitize_text_field; one that was not posted is "", which counts as empty |
| PostStatusUpdater.Lookup | post-status-updater.php:112 | get_post loads a post exactly when its ID is in the store, and shows that post's stored status |
| PostStatusUpdater.UpdatePostStatus | post-status-updater.php:125-133 | a write succeeds exactly when the post exists and wp_update_post stores a status; it then gives the post the status wp_update_post stored, keeps the set of posts, and leaves every other post unchanged |
| PostStatusUpdater.ProcessUrl | post-status-updater.php:104-142 | one iteration reports once, on its own URL, after exactly one lookup of that URL. It writes the URL's post exactly when the post loads in the expected status, and only with the new status, right after that read. Only that post can change, and nothing changes without a write. A mismatch reports the post's actual status. "Updated" is reported only when the post now has the new status. Which outcome each cause produces is StepOutcome. |
| PostStatusUpdater.StepOutcome | post-status-updater.php:105-142 | each outcome holds exactly for its cause: "not found" exactly when the URL resolves to 0, "failed to retrieve" exactly when the ID does not load, a mismatch exactly when the post is in another status, "failed to update" exactly when the matching post's write is rejected, "verification failed" exactly when it stores another status, "updated" exactly when it stores the new status; the batch-stopping outcomes are exactly the writes that did not leave the new status |
| PostStatusUpdater.NotFoundStep | post-status-updater.php:105-110 | the "not found" step taken for a URL that resolves to 0 (one lookup, no write, store unchanged) meets every promise of ProcessUrl |
| PostStatusUpdater.RetrieveFailedStep | post-status-updater.php:112-116 | the "failed to retrieve" step taken for an ID that does not load (a lookup and an empty read, no write, store unchanged) meets every promise of ProcessUrl |
| PostStatusUpdater.MismatchStep | post-status-updater.php:118-122 | the mismatch step taken for a post in another status, carrying that status, with no write and the store unchanged, meets every promise of ProcessUrl |
| PostStatusUpdater.UpdateFailedStep | post-status-updater.php:124-133 | the "failed to update" step taken for a rejected write of a matching post, with the store unchanged and only that post written, meets every promise of ProcessUrl |
| PostStatusUpdater.WrittenStep | post-status-updater.php:135-142 | the step taken after a stored write, whose re-read gives "verification failed" or "updated" and in which only the URL's own post changed, meets every promise of ProcessUrl |
| PostStatusUpdater.ProcessUrls | post-status-updater.php:104-143 | the loop gives one notice per URL in list order, and no notice but the last is fatal. It stops early only right after a fatal outcome. It looks up exactly the URLs it reported on, in order, and it never creates or deletes a post. |
| PostStatusUpdater.ConsStep | post-status-updater.php:104-143 | a non-fatal step followed by a run over the remaining URLs is a run over all the URLs |
| PostStatusUpdater.FatalStep | post-status-updater.php:130-140 | a fatal step ends the run after its own URL |
| PostStatusUpdater.UnfoldRun | post-status-updater.php:104-143 | the run from position i is the step for URL i, followed by the run from i + 1 unless that step was fatal |
| PostStatusUpdater.HandleSubmission | post-status-updater.php:77-143 | handling a submission never creates or deletes a post |
| PostStatusUpdater.PostStore.constructor | post-status-updater.php:112 | the store starts with the given statuses and an empty call log |
| PostStatusUpdater.PostStore.UrlToPostId | post-status-updater.php:105 | the lookup returns the resolver's ID and logs the lookup |
| PostStatusUpdater.PostStore.GetPost | post-status-updater.php:112 | the read returns the stored status, or nothing for an unknown ID, and logs what it saw |
| PostStatusUpdater.PostStore.UpdatePost | post-status-updater.php:125-133 | the write succeeds exactly when UpdatePostStatus does, stores exactly its result (or nothing on failure), and logs the write |
| PostStatusUpdater.PostStore.VisitUrl | post-status-updater.php:105-142 | the imperative loop body emits ProcessUrl's notice, leaves ProcessUrl's store, and appends exactly ProcessUrl's calls to the log |
| PostStatusUpdater.PostStore.ProcessUrlList | post-status-updater.php:104-143 | the while loop with continue and early return emits exactly ProcessUrls' notices, leaves its store, and logs its calls |
| PostStatusUpdater.PostStore.ProcessForm | post-status-updater.php:77-143 | the handler emits exactly HandleSubmission's notices, leaves its store, and logs its calls |
| PostStatusUpdater.ResolvedAppend | post-status-updater.php:104-105 | the URLs looked up by two call sequences in a row are those of the first, then those of the second |
| PostStatusUpdater.WrittenIdsAppend | post-status-updater.php:125-128 | the posts written by two call sequences in a row are the union of each sequence's posts |
| PostStatusUpdater.GuardedWritesAppend | post-status-updater.php:119-128 | joining two call sequences in which every write follows a matching read keeps that property |
| BatchProperties.RefusedSubmissionTouchesNothing | post-status-updater.php:79-101 | a bad nonce, an empty field or any invalid URL gives exactly one error notice, no lookup, read or write, and an unchanged store |
| BatchProperties.BlankLineRefusesBatch | post-status-updater.php:95-101 | a blank line in the URL text refuses the whole batch before any post is touched, when the validator rejects "" |
| BatchProperties.UnconfirmedWriteHaltsBatch | post-status-updater.php:124-140 | when the first URL's post matches but its write is rejected or stores another status, the batch ends there: one "failed to update" or "verification failed" notice, no later URL looked up, and after a rejection the store is unchanged |
| BatchProperties.SkippedUrlContinues | post-status-updater.php:105-122 | a URL that names no post, a post that does not load, or a post in another status gives a non-fatal notice, changes nothing, and the batch continues with the next URL from the same store |
| BatchProperties.WritesFollowMatchingReads | post-status-updater.php:119-128 | every write of a batch sets the new status and directly follows a read of the same post that saw the expected status |
| BatchProperties.WritesOnlyResolvedPosts | post-status-updater.php:104-128 | every post written is one that a URL reported on resolved to |
| BatchProperties.UnwrittenPostsUnchanged | post-status-updater.php:125-128 | every post that no call wrote keeps its status |
| BatchProperties.UpdatedRunKeepsTarget | post-status-updater.php:135-142 | a post already in the new status keeps it through a run in which every outcome is "updated" |
| BatchProperties.SuccessfulBatchReachesTarget | post-status-updater.php:104-142 | when every URL reports "updated", every post the URLs resolve to ends in the new status |
| BatchProperties.MatchingStep | post-status-updater.php:119-142 | a URL whose post is in the expected status, and whose write stores the new status, reports "updated", and only that post changes, to the new status |
| BatchProperties.MatchingBatchAllUpdated | post-status-updater.php:104-142 | when the URLs name distinct posts, all in the expected status, and every write stores the new status, every URL reports "updated" |
| BatchProperties.AtTargetStep | post-status-updater.php:119-122 | a post already in the new status (which differs from the expected one) reports a mismatch with the new status and is not written |
| BatchProperties.AtTargetRunMismatches | post-status-updater.php:119-122 | a run over posts already in the new status reports a mismatch for every URL, writes nothing and changes nothing |
| BatchProperties.RerunReportsMismatch | post-status-updater.php:104-142 | when the expected status differs from the new one, running a fully successful batch again reports a mismatch with the new status for every URL and leaves the store as the first run left it |
| BatchProperties.TrimFinalLineFeed | post-status-updater.php:85 | trim() removes the final line feed after an unpadded last line |
| BatchProperties.TwoLinesExplode | post-status-updater.php:95 | two line-feed-free lines joined by a line feed split back into those two lines |
| BatchProperties.ParseTwoLines | post-status-updater.php:95 | a text that splits into two lines parses into the two trimmed lines |
| BatchProperties.TwoLineTextParses | post-status-updater.php:85-95 | two unpadded lines, each followed by a line feed, trim and parse into exactly those two URLs |
| BatchProperties.ExampleUrlsUnpadded | post-status-updater.php:95 | the example URLs are distinct single lines without padding |
| BatchProperties.ExampleAdmitted | post-status-updater.php:79-101 | the example form passes the gate with its two URLs, "draft" and "publish" |
| BatchProperties.ExampleSteps | post-status-updater.php:104-142 | in the example, the draft behind the first URL is published and confirmed, and the second URL, whose post is already published, reports a mismatch with "publish" and changes nothing |
| BatchProperties.ExampleSecondUrl | post-status-updater.php:118-122 | in the example, the already-published second post reports a mismatch with "publish" |
| BatchProperties.ExampleRun | post-status-updater.php:104-143 | in the example, the loop reports "updated" and then a mismatch, and both posts end up published |
| BatchProperties.TwoUrlExample | post-status-updater.php:77-143 | the whole example: a draft and a published post moved from "draft" to "publish". The first URL is updated, the second reports a mismatch with "publish", and both posts end up published. |

## Left out

- Admin menu registration (post-status-updater.php:15-25) and the HTML form
  (post-status-updater.php:28-74) are WordPress glue and presentation. The
  messages are modelled as the `Notice` datatype, not as echoed and escaped
  HTML.
- The nonce check is reduced to a boolean in `Form`: "psu_nonce was posted
  and `wp_verify_nonce` accepted it". WordPress's nonce internals are not
  part of this model.
- `filter_var`, `url_to_postid` and `sanitize_text_field` are abstract
  functions of their input (fields of `Host`). Their internals are not part
  of this model, and neither is any fallback resolution strategy (custom
  permalinks, redirects, slug queries), which the handler does not have.
- `wp_update_post` is a fixed function of the post ID and the new status.
  It either fails and changes nothing, or stores a status that hooks may
  make differ from the one asked for. Side effects on other fields or other
  posts are not modelled.
- `get_post` is reduced to the status of the post it loads. The other
  fields of a post are not modelled.
- Concurrency is not modelled: the model is sequential. In particular, it
  does not cover another request changing a post between the status check
  (post-status-updater.php:119) and the write (post-status-updater.php:125).
- Statuses are plain strings, as in the code. The five values offered by the
  form's `<select>` (post-status-updater.php:43-47, 54-58) are not enforced
  on the server side, and the model does not enforce them either.
- Behaviour of the code that the model keeps as written:
  - A failed `get_post` is reported as its own non-fatal outcome.
  - The nonce is checked before the fields.
  - `"0"` counts as an empty field, as PHP's `empty()` has it.
  - A re-read that loads no post would count as a verification failure
    (reading a property of null gives null, which differs from the new
    status). In the model this branch is never taken: a stored write keeps
    the post in the store, so the re-read always loads it.
- BatchProperties.RerunReportsMismatch: relies on `url_to_postid` being a
  fixed function of the URL (`Host.urlToPostId`). In WordPress it reads the
  same content store that the loop writes, so a status change can change
  what a URL resolves to (a post moved to the trash gets a new slug, and its
  permalink stops resolving). The model assumes resolution does not depend
  on the store.
- Strings are sequences of Unicode characters, while PHP strings are
  bytes. Nothing depends on the difference here: the characters trim()
  strips and the line feed explode() splits at are all ASCII.
- PostStatusUpdater.HandleSubmission: states only that the set of posts is
  kept. What it does with each submission is stated by `Admit`,
  `ProcessUrls` and the `BatchProperties` lemmas, and its imperative
  counterpart `PostStore.ProcessForm` is proved equal to it.
