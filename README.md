# Instagram auto-posting scheduler, modelled in Dafny

This project models the core of a small Node.js service. The service stores
Instagram accounts and a queue of media posts. On a cron schedule it publishes
each account's oldest pending post through the Instagram Graph API.

The heart of the model is `processNextPostForAccount`, modelled as the class
`Scheduler.Store`. It holds the post queue, the upload logs and the current
cron run. One call does the following, in order:

- picks the account's oldest pending post;
- opens a provisional `skipped` log;
- downloads the media with yt-dlp, converts videos with ffmpeg, and copies the
  file to `public/uploads`;
- re-resolves the account and checks its credentials;
- creates the media container, waits for it to be ready, and publishes it;
- marks the post `posted`, closes the log, and bumps the run counters;
- removes every file it made, whatever the outcome.

Every step outside the store is a field of an `Env` value. These are the tool
runs, the directory listing, the clock and random bytes, the copy, the account
lookup and the three Graph API calls. Each either succeeds with a value or
fails with a message. The disk is a `FileSystem.Disk` object whose set of files
the methods grow and shrink.

Around the pipeline the project models:

- the Graph API client's requests, failure messages and readiness loop
  (`Instagram`);
- the stored-file naming and public URL (`Storage`);
- the newest-file choice and the converted path (`Downloader`);
- the `POST_SCHEDULE_CRONS` override (`Scheduler.ScheduleTimes`);
- pagination and page counts (`Admin`, `PostsController`);
- the dashboard's per-account `$group`/`$sort` as a fold over posts (`Admin`);
- the Joi request schemas (`Validations`).

The JavaScript built-ins these depend on are in `Js`: `trim`, `split`,
`parseInt`, number rendering, hex, `encodeURIComponent` and `Math.ceil` of a
quotient.

Modules: `Wrappers` (Option, Result), `Js`, `FileSystem`, `Models`, `Instagram`,
`Storage`, `Downloader`, `Scheduler`, `Admin`, `PostsController`, `Validations`.

Where an operation changes state, a method is proved equal to a specification
function. The properties are then proved about that function:

- `Scheduler.Store.ProcessNextPostForAccount` is `Scheduler.Step` and `Scheduler.FilesAfter`;
- `Scheduler.TryPublish` is `Scheduler.RunAttempt`;
- `Instagram.WaitForContainerReady` is `Instagram.WaitFrom`.

## Model

| member | source | states |
|---|---|---|
| Scheduler.Store.ProcessNextPostForAccount | services/scheduler.js:26-150 | the returned outcome and the new posts, logs and run equal `Step` of the old store; the disk afterwards is the old files plus what the attempt created, minus what the finally block removed; the balance images + videos = success + failed is kept |
| Scheduler.Store.Settle | services/scheduler.js:109-127 | on success the chosen post becomes posted, its log success with endedAt, and success plus the post's type counter move; on failure only the log changes (failed, reason, endedAt) and failed plus the type counter move; the balance is kept |
| Scheduler.Store.constructor | models/CronRun.js:8-14 | a new cron run starts with all five counters at 0, which satisfies the balance |
| Scheduler.TryPublish | services/scheduler.js:56-107 | the attempt equals `RunAttempt`; the disk gains exactly the listed downloads (after a clean yt-dlp exit), the converted file and the stored copy that were made |
| Scheduler.Cleanup | services/scheduler.js:144-149 | removes exactly the downloaded, converted and stored files the attempt recorded; absent ones are skipped |
| Scheduler.OldestPending | services/scheduler.js:28 | none exactly when the account has no pending post; otherwise a pending post of the account with the least createdAt, the first stored among equal ones |
| Scheduler.Converted | services/scheduler.js:62-71 | a converted file exists exactly for a video whose ffmpeg run exited cleanly |
| Scheduler.Reason | services/scheduler.js:136 | the error reason is never empty; it is the message when the message is non-empty, and 'unknown-error' when it is empty |
| Scheduler.Step | services/scheduler.js:26-150 | the state change of one call, specifying `Scheduler.Store.ProcessNextPostForAccount`; its properties are stated by NoPendingPost, AttemptLog, LogCronLink, PostedOnlyOnSuccess, CountersMove, TypeCounter and StepKeepsBalance |
| Scheduler.Store.OpenAttemptLog | services/scheduler.js:47-55 | before anything is downloaded, one log is appended at the end: skipped, for the post and its type, with the cron link and startedAt, and no endedAt or reason; posts and run are unchanged |
| Scheduler.OpenLogIsProvisional | services/scheduler.js:47-55 | the opened log is provisional; closing it keeps its account, post, type, cron link and startedAt, sets endedAt, and is success exactly when there is no failure |
| Scheduler.NoPendingPost | services/scheduler.js:28-42 | with no pending post the result is NothingPending, exactly one log is appended (skipped, post null, reason 'no-pending-post', the account, an endedAt), and posts and run are unchanged |
| Scheduler.AttemptLog | services/scheduler.js:47-55 | with a pending post exactly one log is appended, for that post and its type, with startedAt and endedAt; it is success exactly when the post is reported published, else failed with the message or 'unknown-error' |
| Scheduler.LogCronLink | services/scheduler.js:39 | the new log carries the cron run's id exactly when the call has a cron context |
| Scheduler.PostedOnlyOnSuccess | services/scheduler.js:109-111 | the chosen post becomes posted exactly when the whole attempt succeeded; on failure the posts are unchanged and the result is an error; other posts never change |
| Scheduler.CountersMove | services/scheduler.js:119-126 | counters move only with a cron context and a pending post: success or failed by one, images + videos by one; id, cronExp, times and totalAccountsTried unchanged |
| Scheduler.TypeCounter | services/scheduler.js:124 | the type counter that moves is the chosen post's: videos for a video, images otherwise |
| Scheduler.StepKeepsBalance | services/scheduler.js:140-142 | images + videos = success + failed is preserved by every call |
| Scheduler.RemoteSteps | services/scheduler.js:78-107 | the account check and the three Graph API steps; its properties are stated by AccountCheckedBeforeCreate and RemoteSucceedsIff |
| Scheduler.AccountCheckedBeforeCreate | services/scheduler.js:78-93 | a missing account or missing credentials fail with their message and no container request is sent; a request is sent exactly when the account exists with both credentials |
| Scheduler.RemoteSucceedsIff | services/scheduler.js:95-107 | the remote part succeeds exactly when the account checks out and create, wait-ready and publish all succeed |
| Scheduler.RunAttempt | services/scheduler.js:56-107 | the pipeline download, convert, store, account check, create, wait, publish; its properties are stated by AttemptSucceedsIff, ConversionFallback and CleanupCoversEveryPath |
| Scheduler.AttemptSucceedsIff | services/scheduler.js:56-107 | the attempt succeeds exactly when the download, the stored copy and the remote steps all succeed |
| Scheduler.ConversionFallback | services/scheduler.js:62-73 | images are never converted; a failed conversion leaves no converted file and the downloaded file is stored; the stored copy carries the base name of the file that was stored |
| Scheduler.CleanupCoversEveryPath | services/scheduler.js:144-149 | the downloaded, converted and stored files are gone afterwards; only files the attempt added are removed; every other file is kept |
| Scheduler.NoPendingKeepsDisk | services/scheduler.js:29-42 | with no pending post the disk is untouched |
| Scheduler.CleanParts | services/scheduler.js:175 | the parts kept are no more than the parts split, each non-empty with no whitespace at either end |
| Scheduler.CleanPartsCons | services/scheduler.js:175 | a leading part is kept trimmed when it is not blank and dropped when it is, and the rest is cleaned alike |
| Scheduler.CleanPartsUncons | services/scheduler.js:175 | a non-empty list, alone or followed by more parts, is cleaned starting from its first part |
| Scheduler.CleanPartsConcat | services/scheduler.js:175 | cleaning works part by part: cleaning a concatenation concatenates the cleaned sides, so the kept parts are the trimmed non-blank ones, in order |
| Scheduler.CleanPartsEmpty | services/scheduler.js:175-176 | nothing survives the filter exactly when every part is blank |
| Scheduler.TrimmedPartIsClean | services/scheduler.js:175 | a part that is not blank trims to a clean part |
| Scheduler.CleanPartsOfClean | services/scheduler.js:175 | already-clean parts pass the trim and filter unchanged |
| Scheduler.ScheduleTimes | services/scheduler.js:171-184 | at least one expression is registered, and every one is non-empty and trimmed |
| Scheduler.ScheduleFallback | services/scheduler.js:173-183 | an unset or empty override, or one with only blank parts, gives the five defaults; otherwise the cleaned parts |
| Scheduler.ScheduleRoundTrip | services/scheduler.js:173-179 | clean, comma-free expressions (stated part by part) joined with ',' are parsed back to themselves |
| Scheduler.JoinedParts | services/scheduler.js:175 | the join of clean, comma-free parts is non-empty, splits back into the parts, and passes the filter unchanged |
| Scheduler.ScheduleOfParts | services/scheduler.js:174-179 | a non-empty override whose parts survive cleaning unchanged is registered as those parts |
| Scheduler.JoinStartsWith | services/scheduler.js:175 | a comma-joined list starts with its first part |
| Scheduler.AllCleanAt | services/scheduler.js:175 | the part-by-part cleanliness predicate gives cleanliness at every index |
| Scheduler.NoCommaAt | services/scheduler.js:175 | the part-by-part comma-free predicate gives comma-freedom at every index |
| Instagram.WaitForContainerReady | services/instagram.js:77-86 | the result and poll count equal `WaitFrom` from the first check; every poll happens before the timeout, every poll but the last asked to keep waiting, no budget means no poll and the timeout error, and with an interval in the timer range there are at most ceil(timeoutMs / intervalMs) polls |
| Instagram.WaitFrom | services/instagram.js:77-86 | the polling loop from a given poll on, specifying `Instagram.WaitForContainerReady`; its properties are stated by WaitOutcome, WaitStep, WaitPolls and WaitPollBound |
| Instagram.WaitOutcome | services/instagram.js:79-85 | a ready result is the last status read; the processing error means the last status was ERROR; the timeout error means time ran out after a poll that asked to keep waiting, or before any poll |
| Instagram.WaitStep | services/instagram.js:80-83 | one check before the timeout: a status error, a ready status or ERROR ends the wait with that result, and any other status leaves it to the next check |
| Instagram.WaitPolls | services/instagram.js:79-84 | from any check on, every poll is before the timeout and every poll but the last asked to keep waiting |
| Instagram.WaitPollBound | services/instagram.js:77-84 | with an interval in the timer range and a positive timeout, the loop polls at most ceil(timeoutMs / intervalMs) times |
| Instagram.PollBeforeTimeoutBound | services/instagram.js:79-83 | the n-th poll can happen before the timeout only if n + 1 <= ceil(timeoutMs / intervalMs) |
| Instagram.PollCountBound | services/instagram.js:79-83 | k sleeps of intervalMs that fit within the timeout leave room for at most ceil(timeoutMs / intervalMs) polls |
| Instagram.ElapsedAtLeast | services/instagram.js:83 | after n retries at least n sleeps have elapsed |
| Instagram.Elapsed | services/instagram.js:79-83 | the clock at the n-th check is at least the start plus n: each retry advances it |
| Instagram.SleepMs | services/instagram.js:83 | a sleep lasts at least 1 ms, and exactly intervalMs when that is a valid timer delay |
| Instagram.StatusRequest | services/instagram.js:59-63 | the status call's endpoint, headers and fields parameter; used and stated by GetContainerStatus |
| Instagram.GetContainerStatus | services/instagram.js:58-72 | a missing or empty status_code reads as 'UNKNOWN', any other is passed on; a failed call gives the status-check failure message; a status is never empty |
| Instagram.CreateMediaContainer | services/instagram.js:12-32 | succeeds exactly when the POST to <user>/media succeeds, with its id; otherwise fails with the create failure message of that reply |
| Instagram.CreateRequest | services/instagram.js:13-24 | the create call's endpoint, headers and payload; stated by CreatePayloadFields |
| Instagram.CreatePayloadFields | services/instagram.js:18-21 | a video sends video_url and media_type REELS, an image image_url and no media_type, and both send the caption ('' when none) |
| Instagram.PublishContainer | services/instagram.js:37-53 | succeeds exactly when the POST to <user>/media_publish succeeds; otherwise fails with the publish failure message |
| Instagram.PublishRequest | services/instagram.js:38-45 | the publish call's endpoint, headers and payload; stated by PublishRequestShape |
| Instagram.PublishRequestShape | services/instagram.js:38-43 | publishing POSTs exactly {creation_id} to .../<user>/media_publish with the bearer token |
| Instagram.FailureMessage | services/instagram.js:29 | every failure message starts with its call's prefix |
| Instagram.FailureMessageStatus | services/instagram.js:27-30 | with a response status the prefix is followed by ' (status ' and the code, which parseInt reads back; without one the message is prefix + ': ' + the body or the transport message |
| Instagram.FailureMessagesIdentifyCall | services/instagram.js:29-69 | a create, publish or status-check failure message never equals one from another call |
| Instagram.StatusErrorIsDistinct | services/instagram.js:69-85 | a status-check failure never reads as the loop's own processing or timeout error |
| Storage.BaseUrl | services/storage.js:7-10 | the configured base is returned, or it with exactly one trailing '/' removed, and that happens exactly when it ends in '/' |
| Storage.BaseUrlDefault | services/storage.js:8 | without BASE_URL, and when PORT is unset, empty or does not end in '/', the base is http://localhost: followed by PORT, or 3000 |
| Storage.StoredName | services/storage.js:17-19 | the stored name always ends with the source's base name |
| Storage.OriginalNameOfStoredName | services/storage.js:18-19 | neither the timestamp nor the 12 hex digits hold a '-', so the original name is what follows the second '-' |
| Storage.AfterFirst | services/storage.js:19 | finds nothing exactly when the character is absent; otherwise a proper suffix of the text |
| Storage.Destination | services/storage.js:5-20 | the destination lies directly in <cwd>/public/uploads under the stored name |
| Storage.PublicUrl | services/storage.js:22 | the URL starts with the base URL followed by '/public/uploads/' |
| Storage.PublicUrlSegment | services/storage.js:22 | the URL's last segment holds no '/', and percent-decoding it gives the stored name's UTF-8 bytes |
| Storage.StoreOutcome | services/storage.js:15-24 | the stored name, path and URL, or the copy's error; its properties are stated by StoreOutcomeShape and StoreToUploads |
| Storage.StoreOutcomeShape | services/storage.js:15-24 | storing fails exactly when the copy fails; a stored file lies in public/uploads, carries the source's name, and is served from under the base URL |
| Storage.StoreToUploads | services/storage.js:15-24 | the result is `StoreOutcome`; on success the disk gains only the copy (the source stays), on failure it is unchanged |
| Storage.CleanupUpload | services/storage.js:26-30 | the file is gone afterwards, removing a missing file changes nothing, and nothing is reported |
| Downloader.Newest | services/downloader.js:39-44 | none exactly for an empty directory; otherwise an entry whose mtime is at least every other's, with strictly older entries before it |
| Downloader.NewestIsUnique | services/downloader.js:42 | the stable sort's choice is the only index with those two properties |
| Downloader.Download | services/downloader.js:23-45 | the outcome of a yt-dlp run and the listing after it; its properties are stated by DownloadOutcome and DownloadWithYtDlp |
| Downloader.DownloadOutcome | services/downloader.js:33-44 | a failed yt-dlp run gives its error; a clean run over an empty directory gives 'Download failed: no file found'; a returned file is in the temp directory and is a newest entry |
| Downloader.DownloadWithYtDlp | services/downloader.js:23-45 | the result is `Download`; after a clean exit the disk gains the listed files, and a returned file exists |
| Downloader.ToolError | services/downloader.js:33-35 | there is no error exactly when the tool exited with code 0; a non-zero or null code gives '<tool> exited with code <code>: <stderr>' |
| Downloader.ExitCodeInMessage | services/downloader.js:34 | a non-zero exit code is read back by parseInt right after '<tool> exited with code ' |
| Downloader.CollectStderr | services/downloader.js:31 | appending the stderr chunks one by one gives their concatenation in arrival order |
| Downloader.ConcatContains | services/downloader.js:31 | every stderr chunk appears in the collected text at its own offset |
| Downloader.ConvertedPath | services/downloader.js:63-64 | the converted file lies in the input's directory |
| Downloader.ConvertedName | services/downloader.js:63-64 | the converted name is the input's base name, whole or cut just before a '.', followed by '-ig.mp4' |
| Downloader.ConvertedPathDiffers | services/downloader.js:63-64 | the converted path never equals the input path |
| Downloader.Convert | services/downloader.js:61-89 | succeeds exactly on a clean ffmpeg exit, with the converted path; a non-zero exit gives 'FFmpeg exited with code <code>: <stderr>' |
| Downloader.ConvertForInstagram | services/downloader.js:61-89 | the result is `Convert`; on success the disk gains exactly the converted file, on failure it is unchanged |
| Downloader.CleanupFile | services/downloader.js:47-53 | no path changes nothing; a path is removed from the disk; nothing is reported |
| FileSystem.LastDot | services/downloader.js:64 | finds the last '.' of a name, or reports that there is none |
| FileSystem.ParsedName | services/downloader.js:64 | path.parse's name is a prefix of the base name, either all of it or followed by a '.' |
| Admin.IntOr | routes/admin.js:12-13 | the value is the parsed integer when it is a non-zero number; an absent, unparsable or zero value gives the fallback |
| Admin.BuildPagination | routes/admin.js:11-16 | page and limit are never 0, limit never exceeds 100, and skip = (page - 1) * limit |
| Admin.PaginationKeepsRequest | routes/admin.js:12-13 | a parsable non-zero page is kept, negative ones too; a parsable non-zero limit is kept up to 100 |
| Admin.PaginationDefaults | routes/admin.js:11-13 | an absent, unparsable or zero page is 1 and such a limit is 10, so skip is 0 |
| Admin.LogsPagination | routes/admin.js:98-100 | on /logs the page is at least 1, limit is non-zero and at most 100, skip = (page - 1) * limit, and skip never has a sign opposite to limit's |
| Admin.LogsDefaultLimit | routes/admin.js:99 | without a limit the logs come 20 to a page |
| Admin.Pages | routes/admin.js:115 | Math.ceil(total / limit); its properties are stated by PagesBounds and PagesOfNegativeLimit |
| Admin.PagesBounds | routes/admin.js:115 | with a positive limit, pages is the least count of limit-sized pages holding total, and 0 exactly when total is 0 |
| Admin.PagesOfNegativeLimit | routes/admin.js:115 | a negative limit, which the helper lets through, gives pages <= 0 |
| Js.CeilDiv | routes/admin.js:115 | Math.ceil of an integer quotient; stated by CeilDivBounds |
| Js.CeilDivBounds | routes/admin.js:115 | Math.ceil of a quotient: the quotient lies in (ceil - 1, ceil] for either sign of the divisor |
| Admin.RowOf | routes/admin.js:35 | finds the row of an account, or reports that none has it |
| Admin.Aggregate | routes/admin.js:32-41 | the $group stage over the posts; its properties are stated by AggregateIsGroup, AggregateMatches, AggregateDistinct and AggregateCovers |
| Admin.PerAccount | routes/admin.js:32-45 | the $group stage followed by the $sort on total; stated by PerAccountRows |
| Admin.AggregateIsGroup | routes/admin.js:32-41 | the fold gives one row per account with posts, no account twice, and each row holds that account's total, pending, posted and latest createdAt |
| Admin.AggregateMatches | routes/admin.js:36-39 | every row's counts equal the reference counts over the posts |
| Admin.AggregateDistinct | routes/admin.js:35 | no two rows share an account |
| Admin.AggregateCovers | routes/admin.js:35 | every post's account has a row |
| Admin.AddPostAccounts | routes/admin.js:35-39 | folding a post in keeps the earlier rows' accounts, adds at most one row, and leaves the post's account with a row |
| Admin.NoRowNoPosts | routes/admin.js:35-39 | an account without a row has no posts, so zero counts and no createdAt |
| Admin.PendingPlusPosted | models/Post.js:9 | an account's pending and posted counts add up to its total, since a post is pending or posted |
| Admin.SortByTotal | routes/admin.js:44 | the rows come out ordered by total, largest first, and are a permutation of the input |
| Admin.InsertByTotalSorted | routes/admin.js:44 | inserting into rows sorted by total keeps them sorted |
| Admin.InsertByTotalPermutes | routes/admin.js:44 | inserting adds exactly that row to the multiset of rows |
| Admin.PerAccountRows | routes/admin.js:32-45 | the dashboard rows are sorted by total, one per account with posts, each holding its counts with pending + posted = total |
| Admin.Processed | routes/admin.js:58-59 | the success-or-failed logs of one type; its properties are stated by SkippedNotProcessed and ProcessedSum |
| Admin.SkippedNotProcessed | routes/admin.js:58-59 | a skipped log never changes the processed counts |
| Admin.ProcessedSum | routes/admin.js:56-59 | when finished logs carry their type, images + videos processed = success + failed logs |
| PostsController.List | controllers/postsController.js:4-23 | the same paging rules as the admin helper; pages is the least count of limit-sized pages for a positive limit and <= 0 for a negative one |
| PostsController.ListDefaults | controllers/postsController.js:5-8 | without query parameters the first page of 10 is listed |
| Validations.UnknownKeys | validations/postValidation.js:3-9 | a key is reported unknown exactly when the body has it and the schema does not declare it |
| Validations.ValidatePost | validations/postValidation.js:3-17 | a rejection always names at least one key |
| Validations.NoPostErrors | validations/postValidation.js:3-17 | no key fails exactly when every field rule of the post schema holds |
| Validations.CreatePost | validations/postValidation.js:3-9 | the create schema's failing keys; stated by PostAccepted and CreateAndUpdatePost |
| Validations.UpdatePost | validations/postValidation.js:11-17 | the update schema's failing keys; stated by PostAccepted and CreateAndUpdatePost |
| Validations.PostAccepted | validations/postValidation.js:3-17 | a post body is accepted exactly when it has only schema keys, a non-blank name, a video or image type, a uri, 24 hex characters for account, and a valid status (required on update); the accepted name is the trimmed one |
| Validations.MissingPostFieldReported | validations/postValidation.js:4-16 | a missing required field is rejected by its key |
| Validations.CreateAndUpdatePost | validations/postValidation.js:8-16 | the update schema accepts exactly the create schema's bodies that carry a status, with the same result |
| Validations.ValidateAccount | validations/accountValidation.js:3-15 | a rejection always names at least one key |
| Validations.AcceptedUsername | validations/accountValidation.js:4-11 | an accepted username is a string of at least three characters after trimming, passed on trimmed |
| Validations.OnlyUsernameRequired | validations/accountValidation.js:3-8 | a body holding only a username of three trimmed characters is accepted |
| Validations.CredentialsTakeAnyText | validations/accountValidation.js:5-13 | setting ig_user_id or access_token to any string or null clears that key's error and changes no other |
| Validations.EmailRule | validations/accountValidation.js:7-14 | email fails exactly when present and neither null, blank after trimming, nor an address after trimming |
| Js.Trim | services/scheduler.js:175 | the result is the input's middle with no whitespace at either end, and nothing but whitespace is dropped at either end |
| Js.TrimIdempotent | services/scheduler.js:175 | trimming twice is trimming once |
| Js.TrimKeepsTrimmed | services/scheduler.js:175 | a string with no whitespace at either end is unchanged by trim |
| Js.Split | services/scheduler.js:175 | split always gives at least one part, none holding the separator |
| Js.JoinSplit | services/scheduler.js:175 | joining the parts of a split gives back the text |
| Js.SplitJoin | services/scheduler.js:175 | splitting the join of separator-free parts gives back the parts |
| Js.NatToString | services/storage.js:18 | a number is written as at least one digit, with no leading zero |
| Js.IntToString | services/instagram.js:29 | a rendered integer is non-empty and holds no '/' or ',' |
| Js.NatToStringValue | services/storage.js:18 | the digits written for a number have that number's value |
| Js.ParseInt | routes/admin.js:12 | parseInt(s, 10); its properties are stated by ParseIntOfIntToString and IntOr |
| Js.ParseIntOfIntToString | routes/admin.js:12 | parseInt reads back any rendered integer followed by a non-digit |
| Js.LeadingDigits | routes/admin.js:12 | parseInt's digits are the longest all-digit prefix |
| Js.HexLower | services/storage.js:18 | hex gives two hex digits per byte |
| Js.HexLowerDecodes | services/storage.js:18 | each byte is read back from its two digits, high digit first, and no digit is upper-case |
| Js.EncodeUriComponent | services/storage.js:22 | the encoding holds only unreserved characters and '%', hence no '/' |
| Js.DecodeEncodeUriComponent | services/storage.js:22 | percent-decoding undoes encodeURIComponent, giving the input's UTF-8 bytes |
| Js.EncodeUnreservedIdentity | services/storage.js:22 | encodeURIComponent leaves a name unchanged exactly when every character is unreserved |

## Left out

- `withAccountLock`, `withConversionLock` and `runWithConcurrency` are promise-chain concurrency. The model is sequential: one call runs at a time.
- `scheduleForTimes` registers the cron expressions. Its cron callback creates a run, iterates the accounts, increments `totalAccountsTried` and sets `endedAt`. This is not modelled; the model stops at the list of expressions (`Scheduler.ScheduleTimes`).
- `runOnceForAccount` and `runForAllAccounts` are not modelled. They are the entry points that call `processNextPostForAccount` without a cron context; the model covers that as `withCron == false`.
- The concurrency limit `Math.max(1, parseInt(...))` is used only by the fan-out and is not modelled.
- MongoDB failures (a failed `findOne`, `create` or `save`) are not modelled. The model's store operations always succeed.
- Mongo's `sort({createdAt: 1})` tie order is not modelled. `Scheduler.OldestPending` picks the first stored post among equal timestamps.
- The account-mismatch warning and all console logging are not modelled; they do not change state.
- `container.id` is taken to be the id the create call returns. A response without an id is not modelled.
- Scheduler.ProcessNextPostForAccount: a thrown value without a message is not modelled. A failure is always a string message, and an empty message becomes 'unknown-error' (`Scheduler.Reason`).
- Failed removals are not modelled: `fs.remove` errors are swallowed, so removal always empties the path in the model. Partial files left by yt-dlp or ffmpeg are not modelled either.
- Instagram.WaitForContainerReady: the clock is abstract. `Date.now()` differences are the start offset plus, per retry, the sleep and a lag (the status call's duration and the timer's lateness). The poll bound holds only for intervals in Node's timer range. Node runs a delay outside that range after 1 ms, and `Instagram.SleepMs` models that.
- The remote payload is modelled as an ordered list of string fields. Axios serialisation, HTTP transport and the response's JSON parsing are oracles.
- The rendering of non-integer numbers and the precision of large numbers in `${}` and `parseInt` are not modelled. Neither are the float result of `total / limit`, `-0` from `Math.ceil`, or array-valued query parameters.
- `Date.now()` and `crypto.randomBytes(6)` are parameters of `Storage.StoredName`. `fs.ensureDir` always succeeds in the model. `fs.copy` is an oracle that succeeds or fails with a message.
- The spawned tools' argument vectors and the `%(id)s.%(ext)s` output template are not modelled. Only how each run ends (spawn error, exit code, stderr chunks) and the directory listing afterwards matter.
- The temp directory shared by concurrent downloads is a concurrency hazard and is not modelled. The listing is whatever the directory holds after this download.
- Other files that yt-dlp leaves in the shared temp directory are never removed. The `finally` block removes only the file the download returned, its converted copy and its stored copy (services/scheduler.js:144-149). `Scheduler.CleanupCoversEveryPath` states exactly that.
- Strings are Dafny `char` sequences, so JavaScript's UTF-16 code units and lone surrogates are not modelled. `encodeURIComponent` is modelled per Unicode scalar value.
- The dashboard's totals, `recentPosts`, `uploadsPerAccount`, the `$lookup`/`$unwind` account join, and the skip/limit of list items are not modelled. These are database queries with no arithmetic of their own.
- Admin.SortByTotal: MongoDB's `$sort` does not promise an order among equal totals. The model's insertion sort fixes one, and the contract states only ordering and permutation.
- `uri()` and `email()` are Joi's internals and are modelled as predicate parameters. Joi's error objects are modelled as the set of failing keys; the schemas are validated with `abortEarly: false`, so every failing key is reported.
- `postsController.js` has its own copy of `buildPagination`, identical to the one in `routes/admin.js`; both are modelled by `Admin.BuildPagination`.
- The Express handlers, `server.js`, the API routes and the accounts controller are request wiring and are not modelled.
