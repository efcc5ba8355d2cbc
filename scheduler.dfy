/**
 * The scheduler service: publishing an account's next pending post
 * (processNextPostForAccount) over an in-memory store of posts, upload logs
 * and the current cron run, and the parsing of the POST_SCHEDULE_CRONS
 * override.
 *
 * Every step outside the store is part of an environment value: the yt-dlp
 * and ffmpeg runs and the directory listing, the clock and random bytes of the
 * storage step and the copy it makes, the account lookup, and the three Graph
 * API calls with the clock of the readiness loop. The disk is a separate
 * object whose set of files the attempt grows and the cleanup shrinks.
 */
module Scheduler {
  import opened Wrappers
  import Js
  import opened FileSystem
  import opened Models
  import Instagram
  import Storage
  import Downloader

  const NoPendingReason: string := "no-pending-post"
  const UnknownError: string := "unknown-error"
  const AccountNotFound: string := "Post linked account not found"
  const DefaultSchedule: seq<string> := ["0 0 * * *", "0 4 * * *", "0 8 * * *", "0 12 * * *", "0 16 * * *"]

  /** {skipped, reason: 'no-pending-post'}, {success, postId} or {error, message}. */
  datatype Outcome = NothingPending | Published(postId: string) | Failure(message: string)

  /** What one call observes outside the store. */
  datatype Env = Env(
    startedAt: int,
    endedAt: int,
    download: string -> Downloader.ToolRun,
    listing: seq<Downloader.DirEntry>,
    convert: Path -> Downloader.ToolRun,
    nowMs: nat,
    random: Storage.Bytes6,
    copy: (Path, Path) -> Option<string>,
    findAccount: string -> Option<Account>,
    create: Instagram.Request -> Result<string, Instagram.HttpFailure>,
    elapsed0: nat,
    lag: nat -> nat,
    poll: (Instagram.Request, nat) -> Instagram.StatusReply,
    publish: Instagram.Request -> Result<string, Instagram.HttpFailure>)

  /** os.tmpdir(), process.cwd(), BASE_URL and PORT. */
  datatype Config = Config(tmpRoot: seq<string>, cwd: seq<string>, baseUrlEnv: Option<string>, portEnv: Option<string>)

  // ---------------------------------------------------------------------------
  // Choosing the post
  // ---------------------------------------------------------------------------

  predicate IsPendingFor(p: Post, accountId: string) {
    p.account == accountId && p.status == Pending
  }

  /**
   * findOne({account, status: 'pending'}).sort({createdAt: 1}): the pending
   * post of the account created first; among equal createdAt, the first stored.
   */
  function OldestPending(posts: seq<Post>, accountId: string): (r: Option<nat>)
    ensures r.None? <==> forall j :: 0 <= j < |posts| ==> !IsPendingFor(posts[j], accountId)
    ensures r.Some? ==> r.value < |posts| && IsPendingFor(posts[r.value], accountId)
    ensures r.Some? ==> forall j :: 0 <= j < |posts| && IsPendingFor(posts[j], accountId) ==>
      posts[r.value].createdAt <= posts[j].createdAt
    ensures r.Some? ==> forall j :: 0 <= j < r.value && IsPendingFor(posts[j], accountId) ==>
      posts[r.value].createdAt < posts[j].createdAt
  {
    if posts == [] then None
    else
      var last := |posts| - 1;
      var init := posts[..last];
      var r := OldestPending(init, accountId);
      if !IsPendingFor(posts[last], accountId) then r
      else if r.None? || posts[last].createdAt < init[r.value].createdAt then Some(last)
      else r
  }

  // ---------------------------------------------------------------------------
  // The attempt: download, convert, store, then the Graph API
  // ---------------------------------------------------------------------------

  /** Both credentials are truthy. */
  predicate HasCredentials(a: Account) {
    Js.Truthy(a.igUserId) && Js.Truthy(a.accessToken)
  }

  /** 'Account <username or id> missing ig_user_id or access_token'. */
  function MissingCredentials(a: Account): string {
    "Account " + (if a.username != "" then a.username else a.id) + " missing ig_user_id or access_token"
  }

  /** How the remote part ended, and whether a container was asked for. */
  datatype Remote = Remote(failure: Option<string>, createSent: bool)

  /** Resolve the post's account, check its credentials, then create, wait for and publish the container. */
  function RemoteSteps(post: Post, sourceUrl: string, env: Env): Remote {
    match env.findAccount(post.account)
    case None => Remote(Some(AccountNotFound), false)
    case Some(acct) =>
      if !HasCredentials(acct) then Remote(Some(MissingCredentials(acct)), false)
      else
        var ig := acct.igUserId.value;
        var token := acct.accessToken.value;
        match Instagram.CreateMediaContainer(ig, token, post.mediaType, sourceUrl, Some(post.name), env.create)
        case Err(m) => Remote(Some(m), true)
        case Ok(cid) =>
          match WaitResult(token, cid, env)
          case Err(m) => Remote(Some(m), true)
          case Ok(_) =>
            match Instagram.PublishContainer(ig, token, cid, env.publish)
            case Err(m) => Remote(Some(m), true)
            case Ok(_) => Remote(None, true)
  }

  /** waitForContainerReady with its default timeout and interval. */
  function WaitResult(token: string, cid: string, env: Env): Result<string, string> {
    Instagram.WaitFrom(token, cid, Instagram.DefaultTimeoutMs, Instagram.DefaultIntervalMs,
                       env.elapsed0, env.lag, env.poll, 0).0
  }

  /**
   * The outcome of the try block and the files it left behind: the downloaded
   * file, the converted file, and the stored copy, each once it exists.
   */
  datatype Attempt = Attempt(failure: Option<string>, downloaded: Option<Path>, converted: Option<Path>,
                             stored: Option<Path>, createSent: bool)

  /** The converted file of a video whose conversion succeeded; nothing otherwise. */
  function Converted(post: Post, file: Path, env: Env): (c: Option<Path>)
    ensures c.Some? <==> post.mediaType == Video && Downloader.CleanExit(env.convert(file))
  {
    if post.mediaType == Video && Downloader.Convert(file, env.convert(file)).Ok? then
      Some(Downloader.ConvertedPath(file))
    else None
  }

  function RunAttempt(post: Post, env: Env, cfg: Config): Attempt {
    match Downloader.Download(cfg.tmpRoot, env.download(post.url), env.listing)
    case Err(m) => Attempt(Some(m), None, None, None, false)
    case Ok(file) =>
      var converted := Converted(post, file, env);
      var toStore := converted.GetOr(file);
      match Storage.StoreOutcome(cfg.cwd, cfg.baseUrlEnv, cfg.portEnv, env.nowMs, env.random, toStore, env.copy)
      case Err(m) => Attempt(Some(m), Some(file), converted, None, false)
      case Ok(stored) =>
        var remote := RemoteSteps(post, stored.url, env);
        Attempt(remote.failure, Some(file), converted, Some(stored.absPath), remote.createSent)
  }

  function OptSet(p: Option<Path>): set<Path> {
    if p.Some? then {p.value} else {}
  }

  /** The files the attempt brings into existence. */
  function Added(post: Post, env: Env, cfg: Config, a: Attempt): set<Path> {
    (if Downloader.CleanExit(env.download(post.url)) then Downloader.ListedPaths(cfg.tmpRoot, env.listing) else {})
    + OptSet(a.converted) + OptSet(a.stored)
  }

  /** The files the finally block removes. */
  function Cleaned(a: Attempt): set<Path> {
    OptSet(a.downloaded) + OptSet(a.converted) + OptSet(a.stored)
  }

  /** The try block's steps, each on the disk, stopping at the first failure. */
  method TryPublish(post: Post, env: Env, cfg: Config, disk: Disk) returns (a: Attempt)
    modifies disk
    ensures a == RunAttempt(post, env, cfg)
    ensures disk.files == old(disk.files) + Added(post, env, cfg, a)
  {
    var dl := Downloader.DownloadWithYtDlp(disk, cfg.tmpRoot, env.download(post.url), env.listing);
    if dl.Err? {
      return Attempt(Some(dl.error), None, None, None, false);
    }
    var filePath := dl.value;
    var convertedPath: Option<Path> := None;
    var toStorePath := filePath;
    if post.mediaType == Video {
      var conv := Downloader.ConvertForInstagram(disk, filePath, env.convert(filePath));
      if conv.Ok? {
        convertedPath := Some(conv.value);
        toStorePath := conv.value;
      }
    }
    var publicFile := Storage.StoreToUploads(disk, cfg.cwd, cfg.baseUrlEnv, cfg.portEnv, env.nowMs, env.random,
                                             toStorePath, env.copy);
    if publicFile.Err? {
      return Attempt(Some(publicFile.error), Some(filePath), convertedPath, None, false);
    }
    var remote := RemoteSteps(post, publicFile.value.url, env);
    a := Attempt(remote.failure, Some(filePath), convertedPath, Some(publicFile.value.absPath), remote.createSent);
  }

  /** The finally block: remove whatever exists of the three files; removal never fails the call. */
  method Cleanup(disk: Disk, attempt: Attempt)
    modifies disk
    ensures disk.files == old(disk.files) - Cleaned(attempt)
  {
    Downloader.CleanupFile(disk, attempt.downloaded);
    Downloader.CleanupFile(disk, attempt.converted);
    if attempt.stored.Some? {
      Storage.CleanupUpload(disk, attempt.stored.value);
    }
  }

  // ---------------------------------------------------------------------------
  // Logs, counters and the store
  // ---------------------------------------------------------------------------

  /** The cronRun link a log gets: only with a cron context. */
  function CronLink(run: CronRun, withCron: bool): Option<string> {
    if withCron then Some(run.id) else None
  }

  /** The log of a call that found no pending post. */
  function SkipLog(accountId: string, cronRun: Option<string>, env: Env): UploadLog {
    UploadLog(cronRun, accountId, None, None, Skipped, Some(NoPendingReason), env.startedAt, Some(env.endedAt))
  }

  /** The provisional log written before the download: skipped, the post's type, no end. */
  function OpenLog(accountId: string, post: Post, cronRun: Option<string>, startedAt: int): UploadLog {
    UploadLog(cronRun, accountId, Some(post.id), Some(post.mediaType), Skipped, None, startedAt, None)
  }

  /** A log as it stands during the attempt: skipped, for the post and its type, no end time, no reason. */
  predicate IsProvisional(l: UploadLog, post: Post, cronRun: Option<string>) {
    && l.status == Skipped && l.endedAt.None? && l.errorReason.None?
    && l.post == Some(post.id) && l.mediaType == Some(post.mediaType) && l.cronRun == cronRun
  }

  /**
   * The log opened before any download is provisional, and closing it keeps
   * who and what it is about while setting the final status and end time.
   */
  lemma OpenLogIsProvisional(accountId: string, post: Post, cronRun: Option<string>, startedAt: int, failure: Option<string>, endedAt: int)
    ensures IsProvisional(OpenLog(accountId, post, cronRun, startedAt), post, cronRun)
    ensures var c := CloseLog(OpenLog(accountId, post, cronRun, startedAt), failure, endedAt);
      && c.account == accountId && c.post == Some(post.id) && c.mediaType == Some(post.mediaType)
      && c.cronRun == cronRun && c.startedAt == startedAt && c.endedAt == Some(endedAt)
      && (c.status == Success <==> failure.None?)
  {
  }

  /** err?.message || 'unknown-error'. */
  function Reason(message: string): (r: string)
    ensures r != ""
    ensures message != "" ==> r == message
    ensures message == "" ==> r == UnknownError
  {
    if message == "" then UnknownError else message
  }

  /** The provisional log, closed as success or failure. */
  function CloseLog(log: UploadLog, failure: Option<string>, endedAt: int): UploadLog {
    if failure.None? then log.(status := Success, endedAt := Some(endedAt))
    else log.(status := Failed, errorReason := Some(Reason(failure.value)), endedAt := Some(endedAt))
  }

  /** The $inc of a finished attempt: success or failed, and the post's type. */
  function Tally(stats: Stats, withCron: bool, mediaType: MediaType, failure: Option<string>): Stats {
    if !withCron then stats
    else
      var s := if failure.None? then stats.(success := stats.success + 1) else stats.(failed := stats.failed + 1);
      if mediaType == Video then s.(videos := s.videos + 1) else s.(images := s.images + 1)
  }

  /** What the caller gets back. */
  function OutcomeOf(post: Post, failure: Option<string>): Outcome {
    if failure.None? then Published(post.id) else Failure(failure.value)
  }

  datatype StoreState = StoreState(posts: seq<Post>, logs: seq<UploadLog>, run: CronRun)

  /** processNextPostForAccount on the store: the result and the new store. */
  function Step(s: StoreState, account: Account, withCron: bool, env: Env, cfg: Config): (Outcome, StoreState) {
    var link := CronLink(s.run, withCron);
    match OldestPending(s.posts, account.id)
    case None => (NothingPending, s.(logs := s.logs + [SkipLog(account.id, link, env)]))
    case Some(i) =>
      var post := s.posts[i];
      var failure := RunAttempt(post, env, cfg).failure;
      var log := CloseLog(OpenLog(account.id, post, link, env.startedAt), failure, env.endedAt);
      var posts := if failure.None? then s.posts[i := post.(status := Posted)] else s.posts;
      (OutcomeOf(post, failure),
       StoreState(posts, s.logs + [log], s.run.(stats := Tally(s.run.stats, withCron, post.mediaType, failure))))
  }

  /** The disk after the call: what the attempt added, less what the finally block removed. */
  function FilesAfter(files: set<Path>, s: StoreState, account: Account, env: Env, cfg: Config): set<Path> {
    match OldestPending(s.posts, account.id)
    case None => files
    case Some(i) =>
      var a := RunAttempt(s.posts[i], env, cfg);
      (files + Added(s.posts[i], env, cfg, a)) - Cleaned(a)
  }

  /** Every counted attempt counted once by result and once by type. */
  predicate Balanced(stats: Stats) {
    stats.images + stats.videos == stats.success + stats.failed
  }

  // ---------------------------------------------------------------------------
  // What one call does to the store
  // ---------------------------------------------------------------------------

  /** With no pending post: one skipped log without a post, nothing else changes. */
  lemma NoPendingPost(s: StoreState, account: Account, withCron: bool, env: Env, cfg: Config)
    requires forall j :: 0 <= j < |s.posts| ==> !IsPendingFor(s.posts[j], account.id)
    ensures var (res, s') := Step(s, account, withCron, env, cfg);
      && res == NothingPending
      && s'.posts == s.posts && s'.run == s.run
      && |s'.logs| == |s.logs| + 1 && s'.logs[..|s.logs|] == s.logs
      && var log := s'.logs[|s.logs|];
         log.post.None? && log.status == Skipped && log.errorReason == Some(NoPendingReason)
         && log.account == account.id && log.endedAt.Some?
  {
    var (res, s') := Step(s, account, withCron, env, cfg);
    assert s'.logs[..|s.logs|] == s.logs;
  }

  /**
   * With a pending post: exactly one log is added, for the chosen post and its
   * type; it ends as success exactly when the call reports the post published,
   * and as failed with the message (or 'unknown-error') otherwise.
   */
  lemma AttemptLog(s: StoreState, account: Account, withCron: bool, env: Env, cfg: Config)
    requires OldestPending(s.posts, account.id).Some?
    ensures var i := OldestPending(s.posts, account.id).value;
      var (res, s') := Step(s, account, withCron, env, cfg);
      && |s'.logs| == |s.logs| + 1 && s'.logs[..|s.logs|] == s.logs
      && var log := s'.logs[|s.logs|];
         && log.post == Some(s.posts[i].id) && log.mediaType == Some(s.posts[i].mediaType)
         && log.account == account.id
         && log.startedAt == env.startedAt && log.endedAt == Some(env.endedAt)
         && log.status != Skipped
         && (log.status == Success <==> res.Published?)
         && (res.Failure? ==> log.status == Failed && log.errorReason == Some(Reason(res.message)))
  {
    var (res, s') := Step(s, account, withCron, env, cfg);
    assert s'.logs[..|s.logs|] == s.logs;
  }

  /** A log is linked to the cron run exactly when the call has a cron context. */
  lemma LogCronLink(s: StoreState, account: Account, withCron: bool, env: Env, cfg: Config)
    ensures var (_, s') := Step(s, account, withCron, env, cfg);
      |s'.logs| == |s.logs| + 1 && (s'.logs[|s.logs|].cronRun.Some? <==> withCron)
      && (withCron ==> s'.logs[|s.logs|].cronRun == Some(s.run.id))
  {
  }

  /**
   * The chosen post becomes posted exactly when the call reports it published;
   * every other post, and the chosen one on failure, is left as it was.
   */
  lemma PostedOnlyOnSuccess(s: StoreState, account: Account, withCron: bool, env: Env, cfg: Config)
    requires OldestPending(s.posts, account.id).Some?
    ensures var i := OldestPending(s.posts, account.id).value;
      var (res, s') := Step(s, account, withCron, env, cfg);
      && |s'.posts| == |s.posts|
      && (forall j :: 0 <= j < |s.posts| && j != i ==> s'.posts[j] == s.posts[j])
      && (res.Published? ==> res.postId == s.posts[i].id && s'.posts[i] == s.posts[i].(status := Posted))
      && (!res.Published? ==> s'.posts == s.posts && res.Failure?)
      && (res.Published? <==> RunAttempt(s.posts[i], env, cfg).failure.None?)
  {
  }

  /**
   * The counters move only with a cron context, and then by one result
   * (success or failed) and one type (images or videos) each; the rest of the
   * cron run is untouched.
   */
  lemma CountersMove(s: StoreState, account: Account, withCron: bool, env: Env, cfg: Config)
    ensures var (res, s') := Step(s, account, withCron, env, cfg);
      var (a, b) := (s.run.stats, s'.run.stats);
      && s'.run.id == s.run.id && s'.run.cronExp == s.run.cronExp
      && s'.run.startedAt == s.run.startedAt && s'.run.endedAt == s.run.endedAt
      && b.totalAccountsTried == a.totalAccountsTried
      && (!withCron || res == NothingPending ==> b == a)
      && (withCron && res.Published? ==> b.success == a.success + 1 && b.failed == a.failed)
      && (withCron && res.Failure? ==> b.failed == a.failed + 1 && b.success == a.success)
      && (withCron && res != NothingPending ==> b.images + b.videos == a.images + a.videos + 1)
  {
  }

  /** The type counter that moves is the chosen post's. */
  lemma TypeCounter(s: StoreState, account: Account, env: Env, cfg: Config)
    requires OldestPending(s.posts, account.id).Some?
    ensures var i := OldestPending(s.posts, account.id).value;
      var (_, s') := Step(s, account, true, env, cfg);
      var (a, b) := (s.run.stats, s'.run.stats);
      if s.posts[i].mediaType == Video then b.videos == a.videos + 1 && b.images == a.images
      else b.images == a.images + 1 && b.videos == a.videos
  {
  }

  /** images + videos = success + failed holds from the zero counters on, call after call. */
  lemma StepKeepsBalance(s: StoreState, account: Account, withCron: bool, env: Env, cfg: Config)
    requires Balanced(s.run.stats)
    ensures Balanced(Step(s, account, withCron, env, cfg).1.run.stats)
  {
  }

  // ---------------------------------------------------------------------------
  // What the attempt does
  // ---------------------------------------------------------------------------

  /** A missing account or missing credentials fail the attempt before any container is asked for. */
  lemma AccountCheckedBeforeCreate(post: Post, sourceUrl: string, env: Env)
    ensures var r := RemoteSteps(post, sourceUrl, env);
      && (env.findAccount(post.account).None? ==> r == Remote(Some(AccountNotFound), false))
      && (env.findAccount(post.account).Some? && !HasCredentials(env.findAccount(post.account).value) ==>
            r == Remote(Some(MissingCredentials(env.findAccount(post.account).value)), false))
      && (r.createSent <==> env.findAccount(post.account).Some? && HasCredentials(env.findAccount(post.account).value))
  {
  }

  /** The remote part succeeds exactly when the account checks out and create, wait and publish all succeed. */
  lemma RemoteSucceedsIff(post: Post, sourceUrl: string, env: Env)
    ensures RemoteSteps(post, sourceUrl, env).failure.None? <==>
      && env.findAccount(post.account).Some?
      && var acct := env.findAccount(post.account).value;
         && HasCredentials(acct)
         && var create := Instagram.CreateMediaContainer(acct.igUserId.value, acct.accessToken.value, post.mediaType,
                                                         sourceUrl, Some(post.name), env.create);
            && create.Ok?
            && WaitResult(acct.accessToken.value, create.value, env).Ok?
            && Instagram.PublishContainer(acct.igUserId.value, acct.accessToken.value, create.value, env.publish).Ok?
  {
  }

  /** The attempt succeeds only after a download, a stored copy and the remote steps all succeeded. */
  lemma AttemptSucceedsIff(post: Post, env: Env, cfg: Config)
    ensures var a := RunAttempt(post, env, cfg);
      a.failure.None? <==>
        && Downloader.Download(cfg.tmpRoot, env.download(post.url), env.listing).Ok?
        && a.stored.Some?
        && var file := Downloader.Download(cfg.tmpRoot, env.download(post.url), env.listing).value;
           var stored := Storage.StoreOutcome(cfg.cwd, cfg.baseUrlEnv, cfg.portEnv, env.nowMs, env.random,
                                              Converted(post, file, env).GetOr(file), env.copy);
           && stored.Ok?
           && RemoteSteps(post, stored.value.url, env).failure.None?
  {
  }

  /**
   * Only videos are converted; when conversion fails the downloaded file itself
   * is stored, and the stored copy carries the base name of whichever file was stored.
   */
  lemma ConversionFallback(post: Post, env: Env, cfg: Config)
    requires Downloader.Download(cfg.tmpRoot, env.download(post.url), env.listing).Ok?
    ensures var file := Downloader.Download(cfg.tmpRoot, env.download(post.url), env.listing).value;
      var a := RunAttempt(post, env, cfg);
      && a.downloaded == Some(file)
      && (post.mediaType == Image ==> a.converted.None?)
      && (post.mediaType == Video && !Downloader.CleanExit(env.convert(file)) ==> a.converted.None?)
      && (post.mediaType == Video && Downloader.CleanExit(env.convert(file)) ==>
            a.converted == Some(Downloader.ConvertedPath(file)))
      && (a.stored.Some? ==>
            Storage.OriginalName(a.stored.value.base) == Some(if a.converted.Some? then a.converted.value.base else file.base))
  {
    var file := Downloader.Download(cfg.tmpRoot, env.download(post.url), env.listing).value;
    var converted := Converted(post, file, env);
    Storage.StoreOutcomeShape(cfg.cwd, cfg.baseUrlEnv, cfg.portEnv, env.nowMs, env.random, converted.GetOr(file), env.copy);
  }

  /**
   * Cleanup covers the attempt's own files: the downloaded, converted and
   * stored files are gone afterwards, only files the attempt added are
   * removed, and every other file is kept.
   */
  lemma CleanupCoversEveryPath(files: set<Path>, s: StoreState, account: Account, env: Env, cfg: Config)
    requires OldestPending(s.posts, account.id).Some?
    ensures var post := s.posts[OldestPending(s.posts, account.id).value];
      var a := RunAttempt(post, env, cfg);
      var after := FilesAfter(files, s, account, env, cfg);
      && Cleaned(a) <= Added(post, env, cfg, a)
      && (a.downloaded.Some? ==> a.downloaded.value !in after)
      && (a.converted.Some? ==> a.converted.value !in after)
      && (a.stored.Some? ==> a.stored.value !in after)
      && (forall p :: p in files && p !in Cleaned(a) ==> p in after)
      && (forall p :: p in after ==> p in files || p in Added(post, env, cfg, a))
  {
    var post := s.posts[OldestPending(s.posts, account.id).value];
    var a := RunAttempt(post, env, cfg);
    var dl := Downloader.Download(cfg.tmpRoot, env.download(post.url), env.listing);
    if dl.Ok? {
      var i := Downloader.Newest(env.listing).value;
      assert env.listing[i] in env.listing;
      assert dl.value in Downloader.ListedPaths(cfg.tmpRoot, env.listing);
    }
  }

  /** Without a pending post the disk is not touched. */
  lemma NoPendingKeepsDisk(files: set<Path>, s: StoreState, account: Account, env: Env, cfg: Config)
    requires OldestPending(s.posts, account.id).None?
    ensures FilesAfter(files, s, account, env, cfg) == files
  {
  }

  class Store {
    var posts: seq<Post>
    var logs: seq<UploadLog>
    var run: CronRun

    function State(): StoreState
      reads this
    {
      StoreState(posts, logs, run)
    }

    predicate Valid()
      reads this
    {
      Balanced(run.stats)
    }

    /** A store with a fresh cron run: all counters 0. */
    constructor (posts0: seq<Post>, logs0: seq<UploadLog>, runId: string, cronExp: string, startedAt: int)
      ensures Valid()
      ensures posts == posts0 && logs == logs0
      ensures run == CronRun(runId, cronExp, startedAt, None, ZeroStats)
    {
      posts := posts0;
      logs := logs0;
      run := CronRun(runId, cronExp, startedAt, None, ZeroStats);
    }

    /**
     * processNextPostForAccount: pick the oldest pending post, open a log,
     * try the pipeline, then mark the post and close the log by the outcome,
     * count it when a cron run is given, and remove the files it downloaded,
     * converted and stored.
     */
    method ProcessNextPostForAccount(account: Account, withCron: bool, env: Env, cfg: Config, disk: Disk)
      returns (res: Outcome)
      requires Valid()
      modifies this, disk
      ensures Valid()
      ensures (res, State()) == Step(old(State()), account, withCron, env, cfg)
      ensures disk.files == FilesAfter(old(disk.files), old(State()), account, env, cfg)
    {
      ghost var s0 := State();
      ghost var files0 := disk.files;
      var found := OldestPending(posts, account.id);
      var link := CronLink(run, withCron);
      if found.None? {
        logs := logs + [SkipLog(account.id, link, env)];
        return NothingPending;
      }
      var i := found.value;
      var post := posts[i];
      var k := OpenAttemptLog(account.id, post, link, env.startedAt);
      var attempt := TryPublish(post, env, cfg, disk);
      res := Settle(i, k, attempt.failure, withCron, env.endedAt);
      Cleanup(disk, attempt);
      ReplaceLast(s0.logs, OpenLog(account.id, post, link, env.startedAt), CloseLog(OpenLog(account.id, post, link, env.startedAt), attempt.failure, env.endedAt));
      assert logs == s0.logs + [CloseLog(OpenLog(account.id, post, link, env.startedAt), attempt.failure, env.endedAt)];
      assert disk.files == (files0 + Added(post, env, cfg, attempt)) - Cleaned(attempt);
    }

    /**
     * The provisional log, written before anything is downloaded: skipped, for
     * the post and its type, with no end time and no reason yet. Nothing else
     * in the store changes, and no file is touched.
     */
    method OpenAttemptLog(accountId: string, post: Post, link: Option<string>, startedAt: int) returns (k: nat)
      requires Valid()
      modifies this
      ensures Valid()
      ensures posts == old(posts) && run == old(run)
      ensures logs == old(logs) + [OpenLog(accountId, post, link, startedAt)]
      ensures k == |old(logs)| && k < |logs|
      ensures IsProvisional(logs[k], post, link)
    {
      logs := logs + [OpenLog(accountId, post, link, startedAt)];
      k := |logs| - 1;
    }

    /** The end of the try or catch block: mark the post, close the log at k, count the attempt. */
    method Settle(i: nat, k: nat, failure: Option<string>, withCron: bool, endedAt: int) returns (res: Outcome)
      requires i < |posts| && k < |logs|
      requires Valid()
      modifies this
      ensures Valid()
      ensures res == OutcomeOf(old(posts[i]), failure)
      ensures posts == if failure.None? then old(posts[i := posts[i].(status := Posted)]) else old(posts)
      ensures logs == old(logs[k := CloseLog(logs[k], failure, endedAt)])
      ensures run == old(run.(stats := Tally(run.stats, withCron, posts[i].mediaType, failure)))
    {
      var post := posts[i];
      if failure.None? {
        posts := posts[i := post.(status := Posted)];
        logs := logs[k := logs[k].(status := Success, endedAt := Some(endedAt))];
        if withCron {
          var st := run.stats.(success := run.stats.success + 1);
          st := if post.mediaType == Video then st.(videos := st.videos + 1) else st.(images := st.images + 1);
          run := run.(stats := st);
        }
        res := Published(post.id);
      } else {
        var message := failure.value;
        logs := logs[k := logs[k].(status := Failed, errorReason := Some(Reason(message)), endedAt := Some(endedAt))];
        if withCron {
          var st := run.stats.(failed := run.stats.failed + 1);
          st := if post.mediaType == Video then st.(videos := st.videos + 1) else st.(images := st.images + 1);
          run := run.(stats := st);
        }
        res := Failure(message);
      }
    }
  }

  // ---------------------------------------------------------------------------
  // The schedule: POST_SCHEDULE_CRONS or the five defaults
  // ---------------------------------------------------------------------------

  /** A part filter(Boolean) keeps after trim: not empty, no whitespace at either end. */
  predicate IsCleanPart(x: string) {
    x != "" && Js.IsTrimmed(x)
  }

  /** A part that trims to nothing. */
  predicate IsBlank(x: string) {
    Js.Trim(x) == ""
  }

  /** Every part is clean, stated part by part. */
  predicate AllClean(xs: seq<string>) {
    xs == [] || (IsCleanPart(xs[0]) && AllClean(xs[1..]))
  }

  lemma {:induction false} AllCleanAt(xs: seq<string>)
    requires AllClean(xs)
    ensures forall k :: 0 <= k < |xs| ==> IsCleanPart(xs[k])
  {
    if xs != [] {
      AllCleanAt(xs[1..]);
      assert forall k :: 1 <= k < |xs| ==> xs[k] == xs[1..][k - 1];
    }
  }

  /** A blank part trims to nothing; any other part trims to a clean one. */
  lemma TrimmedPartIsClean(x: string)
    requires !IsBlank(x)
    ensures IsCleanPart(Js.Trim(x))
  {
  }

  /** map(s => s.trim()).filter(Boolean): the non-blank parts, trimmed, in order. */
  function CleanParts(parts: seq<string>): (r: seq<string>)
    ensures |r| <= |parts|
    ensures AllClean(r)
  {
    if parts == [] then []
    else if IsBlank(parts[0]) then CleanParts(parts[1..])
    else
      TrimmedPartIsClean(parts[0]);
      [Js.Trim(parts[0])] + CleanParts(parts[1..])
  }

  /** A leading part comes out trimmed, or not at all when it is blank; the rest is cleaned alike. */
  lemma CleanPartsCons(x: string, rest: seq<string>)
    ensures CleanParts([x] + rest) == (if IsBlank(x) then [] else [Js.Trim(x)]) + CleanParts(rest)
  {
    var xs := [x] + rest;
    assert xs[0] == x;
    assert xs[1..] == rest;
  }

  /** Cleaning a sequence and that sequence followed by more both start with its first part, cleaned. */
  lemma CleanPartsUncons(a: seq<string>, b: seq<string>)
    requires a != []
    ensures var head := if IsBlank(a[0]) then [] else [Js.Trim(a[0])];
      && CleanParts(a + b) == head + CleanParts(a[1..] + b)
      && CleanParts(a) == head + CleanParts(a[1..])
  {
    assert a + b == [a[0]] + (a[1..] + b);
    CleanPartsCons(a[0], a[1..] + b);
    assert a == [a[0]] + a[1..];
    CleanPartsCons(a[0], a[1..]);
  }

  /**
   * The filter works part by part: cleaning a concatenation is cleaning each
   * side. With CleanPartsCons this fixes CleanParts as the trimmed non-blank
   * parts, in their order.
   */
  lemma {:induction false} CleanPartsConcat(a: seq<string>, b: seq<string>)
    ensures CleanParts(a + b) == CleanParts(a) + CleanParts(b)
  {
    if a == [] {
      assert a + b == b;
    } else {
      var head := if IsBlank(a[0]) then [] else [Js.Trim(a[0])];
      CleanPartsUncons(a, b);
      CleanPartsConcat(a[1..], b);
      ConcatAssoc(head, CleanParts(a[1..]), CleanParts(b));
    }
  }

  /** Overwriting the element just appended is appending the new one. */
  lemma ReplaceLast<T>(xs: seq<T>, x: T, y: T)
    ensures (xs + [x])[|xs| := y] == xs + [y]
  {
  }

  lemma ConcatAssoc<T>(x: seq<T>, y: seq<T>, z: seq<T>)
    ensures x + (y + z) == (x + y) + z
  {
  }

  predicate AllBlank(parts: seq<string>) {
    parts == [] || (IsBlank(parts[0]) && AllBlank(parts[1..]))
  }

  /** Nothing survives the filter exactly when every part is blank. */
  lemma {:induction false} CleanPartsEmpty(parts: seq<string>)
    ensures CleanParts(parts) == [] <==> AllBlank(parts)
  {
    if parts != [] {
      CleanPartsEmpty(parts[1..]);
    }
  }

  /** The cron expressions initScheduler registers. */
  function ScheduleTimes(override: Option<string>): (times: seq<string>)
    ensures |times| >= 1
    ensures forall k :: 0 <= k < |times| ==> IsCleanPart(times[k])
  {
    if Js.Truthy(override) then
      var parts := CleanParts(Js.Split(override.value, ','));
      AllCleanAt(parts);
      if parts != [] then parts else DefaultSchedule
    else DefaultSchedule
  }

  /** Parts that are already clean pass through unchanged. */
  lemma {:induction false} CleanPartsOfClean(xs: seq<string>)
    requires forall k :: 0 <= k < |xs| ==> IsCleanPart(xs[k])
    ensures CleanParts(xs) == xs
  {
    if xs != [] {
      Js.TrimKeepsTrimmed(xs[0]);
      CleanPartsOfClean(xs[1..]);
    }
  }

  /** Joining clean expressions with ',' and parsing the result gives them back. */
  lemma ScheduleRoundTrip(xs: seq<string>)
    requires |xs| >= 1
    requires AllClean(xs) && NoComma(xs)
    ensures ScheduleTimes(Some(Js.Join(xs, ','))) == xs
  {
    JoinedParts(xs);
    ScheduleOfParts(Js.Join(xs, ','), xs);
  }

  /** No part contains the separator, stated part by part. */
  predicate NoComma(xs: seq<string>) {
    xs == [] || (',' !in xs[0] && NoComma(xs[1..]))
  }

  lemma {:induction false} NoCommaAt(xs: seq<string>)
    requires NoComma(xs)
    ensures forall k :: 0 <= k < |xs| ==> ',' !in xs[k]
  {
    if xs != [] {
      NoCommaAt(xs[1..]);
      assert forall k :: 1 <= k < |xs| ==> xs[k] == xs[1..][k - 1];
    }
  }

  /** What parsing needs of the joined text: it is not empty, it splits back into xs, and xs is already clean. */
  lemma JoinedParts(xs: seq<string>)
    requires |xs| >= 1
    requires AllClean(xs) && NoComma(xs)
    ensures Js.Join(xs, ',') != "" && Js.Split(Js.Join(xs, ','), ',') == xs && CleanParts(xs) == xs
  {
    AllCleanAt(xs);
    NoCommaAt(xs);
    JoinStartsWith(xs, ',');
    Js.SplitJoin(xs, ',');
    CleanPartsOfClean(xs);
  }

  /** An override whose parts come out of the filter as they are is registered as those parts. */
  lemma ScheduleOfParts(v: string, xs: seq<string>)
    requires v != "" && xs != []
    requires Js.Split(v, ',') == xs && CleanParts(xs) == xs
    ensures ScheduleTimes(Some(v)) == xs
  {
  }

  lemma JoinStartsWith(xs: seq<string>, sep: char)
    requires |xs| >= 1
    ensures |xs[0]| <= |Js.Join(xs, sep)| && Js.Join(xs, sep)[..|xs[0]|] == xs[0]
  {
  }

  /** An unset or empty override, or one with only blank parts, falls back to the five defaults. */
  lemma ScheduleFallback(override: Option<string>)
    ensures !Js.Truthy(override) ==> ScheduleTimes(override) == DefaultSchedule
    ensures Js.Truthy(override) && AllBlank(Js.Split(override.value, ',')) ==>
      ScheduleTimes(override) == DefaultSchedule
    ensures Js.Truthy(override) && !AllBlank(Js.Split(override.value, ',')) ==>
      ScheduleTimes(override) == CleanParts(Js.Split(override.value, ','))
  {
    if Js.Truthy(override) {
      CleanPartsEmpty(Js.Split(override.value, ','));
    }
  }
}
