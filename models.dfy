/**
 * The documents the services read and write: accounts, queued posts, upload
 * logs and cron runs, with the enumerations and defaults their schemas fix.
 * Identifiers (ObjectIds) are strings; dates are integer timestamps.
 */
module Models {
  import opened Wrappers

  datatype MediaType = Video | Image

  datatype PostStatus = Pending | Posted

  datatype LogStatus = Success | Failed | Skipped

  /** A post is created pending unless a status is given. */
  const DefaultPostStatus: PostStatus := Pending

  datatype Account = Account(
    id: string,
    username: string,
    igUserId: Option<string>,
    accessToken: Option<string>,
    email: Option<string>)

  datatype Post = Post(
    id: string,
    name: string,
    mediaType: MediaType,
    url: string,
    account: string,
    status: PostStatus,
    createdAt: int)

  datatype UploadLog = UploadLog(
    cronRun: Option<string>,
    account: string,
    post: Option<string>,
    mediaType: Option<MediaType>,
    status: LogStatus,
    errorReason: Option<string>,
    startedAt: int,
    endedAt: Option<int>)

  datatype Stats = Stats(totalAccountsTried: nat, success: nat, failed: nat, images: nat, videos: nat)

  /** Every counter of a new run starts at 0. */
  const ZeroStats: Stats := Stats(0, 0, 0, 0, 0)

  datatype CronRun = CronRun(id: string, cronExp: string, startedAt: int, endedAt: Option<int>, stats: Stats)
}
