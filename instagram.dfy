/**
 * The Instagram Graph API client: the requests it builds for creating a
 * media container, publishing it and asking for its status, the messages it
 * throws when a call fails, and the readiness loop that polls a container
 * until it is finished, in error, or out of time.
 *
 * Sending a request is an oracle `send: Request -> Result<data, HttpFailure>`;
 * time is abstract: the loop sees the elapsed milliseconds at each check.
 */
module Instagram {
  import opened Wrappers
  import Js
  import opened Models

  const GraphRoot: string := "https://graph.instagram.com/v21.0/"
  const PostTimeoutMs: nat := 30000
  const StatusTimeoutMs: nat := 15000
  const DefaultTimeoutMs: int := 120000
  const DefaultIntervalMs: int := 3000
  /** Node's timers run any delay below 1 or above this after 1 ms. */
  const MaxTimerMs: int := 2147483647

  const CreatePrefix: string := "IG create container failed"
  const PublishPrefix: string := "IG publish failed"
  const StatusPrefix: string := "IG status check failed"
  const ProcessingError: string := "IG container processing error"
  const NotReadyError: string := "IG container not ready before timeout"

  datatype Verb = HttpGet | HttpPost

  /** Header lists, JSON bodies of string fields and query parameters, in order. */
  type Fields = seq<(string, string)>

  /** An axios call: verb, endpoint, headers, JSON body (POST) or query parameters (GET), timeout. */
  datatype Request = Request(verb: Verb, url: string, headers: Fields, fields: Fields, timeoutMs: nat)

  /**
   * A failed axios call: the response status and the JSON text of the response
   * body when a response came back, and the error's own message.
   */
  datatype HttpFailure = HttpFailure(status: Option<int>, body: Option<string>, message: string)

  /** The value of the first field named key. */
  function Lookup(fields: Fields, key: string): Option<string> {
    if fields == [] then None
    else if fields[0].0 == key then Some(fields[0].1)
    else Lookup(fields[1..], key)
  }

  function JsonHeaders(accessToken: string): Fields {
    [("Content-Type", "application/json"), ("Authorization", "Bearer " + accessToken)]
  }

  /** A reel for a video, an image post for anything else. */
  function MediaPayload(mediaType: MediaType, sourceUrl: string, caption: string): Fields {
    if mediaType == Video then [("media_type", "REELS"), ("video_url", sourceUrl), ("caption", caption)]
    else [("image_url", sourceUrl), ("caption", caption)]
  }

  function CreateRequest(igUserId: string, accessToken: string, mediaType: MediaType, sourceUrl: string, caption: Option<string>): Request {
    Request(HttpPost, GraphRoot + igUserId + "/media", JsonHeaders(accessToken),
            MediaPayload(mediaType, sourceUrl, caption.GetOr("")), PostTimeoutMs)
  }

  function PublishRequest(igUserId: string, accessToken: string, creationId: string): Request {
    Request(HttpPost, GraphRoot + igUserId + "/media_publish", JsonHeaders(accessToken),
            [("creation_id", creationId)], PostTimeoutMs)
  }

  function StatusRequest(accessToken: string, creationId: string): Request {
    Request(HttpGet, GraphRoot + creationId, [("Authorization", "Bearer " + accessToken)],
            [("fields", "status_code")], StatusTimeoutMs)
  }

  /** The payload carries the source URL under the key of its media type, and the caption ('' when none). */
  lemma CreatePayloadFields(igUserId: string, accessToken: string, mediaType: MediaType, sourceUrl: string, caption: Option<string>)
    ensures var fields := CreateRequest(igUserId, accessToken, mediaType, sourceUrl, caption).fields;
      && (Lookup(fields, "video_url") == Some(sourceUrl) <==> mediaType == Video)
      && (Lookup(fields, "image_url") == Some(sourceUrl) <==> mediaType == Image)
      && (Lookup(fields, "media_type") == Some("REELS") <==> mediaType == Video)
      && Lookup(fields, "caption") == Some(if caption.Some? then caption.value else "")
  {
    var fields := CreateRequest(igUserId, accessToken, mediaType, sourceUrl, caption).fields;
    var text := caption.GetOr("");
    if mediaType == Video {
      assert fields == [("media_type", "REELS"), ("video_url", sourceUrl), ("caption", text)];
      assert fields[1..] == [("video_url", sourceUrl), ("caption", text)];
      assert fields[1..][1..] == [("caption", text)];
      assert fields[1..][1..][1..] == [];
      assert "media_type" != "caption" && "video_url" != "caption";
      assert "media_type" != "image_url" && "video_url" != "image_url" && "caption" != "image_url";
      assert Lookup(fields, "video_url") == Some(sourceUrl);
      assert Lookup(fields[1..][1..], "caption") == Some(text);
      assert Lookup(fields[1..], "caption") == Some(text);
      assert Lookup(fields[1..][1..], "image_url") == None;
      assert Lookup(fields[1..], "image_url") == None;
    } else {
      assert fields == [("image_url", sourceUrl), ("caption", text)];
      assert fields[1..] == [("caption", text)];
      assert fields[1..][1..] == [];
      assert "image_url" != "caption" && "image_url" != "video_url" && "caption" != "video_url";
      assert "image_url" != "media_type" && "caption" != "media_type";
      assert Lookup(fields[1..], "caption") == Some(text);
      assert Lookup(fields[1..], "video_url") == None;
      assert Lookup(fields[1..], "media_type") == None;
    }
  }

  /** Publishing sends only the creation id, to <user>/media_publish, with the bearer token. */
  lemma PublishRequestShape(igUserId: string, accessToken: string, creationId: string)
    ensures var req := PublishRequest(igUserId, accessToken, creationId);
      && req.verb == HttpPost
      && req.url == GraphRoot + igUserId + "/media_publish"
      && req.fields == [("creation_id", creationId)]
      && Lookup(req.headers, "Authorization") == Some("Bearer " + accessToken)
  {
  }

  // ---------------------------------------------------------------------------
  // Error messages
  // ---------------------------------------------------------------------------

  /** " (status N)" when the response has a (truthy) status, nothing otherwise. */
  function StatusPart(status: Option<int>): string {
    if status.Some? && status.value != 0 then " (status " + Js.IntToString(status.value) + ")" else ""
  }

  /** The serialized response body, or the transport error's message when there is no body. */
  function Detail(f: HttpFailure): string {
    if f.body.Some? then f.body.value else f.message
  }

  function FailureMessage(prefix: string, f: HttpFailure): (m: string)
    ensures |prefix| <= |m| && m[..|prefix|] == prefix
  {
    prefix + StatusPart(f.status) + ": " + Detail(f)
  }

  /** The status code a failure message reports can be read back from it; without one, the prefix is followed by ': '. */
  lemma FailureMessageStatus(prefix: string, f: HttpFailure)
    ensures var m := FailureMessage(prefix, f);
      if f.status.Some? && f.status.value != 0 then
        && m[|prefix|..|prefix| + 9] == " (status "
        && Js.ParseInt(m[|prefix| + 9..]) == Some(f.status.value)
      else
        m == prefix + ": " + Detail(f)
  {
    var m := FailureMessage(prefix, f);
    if f.status.Some? && f.status.value != 0 {
      var pre := prefix + " (status ";
      var digits := Js.IntToString(f.status.value);
      var tail := ")" + ": " + Detail(f);
      assert m == pre + (digits + tail);
      Js.SplitAt(m, pre, digits + tail);
      Js.NumberAt(m, |pre|, f.status.value, tail);
    }
  }

  // ---------------------------------------------------------------------------
  // The three calls
  // ---------------------------------------------------------------------------

  /** POST <user>/media; the container id on success. */
  function CreateMediaContainer(igUserId: string, accessToken: string, mediaType: MediaType, sourceUrl: string,
                                caption: Option<string>, send: Request -> Result<string, HttpFailure>): (r: Result<string, string>)
    ensures var reply := send(CreateRequest(igUserId, accessToken, mediaType, sourceUrl, caption));
      && (r.Ok? <==> reply.Ok?)
      && (r.Ok? ==> r.value == reply.value)
      && (r.Err? ==> r.error == FailureMessage(CreatePrefix, reply.error))
  {
    match send(CreateRequest(igUserId, accessToken, mediaType, sourceUrl, caption))
    case Ok(id) => Ok(id)
    case Err(f) => Err(FailureMessage(CreatePrefix, f))
  }

  /** POST <user>/media_publish; the published media id on success. */
  function PublishContainer(igUserId: string, accessToken: string, creationId: string,
                            send: Request -> Result<string, HttpFailure>): (r: Result<string, string>)
    ensures var reply := send(PublishRequest(igUserId, accessToken, creationId));
      && (r.Ok? <==> reply.Ok?)
      && (r.Ok? ==> r.value == reply.value)
      && (r.Err? ==> r.error == FailureMessage(PublishPrefix, reply.error))
  {
    match send(PublishRequest(igUserId, accessToken, creationId))
    case Ok(id) => Ok(id)
    case Err(f) => Err(FailureMessage(PublishPrefix, f))
  }

  /** The reply to a status request: the response's status_code field, if it has one. */
  type StatusReply = Result<Option<string>, HttpFailure>

  /** GET <container>?fields=status_code; a missing or empty status_code reads as 'UNKNOWN'. */
  function GetContainerStatus(reply: StatusReply): (r: Result<string, string>)
    ensures r.Ok? ==> r.value != ""
    ensures r.Ok? && reply.Ok? && reply.value.Some? && reply.value.value != "" ==> r.value == reply.value.value
    ensures reply.Ok? && (reply.value.None? || reply.value.value == "") ==> r == Ok("UNKNOWN")
    ensures reply.Err? ==> r == Err(FailureMessage(StatusPrefix, reply.error))
  {
    match reply
    case Err(f) => Err(FailureMessage(StatusPrefix, f))
    case Ok(code) => Ok(if code.None? || code.value == "" then "UNKNOWN" else code.value)
  }

  // ---------------------------------------------------------------------------
  // Waiting for a container to be ready
  // ---------------------------------------------------------------------------

  predicate IsReady(status: string) {
    status == "FINISHED" || status == "READY"
  }

  /** How long setTimeout(r, intervalMs) sleeps at least: Node runs delays outside [1, 2^31 - 1] after 1 ms. */
  function SleepMs(intervalMs: int): (d: nat)
    ensures d >= 1
    ensures 1 <= intervalMs <= MaxTimerMs ==> d == intervalMs
  {
    if intervalMs < 1 || intervalMs > MaxTimerMs then 1 else intervalMs
  }

  /**
   * The elapsed time seen at the n-th check of the loop: elapsed0 at the first
   * check, then each retry adds the sleep and lag(k) more (the status call's
   * own duration and the timer's lateness).
   */
  function Elapsed(elapsed0: nat, intervalMs: int, lag: nat -> nat, n: nat): (e: int)
    ensures e >= elapsed0 + n
  {
    if n == 0 then elapsed0 else Elapsed(elapsed0, intervalMs, lag, n - 1) + SleepMs(intervalMs) + lag(n - 1)
  }

  /** The k-th status poll came back with a status that is neither ready nor ERROR. */
  predicate KeepsPolling(reply: StatusReply) {
    var s := GetContainerStatus(reply);
    s.Ok? && !IsReady(s.value) && s.value != "ERROR"
  }

  /**
   * What the loop returns from its n-th check on, and how many polls it will
   * have made: ready status, the status call's error, the processing error,
   * or the timeout once the elapsed time reaches timeoutMs.
   */
  function WaitFrom(accessToken: string, creationId: string, timeoutMs: int, intervalMs: int,
                    elapsed0: nat, lag: nat -> nat, poll: (Request, nat) -> StatusReply, n: nat): (Result<string, string>, nat)
    decreases timeoutMs - Elapsed(elapsed0, intervalMs, lag, n)
  {
    if Elapsed(elapsed0, intervalMs, lag, n) >= timeoutMs then (Err(NotReadyError), n)
    else
      match GetContainerStatus(poll(StatusRequest(accessToken, creationId), n))
      case Err(m) => (Err(m), n + 1)
      case Ok(s) =>
        if IsReady(s) then (Ok(s), n + 1)
        else if s == "ERROR" then (Err(ProcessingError), n + 1)
        else WaitFrom(accessToken, creationId, timeoutMs, intervalMs, elapsed0, lag, poll, n + 1)
  }

  /**
   * The outcome of the wait is decided by its last poll, or by the clock: a
   * ready status is the last status read, ERROR is the last status read, and
   * the timeout error means the clock ran out after a poll that asked to keep
   * waiting (or before any poll).
   */
  lemma {:induction false} WaitOutcome(accessToken: string, creationId: string, timeoutMs: int, intervalMs: int,
                                       elapsed0: nat, lag: nat -> nat, poll: (Request, nat) -> StatusReply, n: nat)
    requires n == 0 || KeepsPolling(poll(StatusRequest(accessToken, creationId), n - 1))
    ensures var (r, polls) := WaitFrom(accessToken, creationId, timeoutMs, intervalMs, elapsed0, lag, poll, n);
      && polls >= n
      && (r.Ok? ==>
            polls >= 1 && IsReady(r.value)
            && GetContainerStatus(poll(StatusRequest(accessToken, creationId), polls - 1)) == Ok(r.value))
      && (r == Err(ProcessingError) ==>
            polls >= 1 && GetContainerStatus(poll(StatusRequest(accessToken, creationId), polls - 1)) == Ok("ERROR"))
      && (r == Err(NotReadyError) ==>
            Elapsed(elapsed0, intervalMs, lag, polls) >= timeoutMs
            && (polls >= 1 ==> KeepsPolling(poll(StatusRequest(accessToken, creationId), polls - 1))))
    decreases timeoutMs - Elapsed(elapsed0, intervalMs, lag, n)
  {
    if Elapsed(elapsed0, intervalMs, lag, n) < timeoutMs {
      var reply := poll(StatusRequest(accessToken, creationId), n);
      match GetContainerStatus(reply)
      case Err(m) =>
        StatusErrorIsDistinct(reply.error);
      case Ok(s) =>
        if !IsReady(s) && s != "ERROR" {
          WaitOutcome(accessToken, creationId, timeoutMs, intervalMs, elapsed0, lag, poll, n + 1);
        }
    }
  }

  /** k checks that each happened before the timeout leave room for at most ceil(timeoutMs / intervalMs) polls. */
  lemma PollCountBound(k: nat, intervalMs: int, timeoutMs: int)
    requires intervalMs >= 1
    requires k * intervalMs < timeoutMs
    ensures k + 1 <= Js.CeilDiv(timeoutMs, intervalMs)
  {
    Js.CeilDivBounds(timeoutMs, intervalMs);
    var c := Js.CeilDiv(timeoutMs, intervalMs);
    assert (c - k) * intervalMs == c * intervalMs - k * intervalMs;
    PositiveFactor(c - k, intervalMs);
  }

  lemma PositiveFactor(x: int, y: int)
    requires y > 0 && x * y > 0
    ensures x > 0
  {
  }

  /** A failed status call never reads as the loop's own two errors. */
  lemma StatusErrorIsDistinct(f: HttpFailure)
    ensures FailureMessage(StatusPrefix, f) != ProcessingError
    ensures FailureMessage(StatusPrefix, f) != NotReadyError
  {
    var m := FailureMessage(StatusPrefix, f);
    assert m[3] == StatusPrefix[3] == 's';
    assert ProcessingError[3] == 'c' && NotReadyError[3] == 'c';
  }

  /** A failure message names the call that failed: no create, publish or status message equals another kind. */
  lemma FailureMessagesIdentifyCall(f: HttpFailure, g: HttpFailure)
    ensures FailureMessage(CreatePrefix, f) != FailureMessage(PublishPrefix, g)
    ensures FailureMessage(CreatePrefix, f) != FailureMessage(StatusPrefix, g)
    ensures FailureMessage(PublishPrefix, f) != FailureMessage(StatusPrefix, g)
  {
    assert FailureMessage(CreatePrefix, f)[3] == CreatePrefix[3] == 'c';
    assert FailureMessage(PublishPrefix, f)[3] == PublishPrefix[3] == 'p';
    assert FailureMessage(PublishPrefix, g)[3] == PublishPrefix[3];
    assert FailureMessage(StatusPrefix, g)[3] == StatusPrefix[3] == 's';
  }

  lemma {:induction false} ElapsedAtLeast(elapsed0: nat, intervalMs: int, lag: nat -> nat, n: nat)
    ensures Elapsed(elapsed0, intervalMs, lag, n) >= n * SleepMs(intervalMs)
  {
    if n > 0 {
      ElapsedAtLeast(elapsed0, intervalMs, lag, n - 1);
      assert n * SleepMs(intervalMs) == (n - 1) * SleepMs(intervalMs) + SleepMs(intervalMs);
    }
  }

  /** A poll made before the timeout is within ceil(timeoutMs / intervalMs) polls. */
  lemma PollBeforeTimeoutBound(elapsed0: nat, intervalMs: int, lag: nat -> nat, n: nat, timeoutMs: int)
    requires 1 <= intervalMs <= MaxTimerMs
    requires Elapsed(elapsed0, intervalMs, lag, n) < timeoutMs
    ensures n + 1 <= Js.CeilDiv(timeoutMs, intervalMs)
  {
    ElapsedAtLeast(elapsed0, intervalMs, lag, n);
    PollCountBound(n, intervalMs, timeoutMs);
  }

  /** One check of the loop: a poll before the timeout either ends the wait or leaves it to the next check. */
  lemma WaitStep(accessToken: string, creationId: string, timeoutMs: int, intervalMs: int,
                 elapsed0: nat, lag: nat -> nat, poll: (Request, nat) -> StatusReply, n: nat)
    requires Elapsed(elapsed0, intervalMs, lag, n) < timeoutMs
    ensures var reply := poll(StatusRequest(accessToken, creationId), n);
      var status := GetContainerStatus(reply);
      var w := WaitFrom(accessToken, creationId, timeoutMs, intervalMs, elapsed0, lag, poll, n);
      && (status.Err? ==> w == (Err(status.error), n + 1))
      && (status.Ok? && IsReady(status.value) ==> w == (Ok(status.value), n + 1))
      && (status == Ok("ERROR") ==> w == (Err(ProcessingError), n + 1))
      && (KeepsPolling(reply) ==> w == WaitFrom(accessToken, creationId, timeoutMs, intervalMs, elapsed0, lag, poll, n + 1))
  {
  }

  /** From the n-th check on, every poll is made before the timeout and every poll but the last asked to keep waiting. */
  lemma {:induction false} WaitPolls(accessToken: string, creationId: string, timeoutMs: int, intervalMs: int,
                                     elapsed0: nat, lag: nat -> nat, poll: (Request, nat) -> StatusReply, n: nat)
    ensures var polls := WaitFrom(accessToken, creationId, timeoutMs, intervalMs, elapsed0, lag, poll, n).1;
      && polls >= n
      && (forall k :: n <= k < polls ==> Elapsed(elapsed0, intervalMs, lag, k) < timeoutMs)
      && (forall k :: n <= k < polls - 1 ==> KeepsPolling(poll(StatusRequest(accessToken, creationId), k)))
    decreases timeoutMs - Elapsed(elapsed0, intervalMs, lag, n)
  {
    if Elapsed(elapsed0, intervalMs, lag, n) < timeoutMs {
      var reply := poll(StatusRequest(accessToken, creationId), n);
      WaitStep(accessToken, creationId, timeoutMs, intervalMs, elapsed0, lag, poll, n);
      if KeepsPolling(reply) {
        WaitPolls(accessToken, creationId, timeoutMs, intervalMs, elapsed0, lag, poll, n + 1);
      }
    }
  }

  /** A clock that advances by at least the interval per retry bounds the number of polls by ceil(timeoutMs / intervalMs). */
  lemma WaitPollBound(accessToken: string, creationId: string, timeoutMs: int, intervalMs: int,
                      elapsed0: nat, lag: nat -> nat, poll: (Request, nat) -> StatusReply)
    requires 1 <= intervalMs <= MaxTimerMs && timeoutMs > 0
    ensures WaitFrom(accessToken, creationId, timeoutMs, intervalMs, elapsed0, lag, poll, 0).1 <= Js.CeilDiv(timeoutMs, intervalMs)
  {
    var polls := WaitFrom(accessToken, creationId, timeoutMs, intervalMs, elapsed0, lag, poll, 0).1;
    WaitPolls(accessToken, creationId, timeoutMs, intervalMs, elapsed0, lag, poll, 0);
    if polls >= 1 {
      PollBeforeTimeoutBound(elapsed0, intervalMs, lag, polls - 1, timeoutMs);
    } else {
      Js.CeilDivBounds(timeoutMs, intervalMs);
      SignOfCeil(Js.CeilDiv(timeoutMs, intervalMs), intervalMs);
    }
  }

  lemma SignOfCeil(c: int, y: int)
    requires y > 0 && c * y > 0
    ensures c >= 0
  {
  }

  /**
   * waitForContainerReady: check the elapsed time, poll, return on a ready
   * status, throw on ERROR, otherwise sleep intervalMs and check again; throw
   * the timeout error once timeoutMs has elapsed.
   */
  method WaitForContainerReady(accessToken: string, creationId: string, timeoutMs: int, intervalMs: int,
                               elapsed0: nat, lag: nat -> nat, poll: (Request, nat) -> StatusReply)
    returns (r: Result<string, string>, polls: nat)
    ensures (r, polls) == WaitFrom(accessToken, creationId, timeoutMs, intervalMs, elapsed0, lag, poll, 0)
    // every poll is made before the timeout, and every poll but the last asked to keep waiting
    ensures forall k :: 0 <= k < polls ==> Elapsed(elapsed0, intervalMs, lag, k) < timeoutMs
    ensures forall k :: 0 <= k < polls - 1 ==> KeepsPolling(poll(StatusRequest(accessToken, creationId), k))
    // with no time budget the loop throws without polling
    ensures timeoutMs <= elapsed0 ==> polls == 0 && r == Err(NotReadyError)
    // a clock that advances by the interval per retry bounds the number of polls
    ensures 1 <= intervalMs <= MaxTimerMs && timeoutMs > 0 ==> polls <= Js.CeilDiv(timeoutMs, intervalMs)
  {
    var request := StatusRequest(accessToken, creationId);
    ghost var outcome := WaitFrom(accessToken, creationId, timeoutMs, intervalMs, elapsed0, lag, poll, 0);
    WaitPolls(accessToken, creationId, timeoutMs, intervalMs, elapsed0, lag, poll, 0);
    if 1 <= intervalMs <= MaxTimerMs && timeoutMs > 0 {
      WaitPollBound(accessToken, creationId, timeoutMs, intervalMs, elapsed0, lag, poll);
    }
    var elapsed: int := elapsed0;
    polls := 0;
    while elapsed < timeoutMs
      invariant elapsed == Elapsed(elapsed0, intervalMs, lag, polls)
      invariant WaitFrom(accessToken, creationId, timeoutMs, intervalMs, elapsed0, lag, poll, polls) == outcome
      decreases timeoutMs - elapsed
    {
      WaitStep(accessToken, creationId, timeoutMs, intervalMs, elapsed0, lag, poll, polls);
      var status := GetContainerStatus(poll(request, polls));
      if status.Err? {
        return Err(status.error), polls + 1;
      }
      if IsReady(status.value) {
        return Ok(status.value), polls + 1;
      }
      if status.value == "ERROR" {
        return Err(ProcessingError), polls + 1;
      }
      elapsed := elapsed + SleepMs(intervalMs) + lag(polls);
      polls := polls + 1;
    }
    r := Err(NotReadyError);
  }
}
