/**
 * The admin routes' arithmetic: the pagination helper shared by the post
 * lists, the paging of /logs, the number of pages, the per-account statistics
 * of the dashboard (the $group over posts followed by $sort on total
 * descending) and the processed counts by media type.
 *
 * A query parameter is the string the request carried, or None when it is
 * absent; parseInt of an absent value is NaN, as is parseInt of a string
 * without leading digits.
 */
module Admin {
  import opened Wrappers
  import Js
  import opened Models

  const DefaultLimit: int := 10
  const DefaultLogsLimit: int := 20
  const MaxLimit: int := 100

  /** parseInt(q, 10) || fallback: NaN and 0 are falsy. */
  function IntOr(q: Option<string>, fallback: int): (v: int)
    ensures v != 0 || fallback == 0
    ensures q.Some? && Js.ParseInt(q.value).Some? && Js.ParseInt(q.value).value != 0 ==> v == Js.ParseInt(q.value).value
    ensures q.None? || Js.ParseInt(q.value).None? || Js.ParseInt(q.value) == Some(0) ==> v == fallback
  {
    if q.None? then fallback
    else match Js.ParseInt(q.value)
      case None => fallback
      case Some(n) => if n == 0 then fallback else n
  }

  datatype Paging = Paging(page: int, limit: int, skip: int)

  /** buildPagination: page || 1, min(limit || 10, 100), skip = (page - 1) * limit. */
  function BuildPagination(pageQ: Option<string>, limitQ: Option<string>): (p: Paging)
    ensures p.page != 0 && p.limit != 0 && p.limit <= MaxLimit
    ensures p.skip == (p.page - 1) * p.limit
  {
    var page := IntOr(pageQ, 1);
    var limit := Js.Min(IntOr(limitQ, DefaultLimit), MaxLimit);
    Paging(page, limit, (page - 1) * limit)
  }

  /** A parsable non-zero page and limit up to 100 are kept as they are, negative ones included. */
  lemma PaginationKeepsRequest(pageQ: string, limitQ: string)
    requires Js.ParseInt(pageQ).Some? && Js.ParseInt(pageQ).value != 0
    requires Js.ParseInt(limitQ).Some? && Js.ParseInt(limitQ).value != 0
    ensures var p := BuildPagination(Some(pageQ), Some(limitQ));
      && p.page == Js.ParseInt(pageQ).value
      && p.limit == (if Js.ParseInt(limitQ).value <= MaxLimit then Js.ParseInt(limitQ).value else MaxLimit)
  {
  }

  /** An absent, unparsable or zero page is 1; the same limit is 10. */
  lemma PaginationDefaults(pageQ: Option<string>, limitQ: Option<string>)
    requires pageQ.None? || Js.ParseInt(pageQ.value).None? || Js.ParseInt(pageQ.value) == Some(0)
    requires limitQ.None? || Js.ParseInt(limitQ.value).None? || Js.ParseInt(limitQ.value) == Some(0)
    ensures BuildPagination(pageQ, limitQ) == Paging(1, DefaultLimit, 0)
  {
  }

  /** /logs: max(page || 1, 1) and min(limit || 20, 100). */
  function LogsPagination(pageQ: Option<string>, limitQ: Option<string>): (p: Paging)
    ensures p.page >= 1 && p.limit != 0 && p.limit <= MaxLimit
    ensures p.skip == (p.page - 1) * p.limit && p.skip * p.limit >= 0
  {
    var page := Js.Max(IntOr(pageQ, 1), 1);
    var limit := Js.Min(IntOr(limitQ, DefaultLogsLimit), MaxLimit);
    NonNegativeSquareFactor(page - 1, limit);
    Paging(page, limit, (page - 1) * limit)
  }

  lemma NonNegativeSquareFactor(x: int, y: int)
    requires x >= 0
    ensures (x * y) * y >= 0
  {
    assert (x * y) * y == x * (y * y);
  }

  /** Without a limit the logs come 20 to a page. */
  lemma LogsDefaultLimit(pageQ: Option<string>)
    ensures LogsPagination(pageQ, None).limit == DefaultLogsLimit
  {
  }

  /** Math.ceil(total / limit). */
  function Pages(total: nat, limit: int): (pages: int)
    requires limit != 0
  {
    Js.CeilDiv(total, limit)
  }

  /** With a positive limit, pages is the least count of pages of limit items that holds total items. */
  lemma PagesBounds(total: nat, limit: int)
    requires limit > 0
    ensures Pages(total, limit) >= 0
    ensures (Pages(total, limit) - 1) * limit < total <= Pages(total, limit) * limit
    ensures total == 0 <==> Pages(total, limit) == 0
  {
    Js.CeilDivBounds(total, limit);
    var c := Pages(total, limit);
    SignOfFactor(c, limit);
    SignOfFactor(c - 1, limit);
  }

  /** A negative limit (which the helper lets through) gives zero or negative pages. */
  lemma PagesOfNegativeLimit(total: nat, limit: int)
    requires limit < 0
    ensures Pages(total, limit) <= 0
    ensures Pages(total, limit) * limit <= total < (Pages(total, limit) - 1) * limit
  {
    Js.CeilDivBounds(total, limit);
    var c := Pages(total, limit);
    SignOfFactor(-c + 1, -limit);
  }

  /** The sign of x * y for a positive y is the sign of x. */
  lemma SignOfFactor(x: int, y: int)
    requires y > 0
    ensures x * y >= 0 <==> x >= 0
    ensures x * y > 0 <==> x > 0
  {
    if x > 0 {
      assert x * y >= y;
    } else if x < 0 {
      assert x * y <= -y;
    }
  }

  // ---------------------------------------------------------------------------
  // Per-account statistics
  // ---------------------------------------------------------------------------

  /** One row of the $group: the account, its post count by status, and its latest createdAt. */
  datatype Row = Row(account: string, total: nat, pending: nat, posted: nat, lastCreatedAt: int)

  function NewRow(p: Post): Row {
    Row(p.account, 1, if p.status == Pending then 1 else 0, if p.status == Posted then 1 else 0, p.createdAt)
  }

  function Bump(r: Row, p: Post): Row {
    Row(r.account, r.total + 1,
        r.pending + (if p.status == Pending then 1 else 0),
        r.posted + (if p.status == Posted then 1 else 0),
        Js.Max(r.lastCreatedAt, p.createdAt))
  }

  /** The index of the row of an account, if there is one. */
  function RowOf(rows: seq<Row>, account: string): (r: Option<nat>)
    ensures r.Some? ==> r.value < |rows| && rows[r.value].account == account
    ensures r.None? ==> forall i :: 0 <= i < |rows| ==> rows[i].account != account
  {
    if rows == [] then None
    else if rows[|rows| - 1].account == account then Some(|rows| - 1)
    else RowOf(rows[..|rows| - 1], account)
  }

  /** Fold one post into the rows: bump its account's row, or open one. */
  function AddPost(rows: seq<Row>, p: Post): seq<Row> {
    match RowOf(rows, p.account)
    case Some(i) => rows[i := Bump(rows[i], p)]
    case None => rows + [NewRow(p)]
  }

  /** The $group stage as a fold over the posts, rows in order of first appearance. */
  function Aggregate(posts: seq<Post>): seq<Row> {
    if posts == [] then [] else AddPost(Aggregate(posts[..|posts| - 1]), posts[|posts| - 1])
  }

  /** The reference counts: the account's posts, and those with a given status. */
  function CountFor(posts: seq<Post>, account: string): nat {
    if posts == [] then 0
    else CountFor(posts[..|posts| - 1], account) + (if posts[|posts| - 1].account == account then 1 else 0)
  }

  function CountStatus(posts: seq<Post>, account: string, status: PostStatus): nat {
    if posts == [] then 0
    else
      var p := posts[|posts| - 1];
      CountStatus(posts[..|posts| - 1], account, status) + (if p.account == account && p.status == status then 1 else 0)
  }

  /** The latest createdAt of the account's posts, if it has any. */
  function LastCreated(posts: seq<Post>, account: string): Option<int> {
    if posts == [] then None
    else
      var p := posts[|posts| - 1];
      var before := LastCreated(posts[..|posts| - 1], account);
      if p.account != account then before
      else if before.None? then Some(p.createdAt)
      else Some(Js.Max(before.value, p.createdAt))
  }

  /** The row the $group computes for an account. */
  predicate RowMatches(posts: seq<Post>, r: Row) {
    && r.total == CountFor(posts, r.account)
    && r.pending == CountStatus(posts, r.account, Pending)
    && r.posted == CountStatus(posts, r.account, Posted)
    && LastCreated(posts, r.account) == Some(r.lastCreatedAt)
  }

  /** One row per account that has posts, and each row holds that account's counts. */
  lemma AggregateIsGroup(posts: seq<Post>)
    ensures var rows := Aggregate(posts);
      && (forall i :: 0 <= i < |rows| ==> RowMatches(posts, rows[i]))
      && (forall i, j :: 0 <= i < j < |rows| ==> rows[i].account != rows[j].account)
      && (forall k :: 0 <= k < |posts| ==> RowOf(rows, posts[k].account).Some?)
  {
    AggregateMatches(posts);
    AggregateDistinct(posts);
    AggregateCovers(posts);
  }

  /** Folding a post in keeps the accounts of the rows before it, and leaves its own account with a row. */
  lemma AddPostAccounts(rows: seq<Row>, p: Post)
    ensures |rows| <= |AddPost(rows, p)| <= |rows| + 1
    ensures forall i :: 0 <= i < |rows| ==> AddPost(rows, p)[i].account == rows[i].account
    ensures RowOf(AddPost(rows, p), p.account).Some?
    ensures |AddPost(rows, p)| == |rows| + 1 ==>
      AddPost(rows, p)[|rows|].account == p.account && forall i :: 0 <= i < |rows| ==> rows[i].account != p.account
  {
    var j := if RowOf(rows, p.account).Some? then RowOf(rows, p.account).value else |rows|;
    RowOfFinds(AddPost(rows, p), j);
  }

  lemma {:induction false} AggregateCovers(posts: seq<Post>)
    ensures forall k :: 0 <= k < |posts| ==> RowOf(Aggregate(posts), posts[k].account).Some?
  {
    if posts != [] {
      var init := posts[..|posts| - 1];
      var p := posts[|posts| - 1];
      AggregateCovers(init);
      var rows0 := Aggregate(init);
      var rows := Aggregate(posts);
      AddPostAccounts(rows0, p);
      forall k | 0 <= k < |init| ensures RowOf(rows, posts[k].account).Some? {
        var j := RowOf(rows0, init[k].account).value;
        RowOfFinds(rows, j);
      }
    }
  }

  /** No two rows share an account. */
  predicate DistinctAccounts(rows: seq<Row>) {
    forall i, j :: 0 <= i < j < |rows| ==> rows[i].account != rows[j].account
  }

  lemma {:induction false} AggregateDistinct(posts: seq<Post>)
    ensures DistinctAccounts(Aggregate(posts))
  {
    if posts != [] {
      var init := posts[..|posts| - 1];
      var p := posts[|posts| - 1];
      AggregateDistinct(init);
      var rows0 := Aggregate(init);
      var rows := Aggregate(posts);
      assert rows == AddPost(rows0, p);
      AddPostAccounts(rows0, p);
      forall i, j | 0 <= i < j < |rows| ensures rows[i].account != rows[j].account {
        assert rows[i].account == rows0[i].account;
        if j < |rows0| {
          assert rows[j].account == rows0[j].account;
        } else {
          assert rows[j].account == p.account;
        }
      }
    }
  }

  lemma {:induction false} AggregateMatches(posts: seq<Post>)
    ensures forall i :: 0 <= i < |Aggregate(posts)| ==> RowMatches(posts, Aggregate(posts)[i])
  {
    if posts != [] {
      var init := posts[..|posts| - 1];
      var p := posts[|posts| - 1];
      AggregateMatches(init);
      AggregateCovers(init);
      AggregateDistinct(init);
      var rows0 := Aggregate(init);
      var rows := Aggregate(posts);
      forall i | 0 <= i < |rows| ensures RowMatches(posts, rows[i]) {
        if i < |rows0| {
          assert RowMatches(init, rows0[i]);
          if RowOf(rows0, p.account) == Some(i) {
            assert rows[i] == Bump(rows0[i], p);
          } else {
            assert rows[i] == rows0[i] && rows0[i].account != p.account;
          }
        } else {
          assert RowOf(rows0, p.account).None?;
          NoRowNoPosts(init, rows0, p.account);
        }
      }
    }
  }

  lemma RowOfFinds(rows: seq<Row>, j: nat)
    requires j < |rows|
    ensures RowOf(rows, rows[j].account).Some?
  {
  }

  /** An account without a row has no posts, so its counts are zero. */
  lemma NoRowNoPosts(posts: seq<Post>, rows: seq<Row>, account: string)
    requires rows == Aggregate(posts)
    requires forall k :: 0 <= k < |posts| ==> RowOf(rows, posts[k].account).Some?
    requires RowOf(rows, account).None?
    ensures CountFor(posts, account) == 0 && LastCreated(posts, account).None?
    ensures CountStatus(posts, account, Pending) == 0 && CountStatus(posts, account, Posted) == 0
  {
    NoPostsOfAccount(posts, account);
  }

  lemma {:induction false} NoPostsOfAccount(posts: seq<Post>, account: string)
    requires forall k :: 0 <= k < |posts| ==> posts[k].account != account
    ensures CountFor(posts, account) == 0 && LastCreated(posts, account).None?
    ensures CountStatus(posts, account, Pending) == 0 && CountStatus(posts, account, Posted) == 0
  {
    if posts != [] {
      NoPostsOfAccount(posts[..|posts| - 1], account);
    }
  }

  /** A post is pending or posted, so an account's pending and posted counts add up to its total. */
  lemma {:induction false} PendingPlusPosted(posts: seq<Post>, account: string)
    ensures CountStatus(posts, account, Pending) + CountStatus(posts, account, Posted) == CountFor(posts, account)
  {
    if posts != [] {
      PendingPlusPosted(posts[..|posts| - 1], account);
    }
  }

  // ---------------------------------------------------------------------------
  // $sort: {total: -1}
  // ---------------------------------------------------------------------------

  predicate SortedByTotal(rows: seq<Row>) {
    forall i, j :: 0 <= i < j < |rows| ==> rows[i].total >= rows[j].total
  }

  /** Put r before the first row with a total no greater than its own. */
  function InsertByTotal(r: Row, sorted: seq<Row>): seq<Row> {
    if sorted == [] || sorted[0].total <= r.total then [r] + sorted
    else [sorted[0]] + InsertByTotal(r, sorted[1..])
  }

  lemma {:induction false} InsertByTotalSorted(r: Row, sorted: seq<Row>)
    requires SortedByTotal(sorted)
    ensures SortedByTotal(InsertByTotal(r, sorted))
  {
    if sorted != [] && sorted[0].total > r.total {
      var tail := sorted[1..];
      InsertByTotalSorted(r, tail);
      InsertByTotalBounded(r, tail, sorted[0].total);
    }
  }

  /** Inserting keeps every total within a bound that r and every row already keep. */
  lemma {:induction false} InsertByTotalBounded(r: Row, rows: seq<Row>, bound: int)
    requires r.total <= bound
    requires forall k :: 0 <= k < |rows| ==> rows[k].total <= bound
    ensures forall k :: 0 <= k < |InsertByTotal(r, rows)| ==> InsertByTotal(r, rows)[k].total <= bound
  {
    if rows != [] && rows[0].total > r.total {
      InsertByTotalBounded(r, rows[1..], bound);
    }
  }

  lemma {:induction false} InsertByTotalPermutes(r: Row, rows: seq<Row>)
    ensures multiset(InsertByTotal(r, rows)) == multiset(rows) + multiset{r}
  {
    if rows != [] && rows[0].total > r.total {
      assert rows == [rows[0]] + rows[1..];
      InsertByTotalPermutes(r, rows[1..]);
    }
  }

  /** The rows ordered by total, largest first. */
  function SortByTotal(rows: seq<Row>): (out: seq<Row>)
    ensures SortedByTotal(out)
    ensures multiset(out) == multiset(rows)
  {
    if rows == [] then []
    else
      assert rows == [rows[0]] + rows[1..];
      InsertByTotalSorted(rows[0], SortByTotal(rows[1..]));
      InsertByTotalPermutes(rows[0], SortByTotal(rows[1..]));
      InsertByTotal(rows[0], SortByTotal(rows[1..]))
  }

  /** perAccountAgg without the account join: grouped, then ordered by total descending. */
  function PerAccount(posts: seq<Post>): seq<Row> {
    SortByTotal(Aggregate(posts))
  }

  /**
   * Every dashboard row holds its account's counts, pending + posted = total,
   * the rows come largest total first, and there is exactly one row for every
   * account that has posts.
   */
  lemma PerAccountRows(posts: seq<Post>)
    ensures var rows := PerAccount(posts);
      && SortedByTotal(rows)
      && |rows| == |Aggregate(posts)|
      && (forall i :: 0 <= i < |rows| ==> RowMatches(posts, rows[i]) && rows[i].pending + rows[i].posted == rows[i].total)
      && (forall k :: 0 <= k < |posts| ==> exists i :: 0 <= i < |rows| && rows[i].account == posts[k].account)
  {
    var grouped := Aggregate(posts);
    var rows := PerAccount(posts);
    assert |rows| == |multiset(rows)| == |multiset(grouped)| == |grouped|;
    AggregateMatches(posts);
    forall i | 0 <= i < |rows|
      ensures RowMatches(posts, rows[i]) && rows[i].pending + rows[i].posted == rows[i].total
    {
      SortedRowFromGroup(posts, i);
      PendingPlusPosted(posts, rows[i].account);
    }
    AggregateCovers(posts);
    forall k | 0 <= k < |posts| ensures exists i :: 0 <= i < |rows| && rows[i].account == posts[k].account {
      GroupRowSorted(posts, RowOf(grouped, posts[k].account).value);
    }
  }

  /** Every sorted row is one of the grouped rows. */
  lemma SortedRowFromGroup(posts: seq<Post>, i: nat)
    requires i < |PerAccount(posts)|
    ensures exists j :: 0 <= j < |Aggregate(posts)| && Aggregate(posts)[j] == PerAccount(posts)[i]
  {
    assert PerAccount(posts)[i] in multiset(Aggregate(posts));
  }

  /** Every grouped row is one of the sorted rows. */
  lemma GroupRowSorted(posts: seq<Post>, j: nat)
    requires j < |Aggregate(posts)|
    ensures exists i :: 0 <= i < |PerAccount(posts)| && PerAccount(posts)[i] == Aggregate(posts)[j]
  {
    assert Aggregate(posts)[j] in multiset(PerAccount(posts));
  }

  // ---------------------------------------------------------------------------
  // Processed counts
  // ---------------------------------------------------------------------------

  /** countDocuments({status: {$in: ['success', 'failed']}, type}). */
  function Processed(logs: seq<UploadLog>, t: MediaType): nat {
    if logs == [] then 0
    else
      var l := logs[|logs| - 1];
      Processed(logs[..|logs| - 1], t) + (if l.status != Skipped && l.mediaType == Some(t) then 1 else 0)
  }

  /** countDocuments({status}). */
  function StatusCount(logs: seq<UploadLog>, s: LogStatus): nat {
    if logs == [] then 0
    else StatusCount(logs[..|logs| - 1], s) + (if logs[|logs| - 1].status == s then 1 else 0)
  }

  /** A skipped log is never counted as processed. */
  lemma SkippedNotProcessed(logs: seq<UploadLog>, l: UploadLog, t: MediaType)
    requires l.status == Skipped
    ensures Processed(logs + [l], t) == Processed(logs, t)
  {
    assert (logs + [l])[..|logs|] == logs;
  }

  /** When every finished log carries its post's type, images + videos processed = successes + failures. */
  lemma {:induction false} ProcessedSum(logs: seq<UploadLog>)
    requires forall k :: 0 <= k < |logs| && logs[k].status != Skipped ==> logs[k].mediaType.Some?
    ensures Processed(logs, Image) + Processed(logs, Video) == StatusCount(logs, Success) + StatusCount(logs, Failed)
  {
    if logs != [] {
      var init := logs[..|logs| - 1];
      assert forall k :: 0 <= k < |init| ==> init[k] == logs[k];
      ProcessedSum(init);
      var l := logs[|logs| - 1];
      assert l.status != Skipped ==> l.mediaType.Some?;
      if l.mediaType.Some? {
        assert l.mediaType.value.Image? || l.mediaType.value.Video?;
      }
    }
  }
}
