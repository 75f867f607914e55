/**
 The raw order sync of the WordPress plugin: a background job uploads one page of
 orders, schedules its own successor, and the last one posts a finalize message whose
 totals were carried along from job to job.
 */
module RawSync {
  import opened Wrappers

  const RAW_SYNC_CHUNK_SIZE := 100

  datatype Job = Job(syncRunId: string, page: int, pageSize: int, chunkCount: int, expectedOrderCount: int)

  type RawOrder = string

  datatype Post =
    | Chunk(index: int, chunkId: (string, int), chunkCount: Option<int>, orders: seq<RawOrder>, syncRunId: string)
    | Finalize(expectedChunkCount: int, expectedOrderCount: int, syncRunId: string)

  /** What the API client returned: which of its two parts are arrays. */
  datatype Response = Response(hasData: bool, hasError: bool)

  predicate Refused(r: Response) {
    !r.hasData && r.hasError
  }

  /** One page of wc_get_orders; None stands for a row that cannot be serialised. */
  datatype WooPage = WooPage(rows: seq<Option<RawOrder>>, totalPages: int)

  /** The store, the API and the scheduler, by page; `scheduled`: could that page's job schedule the next? */
  datatype World = World(
    hasWoo: bool,
    woo: int -> WooPage,
    chunkResponse: int -> Response,
    scheduled: int -> bool,
    finalizeResponse: Response)

  datatype PageResult = PageResult(orders: seq<RawOrder>, hasMore: bool, totalPages: int)

  function Serialized(rows: seq<Option<RawOrder>>): seq<RawOrder> {
    if rows == [] then [] else
    var init, last := Serialized(rows[..|rows| - 1]), rows[|rows| - 1];
    if last.Some? then init + [last.value] else init
  }

  function ReadPage(w: World, page: int, pageSize: int): PageResult {
    if !w.hasWoo then PageResult([], false, 0) else
    var orders, total := Serialized(w.woo(page).rows), w.woo(page).totalPages;
    PageResult(orders, if total > 0 then page < total else |orders| == pageSize, total)
  }

  function Max(a: int, b: int): int {
    if a < b then b else a
  }

  /** Everything the chain has posted so far, and the job that is scheduled next, if any. */
  datatype Chain = Chain(posts: seq<Post>, next: Option<Job>)

  /** handle_raw_sync_chunk_job: what one run of the job adds. */
  function Handle(w: World, posts: seq<Post>, job: Job): Chain {
    if job.syncRunId == "" then Chain(posts, None) else
    var page := Max(1, job.page);
    var pageSize := if 1 <= job.pageSize <= RAW_SYNC_CHUNK_SIZE then job.pageSize else RAW_SYNC_CHUNK_SIZE;
    var read := ReadPage(w, page, pageSize);
    var chunk := Chunk(page - 1, (job.syncRunId, page), if read.totalPages > 0 then Some(read.totalPages) else None,
                       read.orders, job.syncRunId);
    if Refused(w.chunkResponse(page)) then Chain(posts + [chunk], None) else
    var chunkCount := Max(0, job.chunkCount) + 1;
    var orderCount := Max(0, job.expectedOrderCount) + |read.orders|;
    if read.hasMore then
      Chain(posts + [chunk],
            if w.scheduled(page) then Some(Job(job.syncRunId, page + 1, pageSize, chunkCount, orderCount)) else None)
    else Chain(posts + [chunk] + [Finalize(chunkCount, orderCount, job.syncRunId)], None)
  }

  function FirstJob(syncRunId: string): Job {
    Job(syncRunId, 1, RAW_SYNC_CHUNK_SIZE, 0, 0)
  }

  /** The chain after the scheduler has run n jobs, each once. */
  function After(w: World, syncRunId: string, n: nat): Chain {
    if n == 0 then Chain([], Some(FirstJob(syncRunId))) else
    var before := After(w, syncRunId, n - 1);
    if before.next.Some? then Handle(w, before.posts, before.next.value) else before
  }

  // ----- what every chain keeps -----

  function Uploaded(posts: seq<Post>): nat {
    if posts == [] then 0 else
    var last := posts[|posts| - 1];
    Uploaded(posts[..|posts| - 1]) + if last.Chunk? then |last.orders| else 0
  }

  lemma UploadedMore(posts: seq<Post>, p: Post)
    ensures Uploaded(posts + [p]) == Uploaded(posts) + if p.Chunk? then |p.orders| else 0
  {
    assert (posts + [p])[..|posts|] == posts;
  }

  /** The answer carries data, or at least no error. */
  predicate Accepted(w: World, page: int) {
    w.chunkResponse(page).hasData || !w.chunkResponse(page).hasError
  }

  /** The values of the rows that can be serialised, in order. */
  function Values(rows: seq<Option<RawOrder>>): seq<RawOrder> {
    if rows == [] then []
    else (if rows[0].Some? then [rows[0].value] else []) + Values(rows[1..])
  }

  lemma {:induction false} ValuesAppend(a: seq<Option<RawOrder>>, b: seq<Option<RawOrder>>)
    ensures Values(a + b) == Values(a) + Values(b)
  {
    if a == [] {
      assert a + b == b;
    } else {
      var first := if a[0].Some? then [a[0].value] else [];
      ValuesAppend(a[1..], b);
      assert (a + b)[0] == a[0] && (a + b)[1..] == a[1..] + b;
      assert first + (Values(a[1..]) + Values(b)) == first + Values(a[1..]) + Values(b);
    }
  }

  /** Every value is there as often as its row. */
  lemma {:induction false} ValuesMember(rows: seq<Option<RawOrder>>, order: RawOrder)
    ensures multiset(Values(rows))[order] == multiset(rows)[Some(order)]
  {
    if rows == [] {
    } else {
      ValuesMember(rows[1..], order);
      assert rows == [rows[0]] + rows[1..];
    }
  }

  lemma {:induction false} SerializedIsValues(rows: seq<Option<RawOrder>>)
    ensures Serialized(rows) == Values(rows)
  {
    if rows == [] {
    } else {
      var init, last := rows[..|rows| - 1], rows[|rows| - 1];
      SerializedIsValues(init);
      ValuesAppend(init, [last]);
      assert rows == init + [last];
    }
  }

  /** What the store has on a page. */
  function OrdersOn(w: World, page: int): seq<RawOrder> {
    if w.hasWoo then Values(w.woo(page).rows) else []
  }

  /** There is more if the reported total says so or, without one, the page is full of serialisable rows. */
  predicate More(w: World, page: int) {
    w.hasWoo && if w.woo(page).totalPages > 0 then page < w.woo(page).totalPages
                else |OrdersOn(w, page)| == RAW_SYNC_CHUNK_SIZE
  }

  lemma PageIs(w: World, page: int)
    ensures ReadPage(w, page, RAW_SYNC_CHUNK_SIZE)
         == PageResult(OrdersOn(w, page), More(w, page), if w.hasWoo then w.woo(page).totalPages else 0)
  {
    SerializedIsValues(w.woo(page).rows);
  }

  /** The job for this page got its chunk accepted and its successor scheduled. */
  predicate PassedOn(w: World, page: int) {
    Accepted(w, page) && More(w, page) && w.scheduled(page)
  }

  /** The i-th chunk holds the orders of page i + 1 and says how many pages there are, if that is known. */
  predicate IsChunk(w: World, syncRunId: string, post: Post, i: int) {
    && post.Chunk? && post.index == i && post.syncRunId == syncRunId && post.chunkId == (syncRunId, i + 1)
    && post.orders == OrdersOn(w, i + 1)
    && post.chunkCount == (if w.hasWoo && w.woo(i + 1).totalPages > 0 then Some(w.woo(i + 1).totalPages) else None)
  }

  /** m chunks with indexes 0, 1, ... m - 1, each holding its page; all but the last passed on. */
  ghost predicate Uploads(w: World, syncRunId: string, posts: seq<Post>, m: nat) {
    && m <= |posts|
    && (forall i :: 0 <= i < m ==> IsChunk(w, syncRunId, posts[i], i))
    && (forall q :: 1 <= q < m ==> PassedOn(w, q))
  }

  /** Still running: every chunk so far passed on, and the next job carries their totals. */
  ghost predicate Running(w: World, syncRunId: string, c: Chain, n: nat) {
    && c.next == Some(Job(syncRunId, n + 1, RAW_SYNC_CHUNK_SIZE, n, Uploaded(c.posts)))
    && |c.posts| == n && Uploads(w, syncRunId, c.posts, n)
    && (n > 0 ==> PassedOn(w, n))
  }

  /** Stopped after page k without a finalize message: that chunk was refused or its successor not scheduled. */
  ghost predicate Broken(w: World, syncRunId: string, c: Chain, k: nat) {
    && c.next == None && k >= 1
    && |c.posts| == k && Uploads(w, syncRunId, c.posts, k)
    && (!Accepted(w, k) || (More(w, k) && !w.scheduled(k)))
  }

  /** Finished with page k: every chunk accepted, then one finalize message with their totals. */
  ghost predicate Finished(w: World, syncRunId: string, c: Chain, k: nat) {
    && c.next == None && k >= 1
    && |c.posts| == k + 1 && Uploads(w, syncRunId, c.posts, k)
    && Accepted(w, k) && !More(w, k)
    && c.posts[k] == Finalize(k, Uploaded(c.posts[..k]), syncRunId)
  }

  ghost predicate Ended(w: World, syncRunId: string, c: Chain, k: nat) {
    Broken(w, syncRunId, c, k) || Finished(w, syncRunId, c, k)
  }

  lemma UploadsMore(w: World, syncRunId: string, posts: seq<Post>, n: nat, chunk: Post)
    requires Uploads(w, syncRunId, posts, n) && |posts| == n && IsChunk(w, syncRunId, chunk, n)
    requires n > 0 ==> PassedOn(w, n)
    ensures Uploads(w, syncRunId, posts + [chunk], n + 1)
  {
  }

  /** The chunk that the job for page n + 1 uploads. */
  function ChunkFor(w: World, syncRunId: string, n: nat): (post: Post)
    ensures IsChunk(w, syncRunId, post, n)
  {
    Chunk(n, (syncRunId, n + 1),
          if w.hasWoo && w.woo(n + 1).totalPages > 0 then Some(w.woo(n + 1).totalPages) else None,
          OrdersOn(w, n + 1), syncRunId)
  }

  lemma HandleCases(w: World, syncRunId: string, posts: seq<Post>, n: nat, sum: nat)
    requires syncRunId != ""
    ensures var chunk, total := ChunkFor(w, syncRunId, n), sum + |OrdersOn(w, n + 1)|;
            Handle(w, posts, Job(syncRunId, n + 1, RAW_SYNC_CHUNK_SIZE, n, sum)) ==
              if !Accepted(w, n + 1) then Chain(posts + [chunk], None)
              else if !More(w, n + 1)
              then Chain(posts + [chunk] + [Finalize(n + 1, total, syncRunId)], None)
              else if !w.scheduled(n + 1) then Chain(posts + [chunk], None)
              else Chain(posts + [chunk], Some(Job(syncRunId, n + 2, RAW_SYNC_CHUNK_SIZE, n + 1, total)))
  {
    PageIs(w, n + 1);
  }

  lemma FinalizeAfter(w: World, syncRunId: string, posts: seq<Post>, k: nat)
    requires k >= 1 && |posts| == k && Uploads(w, syncRunId, posts, k) && Accepted(w, k) && !More(w, k)
    ensures Finished(w, syncRunId, Chain(posts + [Finalize(k, Uploaded(posts), syncRunId)], None), k)
  {
    var all := posts + [Finalize(k, Uploaded(posts), syncRunId)];
    assert all[..k] == posts;
    assert forall i :: 0 <= i < k ==> all[i] == posts[i];
  }

  lemma StepFinishes(w: World, syncRunId: string, c: Chain, n: nat)
    requires syncRunId != "" && Running(w, syncRunId, c, n) && Accepted(w, n + 1) && !More(w, n + 1)
    ensures Finished(w, syncRunId, Handle(w, c.posts, c.next.value), n + 1)
  {
    var chunk := ChunkFor(w, syncRunId, n);
    HandleCases(w, syncRunId, c.posts, n, Uploaded(c.posts));
    UploadedMore(c.posts, chunk);
    UploadsMore(w, syncRunId, c.posts, n, chunk);
    FinalizeAfter(w, syncRunId, c.posts + [chunk], n + 1);
  }

  lemma StepPassesOn(w: World, syncRunId: string, c: Chain, n: nat)
    requires syncRunId != "" && Running(w, syncRunId, c, n) && PassedOn(w, n + 1)
    ensures Running(w, syncRunId, Handle(w, c.posts, c.next.value), n + 1)
  {
    HandleCases(w, syncRunId, c.posts, n, Uploaded(c.posts));
    UploadedMore(c.posts, ChunkFor(w, syncRunId, n));
    UploadsMore(w, syncRunId, c.posts, n, ChunkFor(w, syncRunId, n));
  }

  lemma StepBreaks(w: World, syncRunId: string, c: Chain, n: nat)
    requires syncRunId != "" && Running(w, syncRunId, c, n)
    requires !Accepted(w, n + 1) || (More(w, n + 1) && !w.scheduled(n + 1))
    ensures Broken(w, syncRunId, Handle(w, c.posts, c.next.value), n + 1)
  {
    HandleCases(w, syncRunId, c.posts, n, Uploaded(c.posts));
    UploadsMore(w, syncRunId, c.posts, n, ChunkFor(w, syncRunId, n));
  }

  lemma HandleStep(w: World, syncRunId: string, c: Chain, n: nat)
    requires syncRunId != "" && Running(w, syncRunId, c, n)
    ensures var r := Handle(w, c.posts, c.next.value);
            Running(w, syncRunId, r, n + 1) || Ended(w, syncRunId, r, n + 1)
  {
    if PassedOn(w, n + 1) {
      StepPassesOn(w, syncRunId, c, n);
    } else if Accepted(w, n + 1) && !More(w, n + 1) {
      StepFinishes(w, syncRunId, c, n);
    } else {
      StepBreaks(w, syncRunId, c, n);
    }
  }

  /** After n jobs the chain runs on with the exact totals of n chunks, or has ended at some page. */
  lemma {:induction false} EveryChain(w: World, syncRunId: string, n: nat)
    requires syncRunId != ""
    ensures Running(w, syncRunId, After(w, syncRunId, n), n)
         || exists k :: 1 <= k <= n && Ended(w, syncRunId, After(w, syncRunId, n), k)
  {
    if n == 0 {
    } else {
      EveryChain(w, syncRunId, n - 1);
      var before := After(w, syncRunId, n - 1);
      if before.next.Some? {
        HandleStep(w, syncRunId, before, n - 1);
      }
    }
  }

  lemma {:induction false} RunsWhilePassedOn(w: World, syncRunId: string, n: nat)
    requires syncRunId != "" && forall q :: 1 <= q <= n ==> PassedOn(w, q)
    ensures Running(w, syncRunId, After(w, syncRunId, n), n)
  {
    if n == 0 {
    } else {
      RunsWhilePassedOn(w, syncRunId, n - 1);
      StepPassesOn(w, syncRunId, After(w, syncRunId, n - 1), n - 1);
    }
  }

  lemma FinishesIf(w: World, syncRunId: string, k: nat)
    requires syncRunId != "" && k >= 1
    requires (forall q :: 1 <= q < k ==> PassedOn(w, q)) && Accepted(w, k) && !More(w, k)
    ensures Finished(w, syncRunId, After(w, syncRunId, k), k)
  {
    var before := After(w, syncRunId, k - 1);
    RunsWhilePassedOn(w, syncRunId, k - 1);
    StepFinishes(w, syncRunId, before, k - 1);
    assert After(w, syncRunId, k) == Handle(w, before.posts, before.next.value);
  }

  /**
   Whatever the store reports, the chain finalizes at page k exactly when every earlier
   page passed on and page k was accepted as the last.
   */
  lemma FinishesIff(w: World, syncRunId: string, k: nat)
    requires syncRunId != "" && k >= 1
    ensures Finished(w, syncRunId, After(w, syncRunId, k), k)
            <==> (forall q :: 1 <= q < k ==> PassedOn(w, q)) && Accepted(w, k) && !More(w, k)
  {
    if (forall q :: 1 <= q < k ==> PassedOn(w, q)) && Accepted(w, k) && !More(w, k) {
      FinishesIf(w, syncRunId, k);
    }
  }

  ghost predicate UploadedPage(c: Chain, page: int) {
    exists i :: 0 <= i < |c.posts| && c.posts[i].Chunk? && c.posts[i].index == page - 1
  }

  lemma UploadedUpTo(w: World, syncRunId: string, c: Chain, m: nat, page: int)
    requires Uploads(w, syncRunId, c.posts, m) && page >= 1
    requires |c.posts| == m || (|c.posts| == m + 1 && c.posts[m].Finalize?)
    ensures UploadedPage(c, page) <==> page <= m
  {
    assert forall i :: 0 <= i < m ==> IsChunk(w, syncRunId, c.posts[i], i);
    if page <= m {
      assert c.posts[page - 1].index == page - 1;
    }
  }

  /** A page that can be reached after n jobs is uploaded exactly when every page before it passed on. */
  lemma UploadedIff(w: World, syncRunId: string, n: nat, page: int)
    requires syncRunId != "" && 1 <= page <= n
    ensures UploadedPage(After(w, syncRunId, n), page) <==> forall q :: 1 <= q < page ==> PassedOn(w, q)
  {
    var c := After(w, syncRunId, n);
    EveryChain(w, syncRunId, n);
    if Running(w, syncRunId, c, n) {
      UploadedUpTo(w, syncRunId, c, n, page);
    } else {
      var k :| 1 <= k <= n && Ended(w, syncRunId, c, k);
      UploadedUpTo(w, syncRunId, c, k, page);
      assert !PassedOn(w, k);
      assert forall q :: 1 <= q < k ==> PassedOn(w, q);
    }
  }

  // ----- a store that reports no number of pages -----

  /** No total is reported, and a page has at most as many rows as were asked for. */
  ghost predicate UnknownTotal(w: World) {
    w.hasWoo && forall page :: w.woo(page).totalPages <= 0 && |w.woo(page).rows| <= RAW_SYNC_CHUNK_SIZE
  }

  /** As many rows as were asked for, and every one of them can be serialised. */
  predicate FullPage(w: World, page: int) {
    var rows := w.woo(page).rows;
    |rows| == RAW_SYNC_CHUNK_SIZE && forall i :: 0 <= i < |rows| ==> rows[i].Some?
  }

  lemma {:induction false} ValuesSize(rows: seq<Option<RawOrder>>)
    ensures |Values(rows)| <= |rows|
    ensures |Values(rows)| == |rows| <==> forall i :: 0 <= i < |rows| ==> rows[i].Some?
  {
    if rows == [] {
    } else {
      ValuesSize(rows[1..]);
    }
  }

  /** Without a total, there is more exactly if the page is full and no row of it was skipped. */
  lemma MoreIffFullPage(w: World, page: int)
    requires UnknownTotal(w)
    ensures More(w, page) <==> FullPage(w, page)
  {
    ValuesSize(w.woo(page).rows);
  }

  /**
   Without a reported total a page is uploaded exactly when every page before it was
   full, accepted and able to schedule its successor, and the chain finalizes at page k
   exactly when that holds and page k is accepted but not full: one row that cannot be
   serialised makes a page the last.
   */
  lemma UnknownTotalChain(w: World, syncRunId: string, n: nat, page: int)
    requires syncRunId != "" && UnknownTotal(w) && 1 <= page <= n
    ensures UploadedPage(After(w, syncRunId, n), page)
            <==> forall q :: 1 <= q < page ==> FullPage(w, q) && Accepted(w, q) && w.scheduled(q)
    ensures Finished(w, syncRunId, After(w, syncRunId, page), page)
            <==> (forall q :: 1 <= q < page ==> FullPage(w, q) && Accepted(w, q) && w.scheduled(q))
                 && Accepted(w, page) && !FullPage(w, page)
  {
    forall q ensures PassedOn(w, q) <==> FullPage(w, q) && Accepted(w, q) && w.scheduled(q) {
      MoreIffFullPage(w, q);
    }
    MoreIffFullPage(w, page);
    UploadedIff(w, syncRunId, n, page);
    FinishesIff(w, syncRunId, page);
  }

  /** A store with one unserialisable row on a first page of full length and one order on the second. */
  function SkippingStore(skipped: nat, order: RawOrder): World {
    var first := seq(RAW_SYNC_CHUNK_SIZE, i => if i == skipped then None else Some(order));
    World(true, page => if page == 1 then WooPage(first, 0) else if page == 2 then WooPage([Some(order)], 0)
                        else WooPage([], 0),
          page => Response(true, false), page => true, Response(true, false))
  }

  /** It finalizes after its first page: the order on the second is never uploaded. */
  lemma SkippedRowEndsTheChain(skipped: nat, order: RawOrder, syncRunId: string, n: nat)
    requires skipped < RAW_SYNC_CHUNK_SIZE && syncRunId != "" && n >= 2
    ensures var w := SkippingStore(skipped, order);
            && Finished(w, syncRunId, After(w, syncRunId, 1), 1)
            && OrdersOn(w, 2) == [order] && !UploadedPage(After(w, syncRunId, n), 2)
  {
    var w := SkippingStore(skipped, order);
    assert w.woo(1).rows[skipped].None?;
    assert !FullPage(w, 1);
    assert UnknownTotal(w);
    UnknownTotalChain(w, syncRunId, n, 1);
    UnknownTotalChain(w, syncRunId, n, 2);
    var rows: seq<Option<RawOrder>> := [Some(order)];
    assert w.woo(2).rows == rows && rows[1..] == [] && Values(rows[1..]) == [];
  }

  /** Without WooCommerce one empty chunk is uploaded and, if it is accepted, the run is finalized with no orders. */
  lemma NoStoreFinalizesEmpty(w: World, syncRunId: string)
    requires syncRunId != "" && !w.hasWoo
    ensures Finished(w, syncRunId, After(w, syncRunId, 1), 1) <==> Accepted(w, 1)
    ensures OrdersOn(w, 1) == []
  {
    FinishesIff(w, syncRunId, 1);
  }

  /** A job without a run id does nothing; impossible pages, sizes and counts are brought into range. */
  lemma OddJobsAreClamped(w: World, posts: seq<Post>, job: Job)
    ensures job.syncRunId == "" ==> Handle(w, posts, job) == Chain(posts, None)
    ensures Handle(w, posts, job)
         == Handle(w, posts, Job(job.syncRunId, if job.page < 1 then 1 else job.page,
                                 if 1 <= job.pageSize <= RAW_SYNC_CHUNK_SIZE then job.pageSize
                                 else RAW_SYNC_CHUNK_SIZE,
                                 if job.chunkCount < 0 then 0 else job.chunkCount,
                                 if job.expectedOrderCount < 0 then 0 else job.expectedOrderCount))
  {
  }

  /** The job that is scheduled next goes on with the next page of the same run and size, and adds this page. */
  lemma NextJobGoesOn(w: World, posts: seq<Post>, job: Job)
    requires Handle(w, posts, job).next.Some?
    ensures var page, next := if job.page < 1 then 1 else job.page, Handle(w, posts, job).next.value;
            && next.syncRunId == job.syncRunId && next.page == page + 1
            && next.pageSize == (if 1 <= job.pageSize <= RAW_SYNC_CHUNK_SIZE then job.pageSize else RAW_SYNC_CHUNK_SIZE)
            && next.chunkCount == (if job.chunkCount < 0 then 0 else job.chunkCount) + 1
            && next.expectedOrderCount
               == (if job.expectedOrderCount < 0 then 0 else job.expectedOrderCount) + |OrdersOn(w, page)|
  {
    SerializedIsValues(w.woo(if job.page < 1 then 1 else job.page).rows);
  }

  // ----- a store that reports its number of pages -----

  ghost predicate FixedTotal(w: World, total: int) {
    w.hasWoo && total >= 1 && forall page :: w.woo(page).totalPages == total
  }

  /** Every chunk is accepted and every page but the last schedules the next. */
  predicate AllGood(w: World, total: int) {
    && (forall q :: 1 <= q <= total ==> Accepted(w, q))
    && (forall q :: 1 <= q < total ==> w.scheduled(q))
  }

  /**
   With N pages the chain is over after N jobs at the latest; it posts finalize exactly
   when every chunk was accepted and every successor scheduled, and then with N chunks
   and the number of orders they held.
   */
  lemma FixedTotalChain(w: World, syncRunId: string, total: nat)
    requires syncRunId != "" && FixedTotal(w, total)
    ensures var c := After(w, syncRunId, total);
            && c.next == None
            && (AllGood(w, total) ==> Finished(w, syncRunId, c, total))
            && (!AllGood(w, total) ==> forall i :: 0 <= i < |c.posts| ==> c.posts[i].Chunk?)
  {
    var c := After(w, syncRunId, total);
    EveryChain(w, syncRunId, total);
    assert forall q :: 1 <= q <= total ==> (More(w, q) <==> q < total);
    assert !PassedOn(w, total);
    var k :| 1 <= k <= total && Ended(w, syncRunId, c, k);
    if Finished(w, syncRunId, c, k) {
      assert k == total;
      forall q | 1 <= q <= total ensures Accepted(w, q) && (q < total ==> w.scheduled(q)) {
        assert q < total ==> PassedOn(w, q);
      }
    } else {
      assert forall i :: 0 <= i < |c.posts| ==> IsChunk(w, syncRunId, c.posts[i], i);
    }
  }

  /** A store with two pages, whatever is on them, behind a scheduler that takes nothing. */
  function UnscheduledStore(rows: int -> seq<Option<RawOrder>>): World {
    World(true, page => WooPage(rows(page), 2), page => Response(true, false), page => false, Response(true, false))
  }

  /** Every chunk is accepted, and the chain ends with no finalize message and the second page not uploaded. */
  lemma UnscheduledSuccessorEndsTheChain(rows: int -> seq<Option<RawOrder>>, syncRunId: string)
    requires syncRunId != ""
    ensures var w := UnscheduledStore(rows);
            && FixedTotal(w, 2) && (forall page :: Accepted(w, page)) && !AllGood(w, 2)
            && After(w, syncRunId, 2).next == None && !UploadedPage(After(w, syncRunId, 2), 2)
            && forall i :: 0 <= i < |After(w, syncRunId, 2).posts| ==> After(w, syncRunId, 2).posts[i].Chunk?
  {
    var w := UnscheduledStore(rows);
    assert !w.scheduled(1) && !PassedOn(w, 1);
    FixedTotalChain(w, syncRunId, 2);
    UploadedIff(w, syncRunId, 2, 2);
  }

  lemma BeforeTotal(w: World, syncRunId: string, n: nat, total: nat)
    requires syncRunId != "" && FixedTotal(w, total) && n <= total && After(w, syncRunId, n).next.Some?
    ensures n < total
    ensures After(w, syncRunId, n + 1) == Handle(w, After(w, syncRunId, n).posts, After(w, syncRunId, n).next.value)
  {
    FixedTotalChain(w, syncRunId, total);
  }

  lemma {:induction false} StaysEnded(w: World, syncRunId: string, n: nat, m: nat)
    requires n <= m && After(w, syncRunId, n).next == None
    ensures After(w, syncRunId, m) == After(w, syncRunId, n)
  {
    if n == m {
    } else {
      StaysEnded(w, syncRunId, n, m - 1);
    }
  }

  // ----- the code -----

  class Connector {
    const world: World
    var scheduledJobs: seq<Job>
    var posts: seq<Post>

    constructor (world: World)
      ensures this.world == world && scheduledJobs == [] && posts == []
    {
      this.world := world;
      scheduledJobs, posts := [], [];
    }

    method ReadWooOrdersPage(page: int, pageSize: int) returns (r: PageResult)
      ensures r == ReadPage(world, page, pageSize)
      ensures r.orders == OrdersOn(world, page)
      ensures r.hasMore <==> world.hasWoo && if r.totalPages > 0 then page < r.totalPages else |r.orders| == pageSize
    {
      if !world.hasWoo {
        return PageResult([], false, 0);
      }
      var result := world.woo(page);
      var orders: seq<RawOrder> := [];
      for i := 0 to |result.rows|
        invariant orders == Serialized(result.rows[..i])
      {
        assert result.rows[..i + 1][..i] == result.rows[..i];
        if result.rows[i].Some? {
          orders := orders + [result.rows[i].value];
        }
      }
      assert result.rows[..|result.rows|] == result.rows;
      SerializedIsValues(result.rows);
      var hasMore := if result.totalPages > 0 then page < result.totalPages else |orders| == pageSize;
      r := PageResult(orders, hasMore, result.totalPages);
    }

    method HandleRawSyncChunkJob(job: Job)
      modifies this`posts, this`scheduledJobs
      ensures var c := Handle(world, old(posts), job);
              posts == c.posts && scheduledJobs == old(scheduledJobs) + (if c.next.Some? then [c.next.value] else [])
    {
      if job.syncRunId == "" {
        return;
      }
      var page := Max(1, job.page);
      var pageSize := job.pageSize;
      if pageSize < 1 || pageSize > RAW_SYNC_CHUNK_SIZE {
        pageSize := RAW_SYNC_CHUNK_SIZE;
      }
      var chunkCount, expectedOrderCount := Max(0, job.chunkCount), Max(0, job.expectedOrderCount);
      var read := ReadWooOrdersPage(page, pageSize);
      posts := posts + [Chunk(page - 1, (job.syncRunId, page),
                              if read.totalPages > 0 then Some(read.totalPages) else None, read.orders, job.syncRunId)];
      if Refused(world.chunkResponse(page)) {
        return;
      }
      chunkCount := chunkCount + 1;
      expectedOrderCount := expectedOrderCount + |read.orders|;
      if read.hasMore {
        if world.scheduled(page) {
          scheduledJobs := scheduledJobs + [Job(job.syncRunId, page + 1, pageSize, chunkCount, expectedOrderCount)];
        }
        return;
      }
      posts := posts + [Finalize(chunkCount, expectedOrderCount, job.syncRunId)];
    }

    ghost predicate IsAt(c: Chain)
      reads this
    {
      posts == c.posts && scheduledJobs == if c.next.Some? then [c.next.value] else []
    }

    /** The scheduler runs each scheduled job once until none is left. */
    method RunScheduledJobs(syncRunId: string, ghost total: nat)
      requires syncRunId != "" && FixedTotal(world, total)
      requires scheduledJobs == [] && posts == []
      modifies this
      ensures scheduledJobs == [] && posts == After(world, syncRunId, total).posts
    {
      scheduledJobs := [FirstJob(syncRunId)];
      ghost var n := 0;
      while scheduledJobs != []
        invariant 0 <= n <= total
        invariant IsAt(After(world, syncRunId, n))
        decreases total - n
      {
        BeforeTotal(world, syncRunId, n, total);
        var job := scheduledJobs[0];
        scheduledJobs := scheduledJobs[1..];
        HandleRawSyncChunkJob(job);
        n := n + 1;
      }
      StaysEnded(world, syncRunId, n, total);
    }
  }
}
