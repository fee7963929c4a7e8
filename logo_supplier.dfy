/**
 * MessageBusLogoSupplier: the tracker of logo requests sent to the host.
 * At most two requests are in flight; further ones wait in a FIFO queue
 * and are dispatched one at a time once nothing is in flight.  While its
 * mutex can be taken, every request ends in at most one callback: the host's
 * response, a timeout, a low-memory rejection or the shutdown.  A low-memory
 * rejection returns with the mutex still held (`lockLeaked`), and from then on
 * every guarded operation gives up, so the requests still tracked are never
 * answered; `RequestLogoReleasing` is the intended behaviour.
 *
 * The clock (`millis`) is the parameter `now`, the free heap the parameter
 * `freeHeap`; the request id `createAssetRequest` makes is the parameter
 * `requestId`.  Callbacks are numbers, and invoking one is recorded as a
 * `Reply`; a request put on the message bus is recorded in `sent`.
 */
module LogoSupplier {
  import opened Wrappers
  import opened Bits
  import opened StringOrder
  import Messages

  const DEFAULT_REQUEST_TIMEOUT_MS: nat := 30000
  const DEFAULT_MAX_CONCURRENT: nat := 1
  /** Below this much free heap a request is rejected. */
  const MIN_FREE_HEAP: nat := 32768
  /** With fewer requests than this in flight, a new one is sent at once. */
  const IMMEDIATE_SEND_LIMIT: nat := 2

  const INSUFFICIENT_MEMORY := "Insufficient memory"
  const TIMED_OUT := "Request timed out"
  const SHUTTING_DOWN := "Service shutting down"

  /** An asset request as put on the message bus. */
  datatype AssetRequest = AssetRequest(requestId: string, processName: string)

  /**
   * The part of an AssetResponse the tracker reads or writes; `assetData`
   * is the decoded logo (hasAssetData, assetData and assetDataSize).
   */
  datatype AssetResponse = AssetResponse(
    success: bool, processName: string, requestId: string, errorMessage: string,
    assetData: Option<seq<byte>>, width: uint16, height: uint16, format: string)

  /** createAssetResponse for a failure: no data, and the struct's default metadata. */
  function Failed(processName: string, requestId: string, error: string): AssetResponse
  {
    AssetResponse(false, processName, requestId, error, None, 0, 0, "bin")
  }

  /** One call of LogoManager::saveLogo with a logo's name and binary data. */
  datatype LogoSave = LogoSave(processName: string, data: seq<byte>)

  /** The largest decoded asset onAssetResponse accepts (100 KB). */
  const MAX_DECODED_SIZE: nat := 100000

  /** `(encodedLen * 3) / 4`: the buffer onAssetResponse allocates for the decoded asset. */
  function DecodedSize(encodedLen: nat): nat
  {
    (encodedLen * 3) / 4
  }

  /** onAssetResponse decodes only a successful response with data whose buffer is non-empty and within the cap. */
  predicate DecodeAttempted(asset: Messages.AssetFields)
  {
    asset.success && |asset.assetDataBase64| > 0 &&
    0 < DecodedSize(|asset.assetDataBase64|) <= MAX_DECODED_SIZE
  }

  /**
   * A decode is attempted exactly for a successful response with two to
   * 133334 base64 characters; a C string held in the 2048-byte message
   * buffer never reaches the cap, so there the condition is only "at least two".
   */
  lemma DecodeBounds(asset: Messages.AssetFields)
    ensures DecodeAttempted(asset) <==>
      asset.success && 2 <= |asset.assetDataBase64| <= 133334
    ensures |asset.assetDataBase64| < Messages.ASSET_DATA_SIZE ==>
      (DecodeAttempted(asset) <==> asset.success && 2 <= |asset.assetDataBase64|)
  {
    var n := |asset.assetDataBase64|;
    if n >= 133335 {
      assert n * 3 >= 400005;
      assert DecodedSize(n) > MAX_DECODED_SIZE;
    }
    if n <= 133334 {
      assert n * 3 <= 400002;
      assert DecodedSize(n) <= MAX_DECODED_SIZE;
    }
  }

  /**
   * The response onAssetResponse builds from the message: its id, the
   * asset's fields (width and height cut to uint16_t) and, when a decode
   * was attempted and succeeded, the decoded data.  `decoded` is what the
   * allocation and mbedtls_base64_decode produced, None when either failed.
   */
  function ResponseOf(requestId: string, asset: Messages.AssetFields, decoded: Option<seq<byte>>): (r: AssetResponse)
    ensures r.assetData.Some? <==> DecodeAttempted(asset) && decoded.Some?
    ensures r.assetData.Some? ==> r.assetData == decoded
    ensures r.success == asset.success && r.requestId == requestId && r.processName == asset.processName
    ensures r.width as int == asset.width % 0x1_0000 && r.height as int == asset.height % 0x1_0000
  {
    AssetResponse(asset.success, asset.processName, requestId, asset.errorMessage,
                  if DecodeAttempted(asset) then decoded else None,
                  asset.width % 0x1_0000, asset.height % 0x1_0000, asset.format)
  }

  /** The response carries decoded data to save (assetData set and assetDataSize > 0). */
  predicate HasData(r: AssetResponse)
  {
    r.assetData.Some? && |r.assetData.value| > 0
  }

  /** shouldSave: a successful response with data to save. */
  predicate ShouldSave(r: AssetResponse)
  {
    r.success && HasData(r)
  }

  /** One invocation of a request's callback. */
  datatype Reply = Reply(callback: nat, response: AssetResponse)

  datatype PendingRequest = PendingRequest(
    requestId: string, processName: string, callback: nat, requestTime: uint32, expired: bool)

  /** `currentTime - request.requestTime` on 32-bit unsigned longs. */
  function Elapsed(now: uint32, since: uint32): (r: uint32)
    ensures r == (now - since) % TWO32
  {
    if now >= since then now - since else now + TWO32 - since
  }

  /** A request the timeout pass expires. */
  predicate Due(p: PendingRequest, now: uint32, timeout: nat)
  {
    !p.expired && Elapsed(now, p.requestTime) > timeout
  }

  /** The failure callback for the request stored under `id`. */
  function Failure(p: PendingRequest, id: string, error: string): Reply
  {
    Reply(p.callback, Failed(p.processName, id, error))
  }

  /** One failure callback per listed request, in list order. */
  function FailAll(m: map<string, PendingRequest>, ids: seq<string>, error: string): (r: seq<Reply>)
    requires forall i :: 0 <= i < |ids| ==> ids[i] in m
    ensures |r| == |ids|
    ensures forall i :: 0 <= i < |ids| ==> r[i] == Failure(m[ids[i]], ids[i], error)
  {
    seq(|ids|, i requires 0 <= i < |ids| => Failure(m[ids[i]], ids[i], error))
  }

  lemma FailAllSnoc(m: map<string, PendingRequest>, ids: seq<string>, id: string, error: string)
    requires forall i :: 0 <= i < |ids| ==> ids[i] in m
    requires id in m
    ensures FailAll(m, ids + [id], error) == FailAll(m, ids, error) + [Failure(m[id], id, error)]
  {
    assert (ids + [id])[..|ids|] == ids;
  }

  /** Among the first `n` listed keys, those whose requests are due, in list order. */
  function DuePrefix(m: map<string, PendingRequest>, keys: seq<string>, n: nat, now: uint32, timeout: nat): (r: seq<string>)
    requires n <= |keys|
    ensures forall x :: x in r ==> x in m && Due(m[x], now, timeout)
    ensures forall j :: 0 <= j < n && keys[j] in m && Due(m[keys[j]], now, timeout) ==> keys[j] in r
    ensures |r| <= n
  {
    if n == 0 then []
    else
      var k := keys[n - 1];
      DuePrefix(m, keys, n - 1, now, timeout) + (if k in m && Due(m[k], now, timeout) then [k] else [])
  }

  /** Only listed keys are picked. */
  lemma {:induction false} DuePrefixListed(m: map<string, PendingRequest>, keys: seq<string>, n: nat, now: uint32, timeout: nat)
    requires n <= |keys|
    ensures forall x :: x in DuePrefix(m, keys, n, now, timeout) ==> exists j :: 0 <= j < n && keys[j] == x
  {
    if n > 0 {
      DuePrefixListed(m, keys, n - 1, now, timeout);
    }
  }

  /** Filtering keeps the map order. */
  lemma {:induction false} DuePrefixIncreasing(m: map<string, PendingRequest>, keys: seq<string>, n: nat, now: uint32, timeout: nat)
    requires n <= |keys| && Increasing(keys)
    ensures Increasing(DuePrefix(m, keys, n, now, timeout))
  {
    if n > 0 {
      var init := DuePrefix(m, keys, n - 1, now, timeout);
      DuePrefixIncreasing(m, keys, n - 1, now, timeout);
      DuePrefixListed(m, keys, n - 1, now, timeout);
      forall j | 0 <= j < |init| ensures Less(init[j], keys[n - 1]) {
        assert init[j] in init;
      }
    }
  }

  /** The ids the timeout pass expires: the due requests in map order. */
  ghost function DueIds(m: map<string, PendingRequest>, now: uint32, timeout: nat): (r: seq<string>)
    ensures forall x {:trigger x in r} :: x in r <==> x in m && Due(m[x], now, timeout)
  {
    var keys := Sorted(m.Keys);
    DuePrefix(m, keys, |keys|, now, timeout)
  }

  /** The expired ids come in map order, so none is listed twice. */
  lemma DueIdsInMapOrder(m: map<string, PendingRequest>, now: uint32, timeout: nat)
    ensures Increasing(DueIds(m, now, timeout)) && Distinct(DueIds(m, now, timeout))
  {
    var keys := Sorted(m.Keys);
    DuePrefixIncreasing(m, keys, |keys|, now, timeout);
    IncreasingDistinct(DueIds(m, now, timeout));
  }

  /** What is left in flight once the due requests are removed. */
  function WithoutDue(m: map<string, PendingRequest>, now: uint32, timeout: nat): (r: map<string, PendingRequest>)
    ensures forall k {:trigger k in r} :: k in r <==> k in m && !Due(m[k], now, timeout)
    ensures forall k :: k in r ==> r[k] == m[k]
  {
    map k | k in m && !Due(m[k], now, timeout) :: m[k]
  }

  /** An empty tracker has nothing due and nothing to fail at shutdown. */
  lemma EmptyTrackerQuiet(m: map<string, PendingRequest>, now: uint32, timeout: nat, error: string)
    requires m == map[]
    ensures DueIds(m, now, timeout) == []
    ensures WithoutDue(m, now, timeout) == m
    ensures FailAll(m, Sorted(m.Keys), error) == []
  {
  }

  /** Without a due request the timeout pass removes nothing. */
  lemma NothingDue(m: map<string, PendingRequest>, now: uint32, timeout: nat)
    requires DueIds(m, now, timeout) == []
    ensures WithoutDue(m, now, timeout) == m
  {
  }

  /** processNextQueuedRequest dispatches only from a non-empty queue into an empty tracker. */
  predicate Dispatches(pending: map<string, PendingRequest>, queue: seq<PendingRequest>)
  {
    queue != [] && pending == map[]
  }

  /** The requests in flight after processNextQueuedRequest. */
  function NextPending(pending: map<string, PendingRequest>, queue: seq<PendingRequest>): (r: map<string, PendingRequest>)
    ensures Dispatches(pending, queue) ==> r == map[queue[0].requestId := queue[0]]
    ensures !Dispatches(pending, queue) ==> r == pending
  {
    if Dispatches(pending, queue) then map[queue[0].requestId := queue[0]] else pending
  }

  /** The queue after processNextQueuedRequest: its front removed on a dispatch. */
  function NextQueue(pending: map<string, PendingRequest>, queue: seq<PendingRequest>): (r: seq<PendingRequest>)
    ensures Dispatches(pending, queue) ==> r == queue[1..]
    ensures !Dispatches(pending, queue) ==> r == queue
  {
    if Dispatches(pending, queue) then queue[1..] else queue
  }

  /** The bus traffic of processNextQueuedRequest: the dispatched request, if any. */
  function NextSent(pending: map<string, PendingRequest>, queue: seq<PendingRequest>): (r: seq<AssetRequest>)
    ensures |r| <= 1
    ensures Dispatches(pending, queue) ==> r == [AssetRequest(queue[0].requestId, queue[0].processName)]
    ensures !Dispatches(pending, queue) ==> r == []
  {
    if Dispatches(pending, queue) then [AssetRequest(queue[0].requestId, queue[0].processName)] else []
  }

  /** A second processNextQueuedRequest right after a first one does nothing. */
  lemma NextIdempotent(pending: map<string, PendingRequest>, queue: seq<PendingRequest>)
    ensures !Dispatches(NextPending(pending, queue), NextQueue(pending, queue))
  {
    if Dispatches(pending, queue) {
      assert queue[0].requestId in NextPending(pending, queue);
    }
  }

  /** A dispatch never removes a queued request without putting it in flight. */
  lemma DispatchConserves(pending: map<string, PendingRequest>, queue: seq<PendingRequest>)
    ensures |NextQueue(pending, queue)| + |NextSent(pending, queue)| == |queue|
    ensures Dispatches(pending, queue) ==> [queue[0]] + NextQueue(pending, queue) == queue
  {
  }

  /** Invoke the failure callback of each listed request, in list order. */
  method FailEach(m: map<string, PendingRequest>, ids: seq<string>, error: string) returns (out: seq<Reply>)
    requires forall i :: 0 <= i < |ids| ==> ids[i] in m
    ensures out == FailAll(m, ids, error)
  {
    out := [];
    var i := 0;
    while i < |ids|
      invariant 0 <= i <= |ids|
      invariant out == FailAll(m, ids[..i], error)
    {
      FailAllSnoc(m, ids[..i], ids[i], error);
      assert ids[..i + 1] == ids[..i] + [ids[i]];
      out := out + [Failure(m[ids[i]], ids[i], error)];
      i := i + 1;
    }
    assert ids[..|ids|] == ids;
  }

  /**
   * The first pass of timeoutExpiredRequests: visit the tracker in map
   * order, flag every due request expired and list its id.
   */
  method CollectExpired(m: map<string, PendingRequest>, keys: seq<string>, now: uint32, timeout: nat)
    returns (marked: map<string, PendingRequest>, expiredIds: seq<string>)
    requires Distinct(keys)
    requires forall i :: 0 <= i < |keys| ==> keys[i] in m
    ensures expiredIds == DuePrefix(m, keys, |keys|, now, timeout)
    ensures forall k :: k in marked <==> k in m
    ensures forall k :: k in marked ==> marked[k] == if k in expiredIds then m[k].(expired := true) else m[k]
  {
    marked := m;
    expiredIds := [];
    var i := 0;
    while i < |keys|
      invariant i <= |keys|
      invariant Marking(m, keys, i, now, timeout, marked, expiredIds)
    {
      marked, expiredIds := MarkIfDue(m, keys, i, now, timeout, marked, expiredIds);
      i := i + 1;
    }
  }

  /** The state of the first pass after visiting the first `i` keys. */
  ghost predicate Marking(m: map<string, PendingRequest>, keys: seq<string>, i: nat, now: uint32, timeout: nat,
                          marked: map<string, PendingRequest>, expiredIds: seq<string>)
  {
    i <= |keys| &&
    expiredIds == DuePrefix(m, keys, i, now, timeout) &&
    (forall k :: k in marked <==> k in m) &&
    (forall k :: k in marked ==> marked[k] == if k in expiredIds then m[k].(expired := true) else m[k]) &&
    (forall j :: i <= j < |keys| ==> keys[j] !in expiredIds)
  }

  /** One step of the first pass: flag the `i`-th key's request if it is due. */
  method MarkIfDue(m: map<string, PendingRequest>, keys: seq<string>, i: nat, now: uint32, timeout: nat,
                   marked: map<string, PendingRequest>, expiredIds: seq<string>)
    returns (marked': map<string, PendingRequest>, expiredIds': seq<string>)
    requires Distinct(keys) && i < |keys| && keys[i] in m
    requires Marking(m, keys, i, now, timeout, marked, expiredIds)
    ensures Marking(m, keys, i + 1, now, timeout, marked', expiredIds')
  {
    var id := keys[i];
    var request := marked[id];
    if Due(request, now, timeout) {
      marked' := marked[id := request.(expired := true)];
      expiredIds' := expiredIds + [id];
    } else {
      marked', expiredIds' := marked, expiredIds;
    }
  }

  lemma ExpiredStep(marked: map<string, PendingRequest>, ids: seq<string>, i: nat)
    requires Distinct(ids) && i < |ids|
    requires forall j :: 0 <= j < |ids| ==> ids[j] in marked
    ensures ids[..i + 1] == ids[..i] + [ids[i]]
    ensures ids[i] !in ids[..i]
    ensures FailAll(marked, ids[..i + 1], TIMED_OUT)
         == FailAll(marked, ids[..i], TIMED_OUT) + [Failure(marked[ids[i]], ids[i], TIMED_OUT)]
  {
    assert ids[..i + 1] == ids[..i] + [ids[i]];
    FailAllSnoc(marked, ids[..i], ids[i], TIMED_OUT);
  }

  /**
   * The second pass of timeoutExpiredRequests: one timeout failure per
   * listed id, in order, each request removed from the tracker.
   */
  method FailExpired(marked: map<string, PendingRequest>, expiredIds: seq<string>)
    returns (rest: map<string, PendingRequest>, out: seq<Reply>)
    requires Distinct(expiredIds)
    requires forall i :: 0 <= i < |expiredIds| ==> expiredIds[i] in marked
    ensures forall k :: k in rest <==> k in marked && k !in expiredIds
    ensures forall k :: k in rest ==> rest[k] == marked[k]
    ensures out == FailAll(marked, expiredIds, TIMED_OUT)
  {
    rest := marked;
    out := [];
    var i := 0;
    while i < |expiredIds|
      invariant 0 <= i <= |expiredIds|
      invariant forall k :: k in rest <==> k in marked && k !in expiredIds[..i]
      invariant forall k :: k in rest ==> rest[k] == marked[k]
      invariant out == FailAll(marked, expiredIds[..i], TIMED_OUT)
    {
      var id := expiredIds[i];
      ExpiredStep(marked, expiredIds, i);
      if id in rest {
        out := out + [Failure(rest[id], id, TIMED_OUT)];
        rest := rest - {id};
      }
      i := i + 1;
    }
    assert expiredIds[..|expiredIds|] == expiredIds;
  }

  /** The statistics getStatus reports: `unsigned long` counters, so each wraps at 2^32. */
  datatype Stats = Stats(requestsSubmitted: uint32, responsesReceived: uint32, requestsTimedOut: uint32,
                         requestsFailed: uint32)

  const NO_STATS := Stats(0, 0, 0, 0)

  /** `n` more requests put on the bus, one `++` each. */
  function Submitted(s: Stats, n: nat): (r: Stats)
    ensures r.requestsSubmitted == (s.requestsSubmitted + n) % TWO32
    ensures s.requestsSubmitted + n < TWO32 ==> r.requestsSubmitted == s.requestsSubmitted + n
    ensures r.(requestsSubmitted := s.requestsSubmitted) == s
  {
    s.(requestsSubmitted := (s.requestsSubmitted + n) % TWO32)
  }

  /** One more response: a success counts as received, a failure as failed. */
  function Answered(s: Stats, success: bool): (r: Stats)
    ensures success ==> r == s.(responsesReceived := Add32(s.responsesReceived, 1))
    ensures !success ==> r == s.(requestsFailed := Add32(s.requestsFailed, 1))
    ensures s.responsesReceived < TWO32 - 1 && s.requestsFailed < TWO32 - 1 ==>
      r.responsesReceived + r.requestsFailed == s.responsesReceived + s.requestsFailed + 1
    ensures r.requestsSubmitted == s.requestsSubmitted && r.requestsTimedOut == s.requestsTimedOut
  {
    if success then s.(responsesReceived := (s.responsesReceived + 1) % TWO32)
    else s.(requestsFailed := (s.requestsFailed + 1) % TWO32)
  }

  /** `n` more timeouts, one `++` each. */
  function TimedOut(s: Stats, n: nat): (r: Stats)
    ensures r.requestsTimedOut == (s.requestsTimedOut + n) % TWO32
    ensures s.requestsTimedOut + n < TWO32 ==> r.requestsTimedOut == s.requestsTimedOut + n
    ensures r.(requestsTimedOut := s.requestsTimedOut) == s
  {
    s.(requestsTimedOut := (s.requestsTimedOut + n) % TWO32)
  }

  /** Adding no submissions or timeouts leaves the counters as they are. */
  lemma NoCounts(s: Stats)
    ensures Submitted(s, 0) == s && TimedOut(s, 0) == s
  {
  }

  /** A map whose keys are all keys of another is no larger. */
  lemma SubmapSize(a: map<string, PendingRequest>, b: map<string, PendingRequest>)
    requires forall k :: k in a ==> k in b
    ensures |a| <= |b|
  {
    assert b.Keys == a.Keys + (b.Keys - a.Keys);
  }

  /** Two trackers that agree on what a failure reports give the same failures. */
  lemma FailAllAgree(m: map<string, PendingRequest>, m': map<string, PendingRequest>, ids: seq<string>, error: string)
    requires forall i :: 0 <= i < |ids| ==> ids[i] in m && ids[i] in m'
    requires forall i :: 0 <= i < |ids| ==>
      m[ids[i]].callback == m'[ids[i]].callback && m[ids[i]].processName == m'[ids[i]].processName
    ensures FailAll(m, ids, error) == FailAll(m', ids, error)
  {
  }

  /** The two passes of timeoutExpiredRequests together: the due requests fail and leave. */
  lemma TimeoutPasses(m: map<string, PendingRequest>, marked: map<string, PendingRequest>,
                      rest: map<string, PendingRequest>, ids: seq<string>, now: uint32, timeout: nat)
    requires ids == DueIds(m, now, timeout)
    requires forall k :: k in marked <==> k in m
    requires forall k :: k in marked ==> marked[k] == if k in ids then m[k].(expired := true) else m[k]
    requires forall k :: k in rest <==> k in marked && k !in ids
    requires forall k :: k in rest ==> rest[k] == marked[k]
    ensures rest == WithoutDue(m, now, timeout)
  {
    var w := WithoutDue(m, now, timeout);
    assert forall k :: k in rest <==> k in w;
    assert forall k :: k in rest ==> rest[k] == w[k];
  }

  /** Both passes of timeoutExpiredRequests over the tracker `m`. */
  method ExpireDue(m: map<string, PendingRequest>, now: uint32, timeout: nat)
    returns (rest: map<string, PendingRequest>, out: seq<Reply>, expiredIds: seq<string>)
    ensures expiredIds == DueIds(m, now, timeout)
    ensures rest == WithoutDue(m, now, timeout) && |rest| <= |m|
    ensures out == FailAll(m, expiredIds, TIMED_OUT)
  {
    var keys := MapOrder(m.Keys);
    SortedDistinct(m.Keys);
    var marked;
    marked, expiredIds := CollectExpired(m, keys, now, timeout);
    DueIdsInMapOrder(m, now, timeout);
    rest, out := FailExpired(marked, expiredIds);
    TimeoutPasses(m, marked, rest, expiredIds, now, timeout);
    FailAllAgree(marked, m, expiredIds, TIMED_OUT);
    SubmapSize(rest, m);
  }

  class MessageBusLogoSupplier {
    var initialized: bool
    var requestTimeoutMs: uint32
    var maxConcurrentRequests: nat
    /** requestId -> request, for the requests in flight. */
    var pending: map<string, PendingRequest>
    /** The requests waiting to be sent, oldest first. */
    var queue: seq<PendingRequest>
    var stats: Stats
    /** Every callback invocation so far, in call order. */
    var replies: seq<Reply>
    /** Every asset request put on the message bus, in order. */
    var sent: seq<AssetRequest>
    /**
     * The request mutex cannot be taken: a call returned while holding it, or
     * deinit deleted it.  Every guarded operation then gives up at once.
     */
    var lockLeaked: bool
    /**
     * deferredSaveQueue: copies of the responses whose logo is still to be
     * saved, oldest first.  It has its own mutex, so it works even while the
     * request mutex is held, and neither init nor deinit clears it.
     */
    var deferredSaves: seq<AssetResponse>
    /** Every saveLogo call made so far, in order. */
    var saved: seq<LogoSave>

    /** The supplier's fields are `Consistent`. */
    predicate Valid()
      reads this
    {
      Consistent(pending, queue, deferredSaves)
    }

    /** At most two requests in flight. */
    predicate WithinSendLimit()
      reads this
    {
      |pending| <= IMMEDIATE_SEND_LIMIT
    }

    constructor()
      ensures !initialized && requestTimeoutMs == DEFAULT_REQUEST_TIMEOUT_MS
      ensures maxConcurrentRequests == DEFAULT_MAX_CONCURRENT
      ensures pending == map[] && queue == [] && stats == NO_STATS && replies == [] && sent == []
      ensures !lockLeaked && deferredSaves == [] && saved == []
      ensures Valid() && WithinSendLimit()
    {
      initialized := false;
      requestTimeoutMs := DEFAULT_REQUEST_TIMEOUT_MS;
      maxConcurrentRequests := DEFAULT_MAX_CONCURRENT;
      pending := map[];
      queue := [];
      stats := NO_STATS;
      replies := [];
      sent := [];
      lockLeaked := false;
      deferredSaves := [];
      saved := [];
    }

    /**
     * init: a second call changes nothing; the first creates a fresh mutex
     * and clears the statistics and the tracker.
     */
    method Init() returns (ok: bool)
      requires Valid()
      modifies this
      ensures ok && initialized && Valid()
      ensures old(initialized) ==> unchanged(this)
      ensures !old(initialized) ==>
        pending == map[] && queue == [] && stats == NO_STATS && !lockLeaked &&
        requestTimeoutMs == old(requestTimeoutMs) && maxConcurrentRequests == old(maxConcurrentRequests) &&
        replies == old(replies) && sent == old(sent)
      ensures old(WithinSendLimit()) ==> WithinSendLimit()
      ensures deferredSaves == old(deferredSaves) && saved == old(saved)
    {
      if initialized {
        return true;
      }
      lockLeaked := false;
      stats := NO_STATS;
      pending := map[];
      queue := [];
      initialized := true;
      ok := true;
    }

    /**
     * deinit: when the mutex can be taken, every request in flight gets its
     * shutdown failure, in map order, and queued requests are dropped without
     * a callback; when it cannot, the tracker is left as it is.  Either way
     * the mutex is deleted and the supplier is uninitialised.
     */
    method Deinit()
      requires Valid()
      modifies this
      ensures Valid()
      ensures old(WithinSendLimit()) ==> WithinSendLimit()
      ensures !old(initialized) ==> unchanged(this)
      ensures old(initialized) ==>
        !initialized && lockLeaked && sent == old(sent) && requestTimeoutMs == old(requestTimeoutMs) &&
        maxConcurrentRequests == old(maxConcurrentRequests) && stats == old(stats)
      ensures old(initialized) && !old(lockLeaked) ==>
        pending == map[] && queue == [] &&
        replies == old(replies) + FailAll(old(pending), Sorted(old(pending).Keys), SHUTTING_DOWN)
      ensures old(initialized) && old(lockLeaked) ==>
        pending == old(pending) && queue == old(queue) && replies == old(replies)
      ensures deferredSaves == old(deferredSaves) && saved == old(saved)
    {
      if initialized {
        if !lockLeaked {
          var out := ShutdownFailures(pending);
          replies, pending, queue := replies + out, map[], [];
          assert |pending| == 0;
        }
        lockLeaked, initialized := true, false;
      }
    }

    /** isReady. */
    predicate IsReady()
      reads this
      ensures maxConcurrentRequests == DEFAULT_MAX_CONCURRENT ==> (IsReady() <==> initialized && pending == map[])
    {
      initialized && |pending| < maxConcurrentRequests
    }

    /** setRequestTimeout. */
    method SetRequestTimeout(timeoutMs: uint32)
      modifies this
      ensures requestTimeoutMs == timeoutMs
      ensures initialized == old(initialized) && maxConcurrentRequests == old(maxConcurrentRequests)
      ensures pending == old(pending) && queue == old(queue) && replies == old(replies) && sent == old(sent)
      ensures stats == old(stats) && lockLeaked == old(lockLeaked)
      ensures deferredSaves == old(deferredSaves) && saved == old(saved)
    {
      requestTimeoutMs := timeoutMs;
    }

    /** setMaxConcurrentRequests (read only by isReady). */
    method SetMaxConcurrentRequests(maxRequests: nat)
      modifies this
      ensures maxConcurrentRequests == maxRequests
      ensures initialized == old(initialized) && requestTimeoutMs == old(requestTimeoutMs)
      ensures pending == old(pending) && queue == old(queue) && replies == old(replies) && sent == old(sent)
      ensures stats == old(stats) && lockLeaked == old(lockLeaked)
      ensures deferredSaves == old(deferredSaves) && saved == old(saved)
    {
      maxConcurrentRequests := maxRequests;
    }

    /**
     * requestLogo as written: refused when uninitialised, a parameter is null
     * or the mutex cannot be taken; on low heap one failure callback, and the
     * call returns with the mutex still held; otherwise sent at once with
     * fewer than two in flight, else queued.
     */
    method RequestLogo(processName: Option<string>, callback: Option<nat>, requestId: string, now: uint32, freeHeap: nat)
      returns (ok: bool)
      requires Valid()
      modifies this
      ensures Valid()
      ensures old(WithinSendLimit()) ==> WithinSendLimit()
      ensures !old(initialized) || processName.None? || callback.None? || old(lockLeaked) ==> !ok && unchanged(this)
      ensures old(initialized) && processName.Some? && callback.Some? && !old(lockLeaked) ==>
        (lockLeaked <==> freeHeap < MIN_FREE_HEAP) &&
        Admitted(old(pending), old(queue), old(sent), old(stats), old(replies),
                 PendingRequest(requestId, processName.value, callback.value, now, false), freeHeap, ok)
      ensures initialized == old(initialized) && requestTimeoutMs == old(requestTimeoutMs)
      ensures maxConcurrentRequests == old(maxConcurrentRequests)
      ensures deferredSaves == old(deferredSaves) && saved == old(saved)
    {
      if !initialized || processName.None? || callback.None? || lockLeaked {
        return false;
      }
      var request := PendingRequest(requestId, processName.value, callback.value, now, false);
      if freeHeap < MIN_FREE_HEAP {
        replies := replies + [Rejection(request)];
        lockLeaked := true;
        return false;
      }
      ok := Submit(request);
    }

    /**
     * requestLogo with the release the low-heap branch evidently intends: the
     * same outcomes as RequestLogo, and the mutex is free again afterwards.
     */
    method RequestLogoReleasing(processName: Option<string>, callback: Option<nat>, requestId: string, now: uint32,
                                freeHeap: nat)
      returns (ok: bool)
      requires Valid()
      modifies this
      ensures Valid()
      ensures old(WithinSendLimit()) ==> WithinSendLimit()
      ensures lockLeaked == old(lockLeaked)
      ensures !old(initialized) || processName.None? || callback.None? || old(lockLeaked) ==> !ok && unchanged(this)
      ensures old(initialized) && processName.Some? && callback.Some? && !old(lockLeaked) ==>
        Admitted(old(pending), old(queue), old(sent), old(stats), old(replies),
                 PendingRequest(requestId, processName.value, callback.value, now, false), freeHeap, ok)
      ensures initialized == old(initialized) && requestTimeoutMs == old(requestTimeoutMs)
      ensures maxConcurrentRequests == old(maxConcurrentRequests)
      ensures deferredSaves == old(deferredSaves) && saved == old(saved)
    {
      if !initialized || processName.None? || callback.None? || lockLeaked {
        return false;
      }
      var request := PendingRequest(requestId, processName.value, callback.value, now, false);
      if freeHeap < MIN_FREE_HEAP {
        replies := replies + [Rejection(request)];
        return false;
      }
      ok := Submit(request);
    }

    /**
     * The outcome of a request that got past the checks: rejected once on
     * low heap; sent and counted with fewer than two in flight; else queued.
     */
    twostate predicate Admitted(pending0: map<string, PendingRequest>, queue0: seq<PendingRequest>,
                                sent0: seq<AssetRequest>, stats0: Stats, replies0: seq<Reply>,
                                request: PendingRequest, freeHeap: nat, ok: bool)
      reads this
    {
      if freeHeap < MIN_FREE_HEAP then
        !ok && replies == replies0 + [Rejection(request)] &&
        pending == pending0 && queue == queue0 && sent == sent0 && stats == stats0
      else if |pending0| < IMMEDIATE_SEND_LIMIT then
        ok && pending == pending0[request.requestId := request] && queue == queue0 &&
        sent == sent0 + [AssetRequest(request.requestId, request.processName)] &&
        stats == Submitted(stats0, 1) && replies == replies0
      else
        ok && queue == queue0 + [request] && pending == pending0 && sent == sent0 &&
        stats == stats0 && replies == replies0
    }

    /** The send-or-queue step of requestLogo. */
    method Submit(request: PendingRequest) returns (ok: bool)
      requires Valid() && !request.expired
      modifies this
      ensures Valid() && ok
      ensures old(WithinSendLimit()) ==> WithinSendLimit()
      ensures |old(pending)| < IMMEDIATE_SEND_LIMIT ==>
        pending == old(pending)[request.requestId := request] && queue == old(queue) &&
        sent == old(sent) + [AssetRequest(request.requestId, request.processName)] &&
        stats == Submitted(old(stats), 1)
      ensures |old(pending)| >= IMMEDIATE_SEND_LIMIT ==>
        queue == old(queue) + [request] && pending == old(pending) && sent == old(sent) && stats == old(stats)
      ensures replies == old(replies) && lockLeaked == old(lockLeaked)
      ensures initialized == old(initialized) && requestTimeoutMs == old(requestTimeoutMs)
      ensures maxConcurrentRequests == old(maxConcurrentRequests)
      ensures deferredSaves == old(deferredSaves) && saved == old(saved)
    {
      if |pending| < IMMEDIATE_SEND_LIMIT {
        pending := pending[request.requestId := request];
        SendAssetRequest(AssetRequest(request.requestId, request.processName));
        stats := Submitted(stats, 1);
      } else {
        queue := queue + [request];
      }
      ok := true;
    }

    /** sendAssetRequest: put the request on the bus; it always reports success. */
    method SendAssetRequest(request: AssetRequest)
      modifies this
      ensures sent == old(sent) + [request]
      ensures initialized == old(initialized) && requestTimeoutMs == old(requestTimeoutMs)
      ensures maxConcurrentRequests == old(maxConcurrentRequests) && lockLeaked == old(lockLeaked)
      ensures pending == old(pending) && queue == old(queue) && replies == old(replies) && stats == old(stats)
      ensures deferredSaves == old(deferredSaves) && saved == old(saved)
    {
      sent := sent + [request];
    }

    /**
     * processNextQueuedRequest, which runs with the mutex already held: with
     * nothing in flight, send the oldest queued request.
     */
    method ProcessNextQueuedRequest()
      requires Valid()
      modifies this
      ensures Valid()
      ensures old(WithinSendLimit()) ==> WithinSendLimit()
      ensures pending == NextPending(old(pending), old(queue)) && queue == NextQueue(old(pending), old(queue))
      ensures sent == old(sent) + NextSent(old(pending), old(queue))
      ensures stats == Submitted(old(stats), |NextSent(old(pending), old(queue))|)
      ensures initialized == old(initialized) && requestTimeoutMs == old(requestTimeoutMs)
      ensures maxConcurrentRequests == old(maxConcurrentRequests) && replies == old(replies)
      ensures lockLeaked == old(lockLeaked)
      ensures deferredSaves == old(deferredSaves) && saved == old(saved)
    {
      if queue == [] || pending != map[] {
        return;
      }
      var next := queue[0];
      queue := queue[1..];
      pending := pending[next.requestId := next];
      SendAssetRequest(AssetRequest(next.requestId, next.processName));
      stats := Submitted(stats, 1);
    }

    /**
     * completeRequest: nothing happens when the mutex cannot be taken or the
     * id is unknown (or already finished); otherwise the callback gets the
     * response, the request leaves the tracker, the success or failure
     * counter advances, and the next queued request may be dispatched.
     */
    method CompleteRequest(requestId: string, response: AssetResponse)
      requires Valid()
      modifies this
      ensures Valid()
      ensures old(WithinSendLimit()) ==> WithinSendLimit()
      ensures old(lockLeaked) || requestId !in old(pending) ==> unchanged(this)
      ensures !old(lockLeaked) && requestId in old(pending) ==>
        var rest := old(pending) - {requestId};
        replies == old(replies) + [Reply(old(pending)[requestId].callback, response)] &&
        pending == NextPending(rest, old(queue)) && queue == NextQueue(rest, old(queue)) &&
        sent == old(sent) + NextSent(rest, old(queue)) &&
        stats == Submitted(Answered(old(stats), response.success), |NextSent(rest, old(queue))|)
      ensures !old(lockLeaked) && requestId in old(pending) ==>
        requestId !in pending || (old(queue) != [] && old(queue)[0].requestId == requestId)
      ensures initialized == old(initialized) && requestTimeoutMs == old(requestTimeoutMs)
      ensures maxConcurrentRequests == old(maxConcurrentRequests) && lockLeaked == old(lockLeaked)
      ensures deferredSaves == old(deferredSaves) && saved == old(saved)
    {
      if lockLeaked || requestId !in pending {
        return;
      }
      replies := replies + [Reply(pending[requestId].callback, response)];
      SubmapSize(pending - {requestId}, pending);
      pending := pending - {requestId};
      stats := Answered(stats, response.success);
      ProcessNextQueuedRequest();
    }

    /** failRequest: complete the request with a failure carrying the message. */
    method FailRequest(requestId: string, errorMessage: string)
      requires Valid()
      modifies this
      ensures Valid()
      ensures old(WithinSendLimit()) ==> WithinSendLimit()
      ensures old(lockLeaked) || requestId !in old(pending) ==> unchanged(this)
      ensures !old(lockLeaked) && requestId in old(pending) ==>
        var rest := old(pending) - {requestId};
        replies == old(replies) + [Reply(old(pending)[requestId].callback, Failed("", requestId, errorMessage))] &&
        pending == NextPending(rest, old(queue)) && queue == NextQueue(rest, old(queue)) &&
        sent == old(sent) + NextSent(rest, old(queue)) &&
        stats == Submitted(Answered(old(stats), false), |NextSent(rest, old(queue))|)
      ensures initialized == old(initialized) && requestTimeoutMs == old(requestTimeoutMs)
      ensures maxConcurrentRequests == old(maxConcurrentRequests) && lockLeaked == old(lockLeaked)
      ensures deferredSaves == old(deferredSaves) && saved == old(saved)
    {
      CompleteRequest(requestId, Failed("", requestId, errorMessage));
    }

    /** Nothing but the deferred saves changes. */
    twostate predicate TrackerUnchanged()
      reads this
    {
      initialized == old(initialized) && requestTimeoutMs == old(requestTimeoutMs) &&
      maxConcurrentRequests == old(maxConcurrentRequests) && pending == old(pending) && queue == old(queue) &&
      replies == old(replies) && sent == old(sent) && stats == old(stats) && lockLeaked == old(lockLeaked)
    }

    /**
     * onAssetResponse: ignored when uninitialised or without a request id.
     * Otherwise the response is built from the message as ResponseOf says,
     * a copy is deferred for saving when shouldSave holds, and the request
     * is completed with the response (which does nothing while the request
     * mutex is held or the id is not tracked; the deferral happens anyway).
     * `decoded` is the outcome of the allocation and the base64 decode, and
     * `copyAllocated` that of deferLogoSave's allocation.
     */
    method OnAssetResponse(requestId: string, asset: Messages.AssetFields, decoded: Option<seq<byte>>,
                           copyAllocated: bool)
      requires Valid()
      modifies this
      ensures Valid()
      ensures old(WithinSendLimit()) ==> WithinSendLimit()
      ensures !old(initialized) || requestId == "" ==> unchanged(this)
      ensures old(initialized) && requestId != "" ==>
        var response := ResponseOf(requestId, asset, decoded);
        deferredSaves == old(deferredSaves) + (if ShouldSave(response) && copyAllocated then [response] else []) &&
        saved == old(saved)
      ensures old(initialized) && requestId != "" && (old(lockLeaked) || requestId !in old(pending)) ==>
        pending == old(pending) && queue == old(queue) && replies == old(replies) && sent == old(sent) &&
        stats == old(stats)
      ensures old(initialized) && !old(lockLeaked) && requestId != "" && requestId in old(pending) ==>
        var response := ResponseOf(requestId, asset, decoded);
        var rest := old(pending) - {requestId};
        replies == old(replies) + [Reply(old(pending)[requestId].callback, response)] &&
        pending == NextPending(rest, old(queue)) && queue == NextQueue(rest, old(queue)) &&
        sent == old(sent) + NextSent(rest, old(queue)) &&
        stats == Submitted(Answered(old(stats), response.success), |NextSent(rest, old(queue))|)
      ensures initialized == old(initialized) && requestTimeoutMs == old(requestTimeoutMs)
      ensures maxConcurrentRequests == old(maxConcurrentRequests) && lockLeaked == old(lockLeaked)
    {
      if !initialized || requestId == "" {
        return;
      }
      var response := ResponseOf(requestId, asset, decoded);
      if ShouldSave(response) {
        DeferLogoSave(response, copyAllocated);
      }
      CompleteRequest(requestId, response);
    }

    /**
     * deferLogoSave: while the deferred-save mutex exists (between init and
     * deinit), a response with data is copied onto the deferred queue,
     * unless allocating the copy fails.
     */
    method DeferLogoSave(response: AssetResponse, copyAllocated: bool)
      requires Valid()
      modifies this
      ensures Valid() && TrackerUnchanged() && saved == old(saved)
      ensures deferredSaves ==
        old(deferredSaves) + (if old(initialized) && HasData(response) && copyAllocated then [response] else [])
    {
      if !initialized {
        return;
      }
      if HasData(response) && copyAllocated {
        deferredSaves := deferredSaves + [response];
      }
    }

    /**
     * processDeferredSaves: while the deferred-save mutex exists and a save
     * is waiting, the oldest is taken off the queue and its data written with
     * saveLogo, one per call (saveLogo's outcome is only logged).
     */
    method ProcessDeferredSaves()
      requires Valid()
      modifies this
      ensures Valid() && TrackerUnchanged()
      ensures !old(initialized) || old(deferredSaves) == [] ==> unchanged(this)
      ensures old(initialized) && old(deferredSaves) != [] ==>
        deferredSaves == old(deferredSaves)[1..] &&
        saved == old(saved) + [LogoSave(old(deferredSaves)[0].processName, old(deferredSaves)[0].assetData.value)]
    {
      if !initialized || deferredSaves == [] {
        return;
      }
      var response := deferredSaves[0];
      deferredSaves := deferredSaves[1..];
      saved := saved + [LogoSave(response.processName, response.assetData.value)];
    }

    /**
     * timeoutExpiredRequests: nothing happens when the mutex cannot be taken;
     * otherwise every due request (in map order) gets exactly one timeout
     * failure and leaves the tracker, and if any did, the next queued request
     * may be dispatched.
     */
    method TimeoutExpiredRequests(now: uint32)
      requires Valid()
      modifies this
      ensures Valid()
      ensures old(WithinSendLimit()) ==> WithinSendLimit()
      ensures !old(initialized) || old(lockLeaked) ==> unchanged(this)
      ensures old(initialized) && !old(lockLeaked) ==>
        var ids := DueIds(old(pending), now, requestTimeoutMs);
        var rest := WithoutDue(old(pending), now, requestTimeoutMs);
        replies == old(replies) + FailAll(old(pending), ids, TIMED_OUT) &&
        (ids == [] ==> pending == old(pending) && queue == old(queue) && sent == old(sent) &&
                       stats == old(stats)) &&
        (ids != [] ==> pending == NextPending(rest, old(queue)) && queue == NextQueue(rest, old(queue)) &&
                       sent == old(sent) + NextSent(rest, old(queue)) &&
                       stats == Submitted(TimedOut(old(stats), |ids|), |NextSent(rest, old(queue))|))
      ensures initialized == old(initialized) && requestTimeoutMs == old(requestTimeoutMs)
      ensures maxConcurrentRequests == old(maxConcurrentRequests) && lockLeaked == old(lockLeaked)
      ensures deferredSaves == old(deferredSaves) && saved == old(saved)
    {
      if !initialized || lockLeaked {
        return;
      }
      var rest, out, expiredIds := ExpireDue(pending, now, requestTimeoutMs);
      ghost var m := pending;
      pending := rest;
      replies := replies + out;
      stats := TimedOut(stats, |expiredIds|);
      if expiredIds != [] {
        ProcessNextQueuedRequest();
      } else {
        NothingDue(m, now, requestTimeoutMs);
      }
    }

    /** processQueuedRequests: one dispatch attempt under the mutex. */
    method ProcessQueuedRequests()
      requires Valid()
      modifies this
      ensures Valid()
      ensures old(WithinSendLimit()) ==> WithinSendLimit()
      ensures old(lockLeaked) ==> unchanged(this)
      ensures !old(lockLeaked) ==>
        pending == NextPending(old(pending), old(queue)) && queue == NextQueue(old(pending), old(queue)) &&
        sent == old(sent) + NextSent(old(pending), old(queue)) &&
        stats == Submitted(old(stats), |NextSent(old(pending), old(queue))|)
      ensures initialized == old(initialized) && requestTimeoutMs == old(requestTimeoutMs)
      ensures maxConcurrentRequests == old(maxConcurrentRequests) && replies == old(replies)
      ensures lockLeaked == old(lockLeaked)
      ensures deferredSaves == old(deferredSaves) && saved == old(saved)
    {
      if lockLeaked {
        return;
      }
      ProcessNextQueuedRequest();
    }

    /**
     * update: expire overdue requests, dispatch from the queue, then write
     * at most one deferred save.  The second dispatch attempt never finds
     * more to do than one attempt would.  While the request mutex is held
     * only the deferred save happens.
     */
    method Update(now: uint32)
      requires Valid()
      modifies this
      ensures Valid()
      ensures old(WithinSendLimit()) ==> WithinSendLimit()
      ensures !old(initialized) ==> unchanged(this)
      ensures old(initialized) && old(lockLeaked) ==>
        pending == old(pending) && queue == old(queue) && replies == old(replies) && sent == old(sent) &&
        stats == old(stats)
      ensures old(initialized) && !old(lockLeaked) ==>
        var ids := DueIds(old(pending), now, requestTimeoutMs);
        var rest := WithoutDue(old(pending), now, requestTimeoutMs);
        replies == old(replies) + FailAll(old(pending), ids, TIMED_OUT) &&
        pending == NextPending(rest, old(queue)) && queue == NextQueue(rest, old(queue)) &&
        sent == old(sent) + NextSent(rest, old(queue)) &&
        stats == Submitted(TimedOut(old(stats), |ids|), |NextSent(rest, old(queue))|)
      ensures old(initialized) && old(deferredSaves) == [] ==> deferredSaves == [] && saved == old(saved)
      ensures old(initialized) && old(deferredSaves) != [] ==>
        deferredSaves == old(deferredSaves)[1..] &&
        saved == old(saved) + [LogoSave(old(deferredSaves)[0].processName, old(deferredSaves)[0].assetData.value)]
      ensures initialized == old(initialized) && requestTimeoutMs == old(requestTimeoutMs)
      ensures maxConcurrentRequests == old(maxConcurrentRequests) && lockLeaked == old(lockLeaked)
    {
      if !initialized {
        return;
      }
      ghost var m := pending;
      ghost var q := queue;
      TimeoutExpiredRequests(now);
      ghost var rest := WithoutDue(m, now, requestTimeoutMs);
      if !lockLeaked {
        if DueIds(m, now, requestTimeoutMs) == [] {
          NothingDue(m, now, requestTimeoutMs);
          NoCounts(old(stats));
        } else {
          NextIdempotent(rest, q);
          NoCounts(stats);
        }
      }
      ProcessQueuedRequests();
      ProcessDeferredSaves();
    }
  }

  /** The shutdown failure of every tracked request, in map order. */
  method ShutdownFailures(m: map<string, PendingRequest>) returns (out: seq<Reply>)
    ensures out == FailAll(m, Sorted(m.Keys), SHUTTING_DOWN)
  {
    var ids := MapOrder(m.Keys);
    out := FailEach(m, ids, SHUTTING_DOWN);
  }

  /**
   * Every tracked request is filed under its own id and none is marked
   * expired, no queued request is expired, and every deferred save has data.
   */
  predicate Consistent(pending: map<string, PendingRequest>, queue: seq<PendingRequest>,
                       deferredSaves: seq<AssetResponse>)
  {
    (forall k :: k in pending ==> pending[k].requestId == k && !pending[k].expired) &&
    (forall i :: 0 <= i < |queue| ==> !queue[i].expired) &&
    (forall i :: 0 <= i < |deferredSaves| ==> HasData(deferredSaves[i]))
  }

  /** The one failure callback a low-heap rejection makes. */
  function Rejection(request: PendingRequest): Reply
  {
    Reply(request.callback, Failed(request.processName, request.requestId, INSUFFICIENT_MEMORY))
  }

  // ---------------------------------------------------------------------------
  // Finding: requestLogo keeps the mutex after a low-heap rejection
  // ---------------------------------------------------------------------------

  /** The host's successful answer for "a.exe", without image data. */
  const ANSWER: Messages.AssetFields := Messages.AssetFields("a.exe", true, "", "", 0, 0, "")

  /**
   * Corrected requestLogo: "r1" is sent, "r2" is rejected on low heap and
   * the mutex is given back.
   */
  method SendThenRejectReleasing() returns (s: MessageBusLogoSupplier)
    ensures fresh(s) && s.Valid() && s.initialized && !s.lockLeaked && s.deferredSaves == []
    ensures s.pending == map["r1" := PendingRequest("r1", "a.exe", 1, 0, false)] && s.queue == []
    ensures s.replies == [Rejection(PendingRequest("r2", "b.exe", 2, 0, false))]
  {
    s := new MessageBusLogoSupplier();
    var _ := s.Init();
    var _ := s.RequestLogoReleasing(Some("a.exe"), Some(1), "r1", 0, MIN_FREE_HEAP);
    var _ := s.RequestLogoReleasing(Some("b.exe"), Some(2), "r2", 0, 0);
  }

  /**
   * With nothing tracked or queued and the mutex free, an update makes no
   * callback and sends nothing; it only writes the first deferred save.
   */
  method QuietUpdate(s: MessageBusLogoSupplier, now: uint32)
    requires s.Valid() && s.initialized && !s.lockLeaked && s.pending == map[] && s.queue == []
    modifies s
    ensures s.Valid() && s.initialized && !s.lockLeaked && s.pending == map[] && s.queue == []
    ensures s.replies == old(s.replies)
    ensures old(s.deferredSaves) == [] ==> s.deferredSaves == [] && s.saved == old(s.saved)
    ensures old(s.deferredSaves) != [] ==>
      s.deferredSaves == old(s.deferredSaves)[1..] &&
      s.saved == old(s.saved) + [LogoSave(old(s.deferredSaves)[0].processName, old(s.deferredSaves)[0].assetData.value)]
  {
    EmptyTrackerQuiet(s.pending, now, s.requestTimeoutMs, SHUTTING_DOWN);
    assert FailAll(map[], [], TIMED_OUT) == [] && NextPending(map[], []) == map[] && NextQueue(map[], []) == [];
    s.Update(now);
  }

  /**
   * With nothing tracked or queued and the mutex free, an update and the
   * shutdown after it make no callback and leave nothing tracked.
   */
  method QuietUpdateAndDeinit(s: MessageBusLogoSupplier, now: uint32)
    requires s.Valid() && s.initialized && !s.lockLeaked && s.pending == map[] && s.queue == []
    modifies s
    ensures s.replies == old(s.replies) && s.pending == map[]
  {
    QuietUpdate(s, now);
    EmptyTrackerQuiet(s.pending, now, s.requestTimeoutMs, SHUTTING_DOWN);
    s.Deinit();
  }

  /**
   * As written: "r1" is sent, "r2" is rejected on low heap and leaves the
   * mutex held.  The host's answer to "r1", its timeout and the shutdown
   * all find the mutex taken, so "r1" never gets a callback; the only one
   * made is the rejection of "r2".
   */
  method LeakedLockStrandsRequest() returns (replies: seq<Reply>, stranded: bool)
    ensures replies == [Rejection(PendingRequest("r2", "b.exe", 2, 0, false))]
    ensures stranded
  {
    var s := new MessageBusLogoSupplier();
    var _ := s.Init();
    var _ := s.RequestLogo(Some("a.exe"), Some(1), "r1", 0, MIN_FREE_HEAP);
    var _ := s.RequestLogo(Some("b.exe"), Some(2), "r2", 0, 0);
    s.OnAssetResponse("r1", ANSWER, None, true);
    s.Update(DEFAULT_REQUEST_TIMEOUT_MS + 1);
    s.Deinit();
    replies := s.replies;
    stranded := "r1" in s.pending;
  }

  /**
   * With the mutex released, the same calls end "r1" with exactly one
   * callback, the host's answer, after the rejection of "r2".
   */
  method ReleasedLockAnswersRequest() returns (replies: seq<Reply>, stranded: bool)
    ensures replies == [Rejection(PendingRequest("r2", "b.exe", 2, 0, false)),
                        Reply(1, ResponseOf("r1", ANSWER, None))]
    ensures !stranded
  {
    var s := SendThenRejectReleasing();
    assert s.pending - {"r1"} == map[];
    assert !Dispatches(map[], s.queue);
    var response := ResponseOf("r1", ANSWER, None);
    assert !DecodeAttempted(ANSWER) && !ShouldSave(response);
    assert s.initialized && !s.lockLeaked && "r1" in s.pending && s.deferredSaves == [];
    ghost var before := s.replies;
    s.OnAssetResponse("r1", ANSWER, None, true);
    assert s.deferredSaves == [];
    assert s.pending == NextPending(map[], []) && s.queue == NextQueue(map[], []);
    assert s.replies == before + [Reply(1, response)];
    var answered := s.replies;
    assert answered == [Rejection(PendingRequest("r2", "b.exe", 2, 0, false)), Reply(1, response)];
    QuietUpdateAndDeinit(s, DEFAULT_REQUEST_TIMEOUT_MS + 1);
    replies := s.replies;
    stranded := "r1" in s.pending;
  }

  // ---------------------------------------------------------------------------
  // Deferred logo saves
  // ---------------------------------------------------------------------------

  /** "r1" for "a.exe" is sent on a fresh supplier. */
  method SendOne() returns (s: MessageBusLogoSupplier)
    ensures fresh(s) && s.Valid() && s.initialized && !s.lockLeaked
    ensures s.pending == map["r1" := PendingRequest("r1", "a.exe", 1, 0, false)] && s.queue == []
    ensures s.replies == [] && s.deferredSaves == [] && s.saved == []
  {
    s := new MessageBusLogoSupplier();
    var _ := s.Init();
    var _ := s.RequestLogo(Some("a.exe"), Some(1), "r1", 0, MIN_FREE_HEAP);
  }

  /**
   * An answer for "r1" whose data decodes to three bytes completes the
   * request with that data, and the next update writes the logo once.
   */
  method DeferredSaveWritesLogo() returns (replies: seq<Reply>, saved: seq<LogoSave>)
    ensures replies == [Reply(1, AssetResponse(true, "a.exe", "r1", "", Some([1, 2, 3]), 0, 0, "bin"))]
    ensures saved == [LogoSave("a.exe", [1, 2, 3])]
  {
    var s := SendOne();
    var asset := Messages.AssetFields("a.exe", true, "", "AQID", 0, 0, "bin");
    var response := AssetResponse(true, "a.exe", "r1", "", Some([1, 2, 3]), 0, 0, "bin");
    assert DecodeAttempted(asset) && ResponseOf("r1", asset, Some([1, 2, 3])) == response;
    assert ShouldSave(response) && s.pending - {"r1"} == map[] && !Dispatches(map[], []);
    assert NextPending(map[], []) == map[] && NextQueue(map[], []) == [];
    s.OnAssetResponse("r1", asset, Some([1, 2, 3]), true);
    assert s.pending == map[] && s.queue == [];
    QuietUpdate(s, 1);
    replies := s.replies;
    saved := s.saved;
  }
}
