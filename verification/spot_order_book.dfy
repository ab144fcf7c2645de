/** The Binance spot order book's synchronisation control flow.

    The order book runs in one of two modes, chosen by whether `Levels` is set:
    - full-depth diff stream (`Levels` unset): subscribe to the diff stream,
      fetch a REST snapshot of depth 5000, and seed the book with it;
    - fixed-depth partial stream (`Levels` set): subscribe to the partial
      stream with that depth and wait for the first pushed book.

    The book's contents, its status, its update buffer and the merge, gap and
    buffering logic belong to the generic order-book base class, which is not
    part of this model. Every call into that class or into the REST and socket
    clients is therefore an `Effect` label, and every operation here is a pure
    function from the book's configuration and its collaborators' outcomes to
    a result and the trace of effects it performs, in order.
 */
module SpotOrderBook {
  import opened CallResults

  /** Depth of the REST snapshot requested in full-depth mode. */
  const SnapshotLimit: int := 5000

  /** Bound, in milliseconds, on the wait for the first pushed book in partial mode. */
  const FirstBookTimeoutMs: int := 10000

  /** One price level; prices and quantities are carried, never inspected. */
  datatype Level = Level(price: real, quantity: real)

  /** A REST order-book snapshot. */
  datatype Snapshot = Snapshot(lastUpdateId: int, bids: seq<Level>, asks: seq<Level>)

  /** The handle of a stream subscription. */
  datatype Subscription = Subscription(id: int)

  /** Where a REST or socket client came from: handed in by the caller, or created by the book. */
  datatype ClientSource = Supplied(handle: nat) | Created

  /** The order-book options a caller may pass. */
  datatype Options = Options(
    limit: Option<int>,
    updateInterval: Option<int>,
    socketClient: Option<nat>,
    restClient: Option<nat>)

  /** The configuration an order book fixes at construction. */
  datatype Book = Book(
    symbol: string,
    levels: Option<int>,
    updateInterval: Option<int>,
    socketClient: ClientSource,
    restClient: ClientSource,
    restOwner: bool,
    socketOwner: bool)

  /** A book owns exactly the clients it created itself. */
  predicate OwnsCreatedClients(b: Book) {
    && (b.restOwner <==> b.restClient.Created?)
    && (b.socketOwner <==> b.socketClient.Created?)
  }

  /** A diff-stream message: a ranged update when it carries its first update id. */
  datatype EventBook = EventBook(firstUpdateId: Option<int>, lastUpdateId: int, bids: seq<Level>, asks: seq<Level>)

  /** A full-book message, as pushed by the partial stream. */
  datatype PlainBook = PlainBook(lastUpdateId: int, bids: seq<Level>, asks: seq<Level>)

  /** A message delivered to one of the two stream handlers. */
  datatype StreamMessage = DiffMessage(event: EventBook) | BookMessage(book: PlainBook)

  /** A call the order book makes on a collaborator or on its base class. */
  datatype Effect =
    | SubscribeDiff(symbol: string, interval: Option<int>)
    | SubscribePartial(symbol: string, depth: int, interval: Option<int>)
    | MarkSyncing
    | FetchSnapshot(symbol: string, limit: int)
    | Unsubscribe(subscription: Subscription)
    | SetInitialBook(updateId: int, bids: seq<Level>, asks: seq<Level>)
    | WaitForBook(timeoutMs: int)
    | UpdateRange(firstUpdateId: int, lastUpdateId: int, bids: seq<Level>, asks: seq<Level>)
    | UpdateOne(updateId: int, bids: seq<Level>, asks: seq<Level>)
    | ClearProcessBuffer
    | ClearAsks
    | ClearBids
    | DisposeRestClient
    | DisposeSocketClient

  /** Effects grouped by what they touch. */
  datatype Kind =
    | Subscribing | StatusChange | Fetching | Unsubscribing | Seeding | Waiting
    | Updating | Clearing | Releasing

  function KindOf(e: Effect): Kind {
    match e
    case SubscribeDiff(_, _) => Subscribing
    case SubscribePartial(_, _, _) => Subscribing
    case MarkSyncing => StatusChange
    case FetchSnapshot(_, _) => Fetching
    case Unsubscribe(_) => Unsubscribing
    case SetInitialBook(_, _, _) => Seeding
    case WaitForBook(_) => Waiting
    case UpdateRange(_, _, _, _) => Updating
    case UpdateOne(_, _, _) => Updating
    case ClearProcessBuffer => Clearing
    case ClearAsks => Clearing
    case ClearBids => Clearing
    case DisposeRestClient => Releasing
    case DisposeSocketClient => Releasing
  }

  /** How many effects of kind `k` a trace holds. */
  function Count(t: seq<Effect>, k: Kind): (n: nat)
    ensures n <= |t|
    decreases |t|
  {
    if |t| == 0 then 0
    else Count(t[..|t| - 1], k) + (if KindOf(t[|t| - 1]) == k then 1 else 0)
  }

  /** A kind is counted zero times exactly when no effect of the trace has it. */
  lemma {:induction false} CountZeroIff(t: seq<Effect>, k: Kind)
    ensures Count(t, k) == 0 <==> forall i :: 0 <= i < |t| ==> KindOf(t[i]) != k
    decreases |t|
  {
    if |t| != 0 {
      var init := t[..|t| - 1];
      CountZeroIff(init, k);
      assert forall i :: 0 <= i < |init| ==> t[i] == init[i];
    }
  }

  /** Counting distributes over the concatenation of traces. */
  lemma {:induction false} CountAppend(t: seq<Effect>, u: seq<Effect>, k: Kind)
    ensures Count(t + u, k) == Count(t, k) + Count(u, k)
    decreases |u|
  {
    if |u| != 0 {
      var init := u[..|u| - 1];
      assert (t + u)[..|t + u| - 1] == t + init;
      assert (t + u)[|t + u| - 1] == u[|u| - 1];
      CountAppend(t, init, k);
    } else {
      assert t + u == t;
    }
  }

  /** Seeding the book with a snapshot's id and levels. */
  function Seed(s: Snapshot): Effect {
    SetInitialBook(s.lastUpdateId, s.bids, s.asks)
  }

  // ---------------------------------------------------------------------------
  // Construction

  /** The constructor. A client counts as owned exactly when the caller did not supply one. */
  function Create(symbol: string, options: Option<Options>): (b: Book)
    ensures OwnsCreatedClients(b)
    ensures b.restOwner <==> options.None? || options.value.restClient.None?
    ensures b.socketOwner <==> options.None? || options.value.socketClient.None?
    ensures options.Some? && options.value.restClient.Some? ==> b.restClient == Supplied(options.value.restClient.value)
    ensures options.Some? && options.value.socketClient.Some? ==> b.socketClient == Supplied(options.value.socketClient.value)
    ensures b.symbol == symbol
    ensures b.levels == (if options.Some? then options.value.limit else None)
    ensures b.updateInterval == (if options.Some? then options.value.updateInterval else None)
  {
    match options
    case None => Book(symbol, None, None, Created, Created, true, true)
    case Some(o) =>
      Book(
        symbol, o.limit, o.updateInterval,
        if o.socketClient.Some? then Supplied(o.socketClient.value) else Created,
        if o.restClient.Some? then Supplied(o.restClient.value) else Created,
        o.restClient.None?,
        o.socketClient.None?)
  }

  // ---------------------------------------------------------------------------
  // Start

  /** What a start attempt returns, and what it did on the way. */
  datatype StartStep = StartStep(result: CallResult<Option<Subscription>>, trace: seq<Effect>)

  /** The subscription call start makes, which depends only on the mode. */
  function SubscribeCall(b: Book): (e: Effect)
    ensures KindOf(e) == Subscribing
    ensures e.SubscribeDiff? <==> b.levels.None?
    ensures e.symbol == b.symbol && e.interval == b.updateInterval
    ensures e.SubscribePartial? ==> e.depth == b.levels.value
  {
    if b.levels.None? then SubscribeDiff(b.symbol, b.updateInterval)
    else SubscribePartial(b.symbol, b.levels.value, b.updateInterval)
  }

  /** Starting the book. `sub` is what the subscription call returns, `fetch`
      what the snapshot request returns (asked only in full-depth mode), and
      `wait` what the wait for the first pushed book returns (asked only in
      partial mode). */
  function Start(b: Book, sub: Outcome<Subscription>, fetch: Outcome<Snapshot>, wait: CallResult<bool>): (r: StartStep)
    // the first call made is the subscription to the stream the mode selects
    ensures 1 <= |r.trace| <= 4 && r.trace[0] == SubscribeCall(b)
    // a failed subscription is returned and nothing else happens
    ensures sub.Fail? ==> r.result == CallResult(None, Some(sub.error)) && |r.trace| == 1
    // after a successful subscription the status becomes Syncing before anything else
    ensures sub.Ok? ==> |r.trace| >= 3 && r.trace[1] == MarkSyncing
    // full-depth mode then asks for a snapshot of depth 5000, and seeds the
    // book with it, or unsubscribes what it subscribed when the fetch failed
    ensures sub.Ok? && b.levels.None? ==> |r.trace| == 4 && r.trace[2] == FetchSnapshot(b.symbol, SnapshotLimit)
    ensures sub.Ok? && b.levels.None? ==> r.trace[3] == if fetch.Ok? then Seed(fetch.value) else Unsubscribe(sub.value)
    // partial mode then only waits for the first pushed book, with the 10000 ms bound
    ensures sub.Ok? && b.levels.Some? ==> |r.trace| == 3 && r.trace[2] == WaitForBook(FirstBookTimeoutMs)
    // the result: the subscription on success, otherwise the first error met
    ensures r.result.Success() <==> sub.Ok? && (if b.levels.None? then fetch.Ok? else wait.Success())
    ensures r.result.Success() ==> r.result.data == Some(sub.value)
    ensures !r.result.Success() ==> r.result.data.None?
    ensures sub.Ok? && b.levels.None? && fetch.Fail? ==> r.result.error == Some(fetch.error)
    ensures sub.Ok? && b.levels.Some? ==> r.result.error == wait.error
  {
    var subscribe := SubscribeCall(b);
    match sub
    case Fail(e) => StartStep(CallResult(None, Some(e)), [subscribe])
    case Ok(s) =>
      if b.levels.None? then
        var request := FetchSnapshot(b.symbol, b.levels.GetOr(SnapshotLimit));
        match fetch
        case Fail(e) => StartStep(CallResult(None, Some(e)), [subscribe, MarkSyncing, request, Unsubscribe(s)])
        case Ok(snapshot) => StartStep(CallResult(Some(s), None), [subscribe, MarkSyncing, request, Seed(snapshot)])
      else
        var trace := [subscribe, MarkSyncing, WaitForBook(FirstBookTimeoutMs)];
        if wait.Success() then StartStep(CallResult(Some(s), None), trace)
        else StartStep(CallResult(None, wait.error), trace)
  }

  // ---------------------------------------------------------------------------
  // Stream handlers

  /** The diff-stream handler: a ranged update when the first id is present,
      otherwise a single-id update. It never re-seeds the book. */
  function HandleEventBook(m: EventBook): (e: Effect)
    ensures KindOf(e) == Updating
    ensures e.UpdateRange? <==> m.firstUpdateId.Some?
    ensures e.UpdateRange? ==> e.firstUpdateId == m.firstUpdateId.value && e.lastUpdateId == m.lastUpdateId
    ensures e.UpdateOne? ==> e.updateId == m.lastUpdateId
    ensures e.bids == m.bids && e.asks == m.asks
  {
    if m.firstUpdateId.Some? then UpdateRange(m.firstUpdateId.value, m.lastUpdateId, m.bids, m.asks)
    else UpdateOne(m.lastUpdateId, m.bids, m.asks)
  }

  /** The full-book handler: an update in full-depth mode, a re-seed in partial mode. */
  function HandlePlainBook(b: Book, m: PlainBook): (e: Effect)
    ensures KindOf(e) == Seeding <==> b.levels.Some?
    ensures KindOf(e) == Updating <==> b.levels.None?
    ensures e.SetInitialBook? || e.UpdateOne?
    ensures e.updateId == m.lastUpdateId && e.bids == m.bids && e.asks == m.asks
  {
    if b.levels.None? then UpdateOne(m.lastUpdateId, m.bids, m.asks)
    else SetInitialBook(m.lastUpdateId, m.bids, m.asks)
  }

  /** Dispatch of one stream message to the handler of its type. */
  function Handle(b: Book, m: StreamMessage): Effect {
    match m
    case DiffMessage(ev) => HandleEventBook(ev)
    case BookMessage(bk) => HandlePlainBook(b, bk)
  }

  /** The effects of a sequence of stream messages, handled in arrival order. */
  function HandleAll(b: Book, ms: seq<StreamMessage>): (t: seq<Effect>)
    ensures |t| == |ms|
    decreases |ms|
  {
    if |ms| == 0 then [] else HandleAll(b, ms[..|ms| - 1]) + [Handle(b, ms[|ms| - 1])]
  }

  /** How many full-book messages a sequence of stream messages holds. */
  function BookMessages(ms: seq<StreamMessage>): (n: nat)
    ensures n <= |ms|
    decreases |ms|
  {
    if |ms| == 0 then 0
    else BookMessages(ms[..|ms| - 1]) + (if ms[|ms| - 1].BookMessage? then 1 else 0)
  }

  // ---------------------------------------------------------------------------
  // Resync

  /** What a resync attempt returns, and what it did on the way. */
  datatype ResyncStep = ResyncStep(result: CallResult<bool>, trace: seq<Effect>)

  /** Resynchronising after a lost connection, with the same collaborator outcomes as `Start`. */
  function Resync(b: Book, fetch: Outcome<Snapshot>, wait: CallResult<bool>): (r: ResyncStep)
    // partial mode only waits, with the 10000 ms bound, and passes its result on unchanged
    ensures b.levels.Some? ==> r.trace == [WaitForBook(FirstBookTimeoutMs)] && r.result == wait
    // full-depth mode asks for a snapshot of depth 5000 and seeds the book with it when it came
    ensures b.levels.None? ==> 1 <= |r.trace| <= 2 && r.trace[0] == FetchSnapshot(b.symbol, SnapshotLimit)
    ensures b.levels.None? ==> (|r.trace| == 2 <==> fetch.Ok?)
    ensures b.levels.None? && fetch.Ok? ==> r.trace[1] == Seed(fetch.value)
    // and reports whether the snapshot came, with the fetch's error when it did not
    ensures b.levels.None? ==> r.result.data == fetch.Ok? && (r.result.Success() <==> fetch.Ok?)
    ensures b.levels.None? && fetch.Fail? ==> r.result.error == Some(fetch.error)
  {
    if b.levels.Some? then ResyncStep(wait, [WaitForBook(FirstBookTimeoutMs)])
    else
      var request := FetchSnapshot(b.symbol, b.levels.GetOr(SnapshotLimit));
      match fetch
      case Fail(e) => ResyncStep(CallResult(false, Some(e)), [request])
      case Ok(snapshot) => ResyncStep(CallResult(true, None), [request, Seed(snapshot)])
  }

  // ---------------------------------------------------------------------------
  // Dispose

  /** The client disposals of `Dispose`: the REST client's, then the socket client's, each when owned. */
  function OwnedReleases(b: Book): seq<Effect> {
    (if b.restOwner then [DisposeRestClient] else []) + (if b.socketOwner then [DisposeSocketClient] else [])
  }

  /** Disposing the book: the buffer and both sides are always cleared; a
      client is disposed exactly when the book owns it. */
  function Dispose(b: Book): (t: seq<Effect>)
    ensures |t| >= 3 && t[0] == ClearProcessBuffer && t[1] == ClearAsks && t[2] == ClearBids
    ensures DisposeRestClient in t <==> b.restOwner
    ensures DisposeSocketClient in t <==> b.socketOwner
    ensures |t| == 3 + (if b.restOwner then 1 else 0) + (if b.socketOwner then 1 else 0)
    // the REST client goes before the socket client
    ensures b.restOwner && b.socketOwner ==> t[3] == DisposeRestClient && t[4] == DisposeSocketClient
  {
    [ClearProcessBuffer, ClearAsks, ClearBids] + OwnedReleases(b)
  }
}
