/** Properties of the order book's operations that span a whole trace or
    several operations: what kinds of call each operation makes and how often,
    how start and resync relate, and how ownership at construction decides
    what disposal releases.
 */
module SpotOrderBookFacts {
  import opened CallResults
  import opened SpotOrderBook

  /** Whether one effect is of kind `k`, as a count. */
  function Tally(e: Effect, k: Kind): nat {
    if KindOf(e) == k then 1 else 0
  }

  /** The count of a one-effect trace. */
  lemma CountSingle(e: Effect, k: Kind)
    ensures Count([e], k) == Tally(e, k)
  {
    assert [e][..0] == [];
  }

  /** Counting a trace one effect longer. */
  lemma CountSnoc(t: seq<Effect>, e: Effect, k: Kind)
    ensures Count(t + [e], k) == Count(t, k) + Tally(e, k)
  {
    assert (t + [e])[..|t|] == t;
  }

  /** The count of a three-effect trace, effect by effect. */
  lemma CountOfThree(a: Effect, b: Effect, c: Effect, k: Kind)
    ensures Count([a, b, c], k) == Tally(a, k) + Tally(b, k) + Tally(c, k)
  {
    assert [a, b] == [a] + [b];
    assert [a, b, c] == [a, b] + [c];
    CountSingle(a, k);
    CountSnoc([a], b, k);
    CountSnoc([a, b], c, k);
  }

  /** The count of a four-effect trace, effect by effect. */
  lemma CountOfFour(a: Effect, b: Effect, c: Effect, d: Effect, k: Kind)
    ensures Count([a, b, c, d], k) == Tally(a, k) + Tally(b, k) + Tally(c, k) + Tally(d, k)
  {
    CountOfThree(a, b, c, k);
    assert [a, b, c, d] == [a, b, c] + [d];
    CountSnoc([a, b, c], d, k);
  }

  /** A trace whose every effect is of kind `k` counts its whole length. */
  lemma {:induction false} CountEvery(t: seq<Effect>, k: Kind)
    requires forall i :: 0 <= i < |t| ==> KindOf(t[i]) == k
    ensures Count(t, k) == |t|
    decreases |t|
  {
    if |t| != 0 {
      var init := t[..|t| - 1];
      assert forall i :: 0 <= i < |init| ==> init[i] == t[i];
      CountEvery(init, k);
    }
  }

  // ---------------------------------------------------------------------------
  // Start

  /** The counts of each kind of call a start makes. */
  predicate StartCountsAre(t: seq<Effect>, subscribed: bool, fetched: bool, waited: bool, unsubscribed: bool, seeded: bool) {
    && Count(t, Subscribing) == 1
    && Count(t, StatusChange) == (if subscribed then 1 else 0)
    && Count(t, Fetching) == (if fetched then 1 else 0)
    && Count(t, Waiting) == (if waited then 1 else 0)
    && Count(t, Unsubscribing) == (if unsubscribed then 1 else 0)
    && Count(t, Seeding) == (if seeded then 1 else 0)
    && Count(t, Updating) == 0 && Count(t, Clearing) == 0 && Count(t, Releasing) == 0
  }

  /** Start in full-depth mode after a successful subscription. */
  lemma StartDiffModeCounts(b: Book, s: Subscription, fetch: Outcome<Snapshot>, wait: CallResult<bool>)
    requires b.levels.None?
    ensures StartCountsAre(Start(b, Ok(s), fetch, wait).trace, true, true, false, fetch.Fail?, fetch.Ok?)
  {
    var subscribe, request := SubscribeDiff(b.symbol, b.updateInterval), FetchSnapshot(b.symbol, SnapshotLimit);
    var last := if fetch.Ok? then Seed(fetch.value) else Unsubscribe(s);
    var t := Start(b, Ok(s), fetch, wait).trace;
    assert t == [subscribe, MarkSyncing, request, last];
    forall k ensures Count(t, k) == Tally(subscribe, k) + Tally(MarkSyncing, k) + Tally(request, k) + Tally(last, k) {
      CountOfFour(subscribe, MarkSyncing, request, last, k);
    }
  }

  /** Start in partial mode after a successful subscription. */
  lemma StartPartialModeCounts(b: Book, s: Subscription, fetch: Outcome<Snapshot>, wait: CallResult<bool>)
    requires b.levels.Some?
    ensures StartCountsAre(Start(b, Ok(s), fetch, wait).trace, true, false, true, false, false)
  {
    var subscribe := SubscribePartial(b.symbol, b.levels.value, b.updateInterval);
    var t := Start(b, Ok(s), fetch, wait).trace;
    assert t == [subscribe, MarkSyncing, WaitForBook(FirstBookTimeoutMs)];
    forall k ensures Count(t, k) == Tally(subscribe, k) + Tally(MarkSyncing, k) + Tally(WaitForBook(FirstBookTimeoutMs), k) {
      CountOfThree(subscribe, MarkSyncing, WaitForBook(FirstBookTimeoutMs), k);
    }
  }

  /** Start subscribes exactly once; it changes the status only after a
      successful subscription; full-depth mode fetches once and partial mode
      waits once; it unsubscribes only after a failed fetch and seeds only
      after a successful one; and it never updates, clears or releases anything. */
  lemma StartEffectCounts(b: Book, sub: Outcome<Subscription>, fetch: Outcome<Snapshot>, wait: CallResult<bool>)
    ensures StartCountsAre(
              Start(b, sub, fetch, wait).trace,
              sub.Ok?,
              sub.Ok? && b.levels.None?,
              sub.Ok? && b.levels.Some?,
              sub.Ok? && b.levels.None? && fetch.Fail?,
              sub.Ok? && b.levels.None? && fetch.Ok?)
  {
    match sub
    case Fail(_) =>
      var t := Start(b, sub, fetch, wait).trace;
      assert t == [SubscribeCall(b)];
      forall k ensures Count(t, k) == Tally(SubscribeCall(b), k) {
        CountSingle(SubscribeCall(b), k);
      }
    case Ok(s) =>
      if b.levels.None? {
        StartDiffModeCounts(b, s, fetch, wait);
      } else {
        StartPartialModeCounts(b, s, fetch, wait);
      }
  }

  /** A failed subscription is all that happens: no status change, no fetch,
      no wait and no unsubscribe follow it. */
  lemma FailedSubscriptionStopsStart(b: Book, e: Error, fetch: Outcome<Snapshot>, wait: CallResult<bool>)
    ensures var r := Start(b, Fail(e), fetch, wait);
      && r.result.error == Some(e)
      && Count(r.trace, StatusChange) == 0 && Count(r.trace, Fetching) == 0
      && Count(r.trace, Waiting) == 0 && Count(r.trace, Unsubscribing) == 0
  {
    StartEffectCounts(b, Fail(e), fetch, wait);
  }

  // ---------------------------------------------------------------------------
  // Resync

  /** Resync makes one fetch or one wait, as the mode says, seeds only after a
      successful fetch, and leaves the subscription, the status and the
      clients alone. */
  lemma ResyncEffectCounts(b: Book, fetch: Outcome<Snapshot>, wait: CallResult<bool>)
    ensures var t := Resync(b, fetch, wait).trace;
      && Count(t, Fetching) == (if b.levels.None? then 1 else 0)
      && Count(t, Waiting) == (if b.levels.Some? then 1 else 0)
      && Count(t, Seeding) == (if b.levels.None? && fetch.Ok? then 1 else 0)
      && Count(t, Subscribing) == 0 && Count(t, Unsubscribing) == 0
      && Count(t, StatusChange) == 0 && Count(t, Updating) == 0
      && Count(t, Clearing) == 0 && Count(t, Releasing) == 0
  {
    var t := Resync(b, fetch, wait).trace;
    if |t| == 2 {
      assert t == [t[0]] + [t[1]];
      forall k ensures Count(t, k) == Tally(t[0], k) + Tally(t[1], k) {
        CountSingle(t[0], k);
        CountSnoc([t[0]], t[1], k);
      }
    } else {
      assert t == [t[0]];
      forall k ensures Count(t, k) == Tally(t[0], k) {
        CountSingle(t[0], k);
      }
    }
  }

  /** Once subscribed, start synchronises the way resync does: the same
      fetch-and-seed or the same wait, with the same success. The one
      difference is that a start whose fetch failed also unsubscribes. */
  lemma StartSyncIsResync(b: Book, s: Subscription, fetch: Outcome<Snapshot>, wait: CallResult<bool>)
    ensures var r := Start(b, Ok(s), fetch, wait);
      && r.trace == [SubscribeCall(b), MarkSyncing] + Resync(b, fetch, wait).trace
                      + (if b.levels.None? && fetch.Fail? then [Unsubscribe(s)] else [])
      && (r.result.Success() <==> Resync(b, fetch, wait).result.Success())
      && (!r.result.Success() ==> r.result.error == Resync(b, fetch, wait).result.error)
  {
  }

  // ---------------------------------------------------------------------------
  // Stream handlers

  /** The handlers' trace lines up with the messages: the i-th effect is the i-th message's. */
  lemma {:induction false} HandleAllInOrder(b: Book, ms: seq<StreamMessage>)
    ensures forall i :: 0 <= i < |ms| ==> HandleAll(b, ms)[i] == Handle(b, ms[i])
    decreases |ms|
  {
    if |ms| != 0 {
      var init := ms[..|ms| - 1];
      HandleAllInOrder(b, init);
      assert forall i :: 0 <= i < |init| ==> ms[i] == init[i];
    }
  }

  /** Re-seeds and updates among the handlers' effects: one re-seed for each
      full-book message in partial mode and none at all in full-depth mode,
      and an update for every other message. */
  lemma {:induction false} HandleAllSeedCount(b: Book, ms: seq<StreamMessage>)
    ensures Count(HandleAll(b, ms), Seeding) == (if b.levels.Some? then BookMessages(ms) else 0)
    ensures Count(HandleAll(b, ms), Updating) == |ms| - Count(HandleAll(b, ms), Seeding)
    decreases |ms|
  {
    if |ms| != 0 {
      var init, m := ms[..|ms| - 1], ms[|ms| - 1];
      HandleAllSeedCount(b, init);
      var t := HandleAll(b, init);
      assert HandleAll(b, ms) == t + [Handle(b, m)];
      CountSnoc(t, Handle(b, m), Seeding);
      CountSnoc(t, Handle(b, m), Updating);
    }
  }

  /** A trace of updates and re-seeds only counts no effect of any other kind. */
  lemma CountOnlyBookEffects(t: seq<Effect>)
    requires forall i :: 0 <= i < |t| ==> KindOf(t[i]) == Seeding || KindOf(t[i]) == Updating
    ensures forall k :: k != Seeding && k != Updating ==> Count(t, k) == 0
  {
    forall k | k != Seeding && k != Updating
      ensures Count(t, k) == 0
    {
      CountZeroIff(t, k);
    }
  }

  /** Handling stream messages only ever updates or re-seeds the book: it
      never subscribes, fetches, waits, unsubscribes, changes the status,
      clears or disposes anything. */
  lemma HandleAllTouchesOnlyBook(b: Book, ms: seq<StreamMessage>)
    ensures forall k :: k != Seeding && k != Updating ==> Count(HandleAll(b, ms), k) == 0
  {
    HandleAllInOrder(b, ms);
    var t := HandleAll(b, ms);
    forall i | 0 <= i < |t|
      ensures KindOf(t[i]) == Seeding || KindOf(t[i]) == Updating
    {
      assert t[i] == Handle(b, ms[i]);
    }
    CountOnlyBookEffects(t);
  }

  /** In full-depth mode no stream message ever re-seeds the book. */
  lemma DiffModeStreamNeverSeeds(b: Book, ms: seq<StreamMessage>)
    requires b.levels.None?
    ensures forall i :: 0 <= i < |HandleAll(b, ms)| ==> !HandleAll(b, ms)[i].SetInitialBook?
  {
    HandleAllInOrder(b, ms);
  }

  // ---------------------------------------------------------------------------
  // Construction and disposal

  /** Passing no options builds the same book as passing options with nothing set. */
  lemma NoOptionsIsEmptyOptions(symbol: string)
    ensures Create(symbol, None) == Create(symbol, Some(Options(None, None, None, None)))
  {
  }

  /** Disposing a constructed book releases exactly the clients the caller did not supply. */
  lemma DisposeReleasesOnlyCreatedClients(symbol: string, options: Option<Options>)
    ensures var t := Dispose(Create(symbol, options));
      && (DisposeRestClient in t <==> options.None? || options.value.restClient.None?)
      && (DisposeSocketClient in t <==> options.None? || options.value.socketClient.None?)
  {
  }

  /** The owned clients' disposals count as releases only, one per owned client. */
  lemma ReleasesCounts(b: Book)
    ensures Count(OwnedReleases(b), Clearing) == 0
    ensures Count(OwnedReleases(b), Releasing) == |OwnedReleases(b)| == (if b.restOwner then 1 else 0) + (if b.socketOwner then 1 else 0)
  {
    if b.restOwner && b.socketOwner {
      assert OwnedReleases(b) == [DisposeRestClient] + [DisposeSocketClient];
      CountSingle(DisposeRestClient, Clearing);
      CountSingle(DisposeRestClient, Releasing);
      CountSnoc([DisposeRestClient], DisposeSocketClient, Clearing);
      CountSnoc([DisposeRestClient], DisposeSocketClient, Releasing);
    } else if b.restOwner {
      assert OwnedReleases(b) == [DisposeRestClient];
      CountSingle(DisposeRestClient, Clearing);
      CountSingle(DisposeRestClient, Releasing);
    } else if b.socketOwner {
      assert OwnedReleases(b) == [DisposeSocketClient];
      CountSingle(DisposeSocketClient, Clearing);
      CountSingle(DisposeSocketClient, Releasing);
    } else {
      assert OwnedReleases(b) == [];
    }
  }

  /** Disposal clears the buffer and both sides whatever the ownership, releases
      one client per owned client, and does nothing else. */
  lemma DisposeEffectCounts(b: Book)
    requires OwnsCreatedClients(b)
    ensures var t := Dispose(b);
      && Count(t, Clearing) == 3
      && Count(t, Releasing) == (if b.restClient.Created? then 1 else 0) + (if b.socketClient.Created? then 1 else 0)
      && |t| == Count(t, Clearing) + Count(t, Releasing)
  {
    var clears := [ClearProcessBuffer, ClearAsks, ClearBids];
    CountOfThree(ClearProcessBuffer, ClearAsks, ClearBids, Clearing);
    CountOfThree(ClearProcessBuffer, ClearAsks, ClearBids, Releasing);
    ReleasesCounts(b);
    CountAppend(clears, OwnedReleases(b), Clearing);
    CountAppend(clears, OwnedReleases(b), Releasing);
  }
}
