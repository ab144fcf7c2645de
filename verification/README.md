# Binance spot order book synchronisation and cancelled-order ids, in Dafny

This project models two pieces of decision logic from Binance.Net.

**The spot symbol order book** (`BinanceSpotSymbolOrderBook`). This is the
control flow that keeps a local order book for one symbol in sync with the
exchange. The book runs in one of two modes, chosen by whether its `Levels`
option is set:

- **Full-depth mode** (`Levels` unset): subscribe to the diff stream, mark
  the book `Syncing`, fetch a REST snapshot of depth 5000, then seed the
  book with it.
- **Partial mode** (`Levels` set): subscribe to the partial stream at that
  depth, mark the book `Syncing`, then wait up to 10000 ms for the first
  pushed book.

Each incoming stream message is routed to one of three calls: a ranged
update, a single-id update, or a full re-seed. Resync repeats the mode's
synchronisation step. Disposal clears the buffer and both sides of the book,
and disposes only the REST and socket clients the book created itself.

The book's contents, status and buffer, and the merge, gap and buffering
logic, belong to the generic order-book base class of CryptoExchange.Net.
That class is not part of this model. So each operation is a pure function.
It takes the book's configuration and the outcomes its collaborators
return, and it gives back a result plus the ordered trace of calls it makes
(`SpotOrderBook.Effect`). Properties about the trace are stated with
`SpotOrderBook.Count`, which counts the effects of one kind (subscribing,
fetching, seeding, …). These properties are proved in `SpotOrderBookFacts`.

**The cancelled-order id record** (`BinanceCancelledId`). The JSON reader
fills this record field by field through its property setters, and
`CancelledIds` models each setter as a state update. `"-1"` as
`orderListId` means "not part of an OCO list" and is ignored. Any other
`orderListId`, a JSON `null` included, overwrites `Id` and flags the order as OCO. A
`listClientOrderId` overwrites `ClientOrderId` and also flags it as OCO.
`CancelledIds.AssignAll` applies a whole response in arrival order, and
`CancelledIds.Expected` is a separate reference description of the result.
In that description, the last write to each id wins, and `OcoOrder` is set
once any OCO field has arrived.

Files: `call_results.dfy` (shared result shapes), `cancelled_ids.dfy`,
`spot_order_book.dfy`, `spot_order_book_facts.dfy`.

## Model

| member | source | states |
|---|---|---|
| `SpotOrderBook.Create` | Binance.Net/SymbolOrderBooks/BinanceSpotSymbolOrderBook.cs:28-37 | A client is owned exactly when the caller did not supply it, and then it is one the book created. A supplied client is kept as given. `Levels` and the update interval come from the options, and are unset when no options are passed. |
| `SpotOrderBook.SubscribeCall` | Binance.Net/SymbolOrderBooks/BinanceSpotSymbolOrderBook.cs:43-46 | The diff stream is chosen exactly when `Levels` is unset, and the partial stream otherwise, at depth `Levels`. Both use the book's symbol and update interval. |
| `SpotOrderBook.Start` | Binance.Net/SymbolOrderBooks/BinanceSpotSymbolOrderBook.cs:40-73 | Start subscribes first. A failed subscription returns its error and makes no other call. Otherwise start marks `Syncing`. Full-depth mode then fetches a depth-5000 snapshot and either seeds with it or, when the fetch fails, unsubscribes that subscription. Partial mode then waits 10000 ms. The result holds the subscription exactly when every step succeeded, and otherwise the first error, with no data. |
| `SpotOrderBook.HandleEventBook` | Binance.Net/SymbolOrderBooks/BinanceSpotSymbolOrderBook.cs:75-81 | A diff message gives a ranged update (first, last) exactly when it carries a first id, and otherwise a single-id update with its last id. It is never a re-seed. The levels are passed on unchanged. |
| `SpotOrderBook.HandlePlainBook` | Binance.Net/SymbolOrderBooks/BinanceSpotSymbolOrderBook.cs:84-90 | A full-book message gives an update exactly when `Levels` is unset, and a re-seed exactly when it is set. Either one carries the message's id and levels. |
| `SpotOrderBook.Resync` | Binance.Net/SymbolOrderBooks/BinanceSpotSymbolOrderBook.cs:98-109 | Partial mode only waits 10000 ms and returns the wait's result unchanged. Full-depth mode fetches a depth-5000 snapshot. It seeds with the snapshot exactly when the fetch succeeded, and returns `true` with no error in that case, or `false` with the fetch's error. |
| `SpotOrderBook.Dispose` | Binance.Net/SymbolOrderBooks/BinanceSpotSymbolOrderBook.cs:112-124 | The buffer, asks and bids are always cleared first, in that order. The REST and socket clients are each disposed exactly when they are owned, the REST client first. Nothing else happens. |
| `SpotOrderBookFacts.StartEffectCounts` | Binance.Net/SymbolOrderBooks/BinanceSpotSymbolOrderBook.cs:42-72 | Start makes exactly one subscription call. It marks `Syncing` once if the subscription succeeded, and otherwise never. It fetches once only in full-depth mode and waits once only in partial mode. It unsubscribes only after a failed fetch and seeds only after a successful one. It never updates, clears or disposes anything. |
| `SpotOrderBookFacts.StartDiffModeCounts` | Binance.Net/SymbolOrderBooks/BinanceSpotSymbolOrderBook.cs:51-64 | In full-depth mode after a successful subscription: one status change and one fetch, no wait, and then either an unsubscribe or a seed, depending on the fetch. |
| `SpotOrderBookFacts.StartPartialModeCounts` | Binance.Net/SymbolOrderBooks/BinanceSpotSymbolOrderBook.cs:66-69 | In partial mode after a successful subscription: one status change and one wait. There is no REST call, no unsubscribe and no seed. |
| `SpotOrderBookFacts.FailedSubscriptionStopsStart` | Binance.Net/SymbolOrderBooks/BinanceSpotSymbolOrderBook.cs:48-49 | A failed subscription returns its own error. There is no `Syncing` status, no fetch, no wait and no unsubscribe. |
| `SpotOrderBookFacts.ResyncEffectCounts` | Binance.Net/SymbolOrderBooks/BinanceSpotSymbolOrderBook.cs:98-109 | Resync fetches once in full-depth mode and waits once in partial mode. It seeds only after a successful fetch. It never subscribes, unsubscribes, changes the status, updates, clears or disposes anything. |
| `SpotOrderBookFacts.StartSyncIsResync` | Binance.Net/SymbolOrderBooks/BinanceSpotSymbolOrderBook.cs:51-72 | After subscribing, start does exactly what resync does, with the same success and the same error. The one exception is that a start whose fetch failed also unsubscribes. |
| `SpotOrderBookFacts.HandleAllInOrder` | Binance.Net/SymbolOrderBooks/BinanceSpotSymbolOrderBook.cs:75-90 | Handling a stream of messages makes one call per message, in arrival order. |
| `SpotOrderBookFacts.HandleAllSeedCount` | Binance.Net/SymbolOrderBooks/BinanceSpotSymbolOrderBook.cs:75-90 | In partial mode, every full-book message re-seeds the book. In full-depth mode, no message re-seeds it. Every other message updates the book. |
| `SpotOrderBookFacts.HandleAllTouchesOnlyBook` | Binance.Net/SymbolOrderBooks/BinanceSpotSymbolOrderBook.cs:75-90 | No stream message subscribes, fetches, waits, unsubscribes, changes the status, clears or disposes anything. |
| `SpotOrderBookFacts.DiffModeStreamNeverSeeds` | Binance.Net/SymbolOrderBooks/BinanceSpotSymbolOrderBook.cs:77-87 | In full-depth mode no stream message ever re-seeds the book. |
| `SpotOrderBookFacts.NoOptionsIsEmptyOptions` | Binance.Net/SymbolOrderBooks/BinanceSpotSymbolOrderBook.cs:28-36 | Constructing with no options builds the same book as constructing with options where nothing is set. |
| `SpotOrderBookFacts.DisposeReleasesOnlyCreatedClients` | Binance.Net/SymbolOrderBooks/BinanceSpotSymbolOrderBook.cs:33-36 | Disposing a newly constructed book disposes a client exactly when the caller did not supply it. |
| `SpotOrderBookFacts.ReleasesCounts` | Binance.Net/SymbolOrderBooks/BinanceSpotSymbolOrderBook.cs:118-121 | After the clears, disposal makes exactly one release per owned client, and nothing else. |
| `SpotOrderBookFacts.DisposeEffectCounts` | Binance.Net/SymbolOrderBooks/BinanceSpotSymbolOrderBook.cs:114-121 | Disposal makes three clears whatever the ownership, and one client disposal per created client. It makes no other call. |
| `CancelledIds.Fresh` | Binance.Net/Objects/Spot/SpotData/BinanceCancelledId.cs:15-48 | A new record has an empty (not null) `Id`, an empty `ClientOrderId` and `OcoOrder` false. |
| `CancelledIds.SetId` | Binance.Net/Objects/Spot/SpotData/BinanceCancelledId.cs:14-15 | `orderId` sets `Id` only. `ClientOrderId` and `OcoOrder` are left unchanged. |
| `CancelledIds.SetClientOrderId` | Binance.Net/Objects/Spot/SpotData/BinanceCancelledId.cs:20 | Sets `ClientOrderId` only. |
| `CancelledIds.SetOcoOrder` | Binance.Net/Objects/Spot/SpotData/BinanceCancelledId.cs:48 | The public setter sets `OcoOrder` to the given value, which may be false, and leaves both ids unchanged. |
| `CancelledIds.SetListClientOrderId` | Binance.Net/Objects/Spot/SpotData/BinanceCancelledId.cs:22-31 | `listClientOrderId` sets `ClientOrderId` and flags OCO. `Id` is left unchanged. |
| `CancelledIds.SetOrderListId` | Binance.Net/Objects/Spot/SpotData/BinanceCancelledId.cs:32-44 | `"-1"` changes nothing. Any other value, null included, becomes `Id` and flags OCO. `ClientOrderId` is left unchanged either way. |
| `CancelledIds.GettersReadId` | Binance.Net/Objects/Spot/SpotData/BinanceCancelledId.cs:25-35 | Both private getters return the current `Id`, whatever `ClientOrderId` holds. |
| `CancelledIds.OrderListIdReadsBack` | Binance.Net/Objects/Spot/SpotData/BinanceCancelledId.cs:35-42 | After a real list id is written, reading `orderListId` gives back that id. |
| `CancelledIds.ListClientOrderIdReadsId` | Binance.Net/Objects/Spot/SpotData/BinanceCancelledId.cs:25-29 | After a list client id is written, reading `listClientOrderId` gives the unchanged `Id`. So it equals the written value only when that value equals `Id`. |
| `CancelledIds.AssignAll` | Binance.Net/Objects/Spot/SpotData/BinanceCancelledId.cs:26-43 | Over any sequence of response fields, `OcoOrder` never goes from true to false. |
| `CancelledIds.AssignAllMatchesExpected` | Binance.Net/Objects/Spot/SpotData/BinanceCancelledId.cs:14-43 | Applying fields in arrival order gives the reference result. `Id` is the last `orderId` or non-sentinel `orderListId` value, `ClientOrderId` is the last `clientOrderId` or `listClientOrderId` value, and `OcoOrder` is set once any OCO field has arrived. |
| `CancelledIds.DeserializedOcoIff` | Binance.Net/Objects/Spot/SpotData/BinanceCancelledId.cs:26-43 | A response is read as an OCO cancel exactly when it has a `listClientOrderId`, or an `orderListId` other than `"-1"`. |
| `CancelledIds.NullListIdReadsAsOco` | Binance.Net/Objects/Spot/SpotData/BinanceCancelledId.cs:38-42 | A null `orderListId` fails the `"-1"` test, so a response carrying one is read as an OCO cancel. |
| `CancelledIds.SentinelIgnored` | Binance.Net/Objects/Spot/SpotData/BinanceCancelledId.cs:36-39 | Removing every `"-1"` `orderListId` from a response, wherever it occurs, does not change the result. |
| `CancelledIds.PlainOrderResponse` | Binance.Net/Objects/Spot/SpotData/BinanceCancelledId.cs:14-48 | A plain order's cancel response has its `orderId`, its `clientOrderId` and `orderListId` `"-1"`. In whatever order those fields arrive, it gives exactly those ids, with `OcoOrder` false. |

## Left out

- The generic order-book base class is not part of this model. It holds `UpdateOrderBook`, `SetInitialOrderBook`, `WaitForSetOrderBookAsync`, the process buffer, the ladders, status transitions other than the one to `Syncing`, and gap detection. Its calls appear only as opaque effect labels, and the outcome of the wait is a parameter.
- The REST and socket clients are not modelled either. Subscribe, snapshot fetch, unsubscribe and dispose are effect labels, and their outcomes are parameters. The outcome of unsubscribe is ignored, as in the source.
- A successful subscribe or fetch is modelled as always carrying its data. A successful call with null data, which the source would dereference, is not modelled.
- The 200 ms delay before the snapshot fetch is left out. It is a timing heuristic with no effect on the control flow.
- Async task plumbing, real timeouts and concurrency are left out. The 10000 ms bound is modelled only as the argument passed to the wait.
- Logging and `GC.SuppressFinalize` are left out, because they have no observable effect on the modelled state.
- Symbol validation at construction is left out. Its code is not part of this model, and it only throws on a bad symbol.
- `DoReset` is left out, because its body is empty.
- Passing the options on to the base class's constructor is left out.
- The null check on a client at disposal is left out. It cannot fail, because the constructor always sets both clients.
- Price and quantity decimals are carried as opaque `real` values and are never inspected.
- JSON attribute mapping and converters are left out. Each response field, a JSON `null` included, is assumed to reach its setter. No claim is made about the order in which fields arrive, and the lemmas hold for every order.
- The public `OcoOrder` setter is not part of the field alphabet, because no response field is bound to it. It can reset the flag to false, so the monotonicity of `OcoOrder` holds only for the response fields.
