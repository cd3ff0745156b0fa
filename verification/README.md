# Verified model of the trading platform's core services

This project models, in Dafny, the logic that the platform's services rely on, and proves what that
logic guarantees for every input, every run and every interleaving of its steps:

- the C++ matrix kernel (`core-cpp`): tiled product, sample covariance, Cholesky factor, portfolio variance;
- the Phoenix JavaScript client (`hub-elixir/deps/phoenix`): presence merging, channel membership, long-poll batching;
- the order saga (`loom-java`) composed with the gateway's breaker (`server-go`) and the account ledger (`ledger-clojure`);
- the gateway's WebSocket hub, circuit breaker and metrics queue (`server-go`), with the Java collector and
  the Node buffer (`loom-java`, `apm-server`);
- bond analytics (`engine-dart`), the autoregressive fit and forecast (`analytics-nim`), the value-at-risk
  selection (`wasm-zig`) and the moving-average backtester (`quant-v`).

`dafny verify dfyconfig.toml` checks everything.

## How the model is built

Code that changes things step by step keeps that form: classes with mutable fields, arrays written in
place, loops with invariants. Each such method is tied to a specification function or predicate, and the
theorems are about that specification. Protocols are step machines: a pure `Step` function, a `Run` over
an arbitrary sequence of events, and results by induction over the run; the class beside it has one method
per event whose postcondition is exactly that step. Where objects are shared (channels of a socket,
clients of the hub) the run is a method, and the result is the invariant it keeps, told for the socket by a trace
of what it was before each event.

Conventions:

- Numbers the source holds as floating point are exact reals. The one exception is the tiled product, whose
  addition and multiplication are arbitrary functions, so its result also covers rounding.
- The square root is a parameter, any function with s > 0 and s*s = d for every d > 0 (and, in the backtester, 0 at 0).
- Integer wrap-around is modelled where it can matter: the breaker's 32-bit counters.
- Clocks are parameters (`now`), hash-map iteration order is an arbitrary choice (`:|`), the database is an
  atomic map, a `dosync` block is one atomic step.
- A null buffer, an absent parameter, a duplicate id, an unknown key or an oversized batch is a case of the
  contract, not a precondition.

| file | module | models |
|---|---|---|
| `Common.dfy`, `RealSums.dfy`, `Matrix.dfy` | `Common`, `RealSums`, `Matrix` | shared definitions, finite sums, row-major matrices and quadratic forms |
| `TiledMultiply.dfy`, `Covariance.dfy`, `Cholesky.dfy` | same names | `core-cpp/src/matrix.cpp` |
| `Presence.dfy`, `PhoenixChannel.dfy`, `LongPoll.dfy` | `PhoenixPresence`, `PhoenixChannel`, `PhoenixLongPoll` | the Phoenix client |
| `Ledger.dfy`, `Orders.dfy` | `Ledger`, `Orders` | accounts, order state machine, saga |
| `Hub.dfy`, `Breaker.dfy`, `Apm.dfy` | `WebSocketHub`, `CircuitBreaker`, `Apm` | gateway concurrency and the metrics path |
| `Bond.dfy`, `Autoregression.dfy`, `PartialSelection.dfy`, `Backtest.dfy` | same names | the numeric services |

## Where the code differs from what its documentation suggests

The model follows the code. The members named below give a concrete run that shows the difference, the
exact condition under which the expected property does hold, or both.

- **Completed without payment.** The gateway answers 200 with a degraded body when its breaker is open or the
  ledger is unreachable, and the ledger answers 200 even when it refuses a transfer; the saga reads any 2xx as
  success. It may also give up on a transfer that the ledger executes all the same, even after the order is
  canceled. `Orders.CompletedWithoutTransfer`, `Orders.CanceledAfterTransfer`. Exactly when verdict and payment
  part, if the ledger had executed the transfer or never got it: `Orders.VerdictAgreesWithLedger`, and for the
  breaker `Orders.RefusalExplained`. Otherwise the payment is still open and no verdict can tell:
  `Orders.VerdictCannotTell`; whether it is open: `Orders.PaymentDecidedIff`.
- **The saga's write is unconditional**, and PUT events may complete or cancel a pending order first, although
  comments reserve those transitions for the saga. `Orders.FourChangesHappen`; condition: `Orders.WriteIsAnEdge`.
- **The reported total can be wrong.** `total-balance` reads the accounts one by one outside a transaction.
  `Ledger.TotalCanBeTorn`; condition: `Ledger.TotalAsRead`.
- **Half-open admits everyone**, not one probe. `CircuitBreaker.HalfOpenAdmitsAll`.
- **A breaker can open with a zero counter**, when a success resets it between another goroutine's increment
  and its store. `CircuitBreaker.OpenWithZeroFailures`; fewer increments than the threshold stand at the store if and
  only if a reset came after the deciding increment and fewer than the threshold followed the last such reset:
  `CircuitBreaker.OpenFollowsThresholdIncrements`.
- **The collector's queue limit is not one**: the size check and the offer are two operations.
  `Apm.CapIsExceeded` reaches the bound on the excess (`Apm.CollectorConserves`) for every set of producers; it is a
  limit if and only if there is at most one of them (`Apm.CapHoldsIff`).
- **The metrics buffer can exceed its maximum**, after a batch larger than it. `Apm.OversizedBatchOverfills`;
  conditions: `Apm.BufferBounded` for the size, `Apm.BufferIsTheLastMetrics` for the contents.
- **A long-poll POST whose timeout is reported alone stalls the queue** until a close. That is how `fetch`
  reports it (`ajax.js:39-41`); `XMLHttpRequest` (`ajax.js:72-77`) also completes with an empty response, which
  closes at once. `PhoenixLongPoll.StallHappens`, `PhoenixLongPoll.TimeoutStallsTheQueue`; nothing else stalls it:
  `PhoenixLongPoll.StalledIff`.
- **`channel.leave()` never waits for the server**: the state is already leaving when it asks whether it can push.
  `PhoenixChannel.Socket.Leave`.
- **A channel the server closes while it is joining comes back**, since its join timer keeps running.
  `PhoenixChannel.ServerClosedChannelReturns`; a close is for good exactly when no join attempt was pending
  (`PhoenixChannel.Socket.Dispatch`), and a channel closed for good stays so (`PhoenixChannel.Socket.Run`), as does
  one that had called `join()` and then left by `leave()` (`PhoenixChannel.Socket.Leave`).
- **A transport error without a close puts errored channels to sleep**: it stops their rejoin timers and skips them
  when it errors the open ones. `PhoenixChannel.TransportErrorPutsToSleep`; exactly which channels:
  `PhoenixChannel.Socket.OnConnError`; when a rejoin timer runs, in every run: `PhoenixChannel.Socket.Run`.
- **A presence key can vanish although the server still lists it**, if the server lists it without metas.
  `PhoenixPresence.ListedKeyVanishes`; condition: `PhoenixPresence.SyncStateKeys`.
- **A negative transfer can overdraw the receiver.** `Ledger.NegativeTransferOverdraws`; condition:
  `Ledger.TransferNonNegative`.
- **The maximum drawdown can exceed 1**, when the price of a short position more than doubles.
  `Backtest.DrawdownExceedsOne`; condition: `Backtest.DrawdownAtMostOneIff`, with `Backtest.LosesMoreThanAll`.

## Model

| member | source | states |
|---|---|---|
| `Cholesky.Decompose` | core-cpp/src/matrix.cpp:182-223 | For every n and every matrix: returns 0 exactly when the (mirrored lower triangle of the) matrix is positive definite; then the output is lower triangular with positive diagonal and L Lᵀ = A; otherwise all n×n cells are zero. With input and output the same buffer it always fails. Null or n ≤ 0: -1 and nothing written. Cells beyond n×n untouched |
| `Cholesky.MirrorOfSymmetric` | core-cpp/src/matrix.cpp:182-223 | For symmetric input the mirrored matrix is the input, so both halves of the result are about A itself |
| `Cholesky.FactorIsPositiveDefinite` | core-cpp/src/matrix.cpp:174-178 | Any A = L Lᵀ with L lower triangular and positive on the diagonal is positive definite |
| `Cholesky.FactorIsUnique` | core-cpp/src/matrix.cpp:174-178 | Two such factors of the same matrix agree in every cell, so the computed one is the only one |
| `Cholesky.BadPivotRefutes` | core-cpp/src/matrix.cpp:200-208 | When rows 0..p-1 are factored and pivot p is not positive, back substitution gives a vector on which the quadratic form is ≤ 0: the matrix is not positive definite |
| `Cholesky.BackSubstitute` | core-cpp/src/matrix.cpp:182-223 | The transposed triangular system Lᵀy = b over a leading block has a solution, the vector behind the refutation |
| `Cholesky.PivotFails` | core-cpp/src/matrix.cpp:200-208 | The loop's own state at a non-positive pivot refutes positive definiteness |
| `Cholesky.StoredValue` | core-cpp/src/matrix.cpp:200-219 | The root or quotient the loop stores makes its cell an exact partial inner product; the divisor l[j][j] is always positive, so the zero-pivot branch is never taken |
| `Cholesky.NextValue` | core-cpp/src/matrix.cpp:195-219 | The inner accumulation and branch: yields the cell's value, or fails only at a pivot that refutes positive definiteness |
| `Cholesky.PartialDot` | core-cpp/src/matrix.cpp:195-199 | The running sum is the inner product of rows i and j over the columns before j, within bounds |
| `Cholesky.CellStored` | core-cpp/src/matrix.cpp:209-218 | Storing a cell keeps every earlier cell exact and every later one zero |
| `Cholesky.ComputedFactor` | core-cpp/src/matrix.cpp:191-222 | Complete rows are a Cholesky factor of the leading block |
| `TiledMultiply.Multiply` | core-cpp/src/matrix.cpp:27-67 | For all shapes, any tile size and arbitrary (non-associative) add and mul, each cell is the naive left-to-right accumulation over l; invalid arguments and cells beyond m×n leave memory untouched; all accesses in bounds |
| `TiledMultiply.AccumulateBand` | core-cpp/src/matrix.cpp:44-65 | The term and column tile loops bring every cell of a row band from 0 to k terms and no other cell anywhere |
| `TiledMultiply.AccumulateTile` | core-cpp/src/matrix.cpp:53-63 | The kernel brings exactly the cells of its tile from ll to l_end terms |
| `TiledMultiply.AccumulateRow` | core-cpp/src/matrix.cpp:57-61 | The innermost loop adds term l to exactly the cells jj..j_end of row i |
| `TiledMultiply.AccumulateCell` | core-cpp/src/matrix.cpp:60-60 | Adding term l to a cell that has its first l terms gives its first l+1 terms and changes no other cell |
| `TiledMultiply.RealCell` | core-cpp/src/matrix.cpp:17-26 | Over the reals the accumulated cell is the inner product of row i of A and column j of B |
| `Covariance.CovarianceMatrix` | core-cpp/src/matrix.cpp:79-133 | The output is the unbiased sample covariance of the rows, in every cell; invalid arguments leave it untouched |
| `Covariance.PortfolioVarianceOfReturns` | core-cpp/src/matrix.cpp:79-133 | covariance_matrix followed by portfolio_variance is the unbiased sample variance of the portfolio's own return series Σᵢ wᵢrᵢₜ, and is never negative |
| `Covariance.PortfolioVarianceIsSampleVariance` | core-cpp/src/matrix.cpp:253-262 | wᵀSw equals the sample variance of the weighted series, for all returns and weights |
| `Covariance.CovarianceIsSemidefinite` | core-cpp/src/matrix.cpp:69-78 | The sample covariance matrix is symmetric and positive semidefinite |
| `Covariance.PortfolioMean` | core-cpp/src/matrix.cpp:93-110 | The mean of the portfolio series is the weighted sum of the asset means |
| `Covariance.CentredPortfolio` | core-cpp/src/matrix.cpp:117-129 | Combining the assets' deviations gives the centred portfolio series at every period |
| `Covariance.ComputeMeans` | core-cpp/src/matrix.cpp:101-110 | Every entry is the mean of its row |
| `Covariance.ComputeEntry` | core-cpp/src/matrix.cpp:121-126 | One entry is the covariance of two rows |
| `Covariance.FillCovariance` | core-cpp/src/matrix.cpp:115-130 | The upper-triangle loops with mirroring fill every cell (i, j) and (j, i) |
| `Covariance.FillPair` | core-cpp/src/matrix.cpp:127-128 | Writing a cell and its mirror keeps all cells already filled |
| `Covariance.MatVecMul` | core-cpp/src/matrix.cpp:231-251 | y = A x row by row; y beyond m untouched; invalid arguments leave y untouched |
| `Covariance.PortfolioVariance` | core-cpp/src/matrix.cpp:263-290 | The two passes compute the quadratic form wᵀ cov w; 0 on invalid arguments |
| `PhoenixPresence.SyncDiffPairs` | hub-elixir/deps/phoenix/assets/js/phoenix/presence.js:109-137 | On (key, phx_ref) pairs, syncDiff is (state ∪ joins) ∖ leaves |
| `PhoenixPresence.SyncDiffNoEmpty` | hub-elixir/deps/phoenix/assets/js/phoenix/presence.js:109-137 | No key is left with empty metas if and only if every key untouched by leaves has metas in the state or the joins |
| `PhoenixPresence.SyncDiffDistinct` | hub-elixir/deps/phoenix/assets/js/phoenix/presence.js:109-137 | syncDiff keeps the references of each key distinct |
| `PhoenixPresence.SyncDiffMetas` | hub-elixir/deps/phoenix/assets/js/phoenix/presence.js:114-135 | Exactly which metas survive a diff: joining ones and unreplaced current ones, unless they leave |
| `PhoenixPresence.SyncDiffOrder` | hub-elixir/deps/phoenix/assets/js/phoenix/presence.js:114-123 | After a diff, every surviving current meta of a key stands before every joined one, each group in its own order; a joined key carries the joining presence's other fields, any other key its own |
| `PhoenixPresence.SyncStateOrder` | hub-elixir/deps/phoenix/assets/js/phoenix/presence.js:68-98 | After a snapshot, the metas a key had for known references come first, then the server's new ones, each in order; and which presence the other fields come from |
| `PhoenixPresence.SyncStatePairs` | hub-elixir/deps/phoenix/assets/js/phoenix/presence.js:68-98 | syncState yields exactly the new state's (key, phx_ref) pairs, whatever the client held |
| `PhoenixPresence.SyncStateKeys` | hub-elixir/deps/phoenix/assets/js/phoenix/presence.js:68-98 | The keys are exactly the new state's if and only if no key that had metas is listed without any; in particular if the new state has no empty metas |
| `PhoenixPresence.ListedKeyVanishes` | hub-elixir/deps/phoenix/assets/js/phoenix/presence.js:68-98 | For every key shown with metas: a snapshot that lists it without metas removes it |
| `PhoenixPresence.SyncStateMetas` | hub-elixir/deps/phoenix/assets/js/phoenix/presence.js:78-96 | For a key on both sides, known references keep the client's meta and new ones take the server's |
| `PhoenixPresence.SyncStateDistinct` | hub-elixir/deps/phoenix/assets/js/phoenix/presence.js:68-98 | syncState keeps the references of each key distinct |
| `PhoenixPresence.ApplyJoins` | hub-elixir/deps/phoenix/assets/js/phoenix/presence.js:114-123 | The joins loop, in any key order, gives the key-by-key merge; what that merge is: `PhoenixPresence.SyncDiffPairs`, `PhoenixPresence.SyncDiffOrder` |
| `PhoenixPresence.ApplyLeaves` | hub-elixir/deps/phoenix/assets/js/phoenix/presence.js:124-135 | The leaves loop, in any key order, filters each key and deletes those left empty |
| `PhoenixPresence.SyncDiff` | hub-elixir/deps/phoenix/assets/js/phoenix/presence.js:109-137 | The two loops compute the diff result, whose pairs, metas, order and other fields the rows on syncDiff state |
| `PhoenixPresence.CompareKeys` | hub-elixir/deps/phoenix/assets/js/phoenix/presence.js:78-96 | The second loop of syncState, in any key order, derives the joins and leaves between the two states |
| `PhoenixPresence.SyncState` | hub-elixir/deps/phoenix/assets/js/phoenix/presence.js:68-98 | The loops and the final syncDiff compute the specified state result |
| `PhoenixPresence.BuffersUntilSnapshot` | hub-elixir/deps/phoenix/assets/js/phoenix/presence.js:34-38 | From a change of join attempt on, every diff is buffered in order until a snapshot, whatever else happens |
| `PhoenixPresence.AppliesWhileInSync` | hub-elixir/deps/phoenix/assets/js/phoenix/presence.js:37-42 | In sync, the view is the starting view with every diff applied in order and nothing is buffered |
| `PhoenixPresence.NothingBufferedInSync` | hub-elixir/deps/phoenix/assets/js/phoenix/presence.js:54-56 | In every run, a client in sync has an empty buffer |
| `PhoenixPresence.SyncIsTracked` | hub-elixir/deps/phoenix/assets/js/phoenix/presence.js:54-56 | In every run the client is out of pending sync exactly when a snapshot has arrived on the channel's current join attempt |
| `PhoenixPresence.EveryRunShows` | hub-elixir/deps/phoenix/assets/js/phoenix/presence.js:21-43 | In every run, in sync or not, the buffer holds exactly the diffs received out of sync since the latest snapshot, and the client shows exactly the (key, phx_ref) pairs its events account for |
| `PhoenixPresence.ViewInSync` | hub-elixir/deps/phoenix/assets/js/phoenix/presence.js:21-43 | For every run outside pending sync: the client shows the latest snapshot with the diffs buffered when it arrived and the diffs received since applied in order |
| `PhoenixPresence.MetasInJoinOrder` | hub-elixir/deps/phoenix/assets/js/phoenix/presence.js:21-43 | For every run outside pending sync: the metas of each key stand in the order in which their references last joined since the snapshot, those that did not join since first |
| `PhoenixPresence.OrderOfJoins` | hub-elixir/deps/phoenix/assets/js/phoenix/presence.js:37-42 | Any diffs applied in order leave the metas of every key in the order in which their references joined |
| `PhoenixPresence.BufferedSinceChange` | hub-elixir/deps/phoenix/assets/js/phoenix/presence.js:34-38 | After a run in sync and a change of join attempt, what is buffered is every diff received since the change |
| `PhoenixPresence.KeysNeverEmpty` | hub-elixir/deps/phoenix/assets/js/phoenix/presence.js:21-43 | If no message carries a presence without metas, no key of the client is ever empty, in any run |
| `PhoenixPresence.RefsStayDistinct` | hub-elixir/deps/phoenix/assets/js/phoenix/presence.js:21-43 | If no message repeats a reference within a key, neither does the client, in any run |
| `PhoenixPresence.Presence.OnState` | hub-elixir/deps/phoenix/assets/js/phoenix/presence.js:21-32 | The snapshot handler, with its loop over the pending diffs, is the model's snapshot step |
| `PhoenixPresence.Presence.OnDiff` | hub-elixir/deps/phoenix/assets/js/phoenix/presence.js:34-43 | The diff handler is the model's diff step |
| `PhoenixChannel.Socket.Run` | hub-elixir/deps/phoenix/assets/js/phoenix/socket.js:606-709 | Every run of joins, leaves, replies, closes, errors, timeouts, rejoins and reconnects, told by a trace of the socket before each event: each event changes each field of each channel exactly as its effect says; when the socket opens, every topic with an errored channel rejoins on a reference not issued before; at every moment at most one channel per topic in socket.channels is joined or joining; a channel becomes joined only on the ok reply to its latest attempt; a channel closed for good never comes back; a rejoin timer runs at the end if and only if some event of the run was an error for its channel while connected (or it ran before) and no event since stopped it |
| `PhoenixChannel.Socket.Perform` | hub-elixir/deps/phoenix/assets/js/phoenix/channel.js:30-71 | One event of a run, with its whole effect on every channel: a first join() and a rejoin start an attempt on a fresh reference and make the other open channel of the topic leave; leave() closes and removes; replies, errors, closes and timeouts act on the channels they are for and no others; the invariant is kept |
| `PhoenixChannel.Socket.Receive` | hub-elixir/deps/phoenix/assets/js/phoenix/socket.js:679-701 | A frame, as one event of a run: what each channel is afterwards, field by field; a close for a single member always removes it |
| `PhoenixChannel.Socket.Connection` | hub-elixir/deps/phoenix/assets/js/phoenix/socket.js:466-582 | The connection opening, failing or being lost, as one event of a run: which channels error, which rejoin, and which timers stop |
| `PhoenixChannel.Socket.CallJoin` | hub-elixir/deps/phoenix/assets/js/phoenix/channel.js:79-88 | join() as one event of a run: a first call starts an attempt on a fresh reference and displaces the other open channel of the topic; a second one changes nothing |
| `PhoenixChannel.Socket.CallLeave` | hub-elixir/deps/phoenix/assets/js/phoenix/channel.js:206-222 | leave() as one event of a run: the channel is closed and removed with its timers off, and no other channel changes |
| `PhoenixChannel.Socket.RejoinTimerEvent` | hub-elixir/deps/phoenix/assets/js/phoenix/timer.js:34-41 | The rejoin timer as one event of a run: while running and connected it starts a fresh attempt, otherwise only the timer changes |
| `PhoenixChannel.EffectTells` | hub-elixir/deps/phoenix/assets/js/phoenix/channel.js:30-71 | From the effect of any event on a sound channel: it joins only on the ok reply to its latest attempt, retirement is kept, and the rejoin timer runs exactly as started and stopped |
| `PhoenixChannel.CallbackRuns` | hub-elixir/deps/phoenix/assets/js/phoenix/socket.js:466-475 | One more open callback keeps what the callbacks so far have achieved: each topic with an errored channel whose callback ran has a channel joining on a fresh reference |
| `PhoenixChannel.TimerOnIff` | hub-elixir/deps/phoenix/assets/js/phoenix/channel.js:30-71 | Over every trace: a rejoin timer runs if and only if some event started it and no later one stopped it |
| `PhoenixChannel.RetiredStays` | hub-elixir/deps/phoenix/assets/js/phoenix/channel.js:49-54 | Over every trace: closed for good stays closed for good |
| `PhoenixChannel.Socket.KeepsValid` | hub-elixir/deps/phoenix/assets/js/phoenix/socket.js:703-709 | When a change of one channel keeps the socket's invariant: unless it opens the channel beside an open one of its topic or leaves it listening without joining |
| `PhoenixChannel.Socket.OnMessage` | hub-elixir/deps/phoenix/assets/js/phoenix/socket.js:679-701 | Dispatch over a list that may shrink: only members change, each exactly as the frame says; a close leaves of the list exactly what skipping one channel behind each removed member leaves |
| `PhoenixChannel.Socket.SurvivesIff` | hub-elixir/deps/phoenix/assets/js/phoenix/socket.js:687-696 | A member of a close stays in the list if and only if the channel before it in the list was removed |
| `PhoenixChannel.Socket.Dispatch` | hub-elixir/deps/phoenix/assets/js/phoenix/channel.js:49-71 | What one frame does to one channel: reply, error and close bindings; a close is for good if and only if the channel had called join() and has no join attempt pending with its timer running |
| `PhoenixChannel.Socket.LeaveOpenTopic` | hub-elixir/deps/phoenix/assets/js/phoenix/socket.js:703-709 | Afterwards no channel of the topic is open; exactly the open ones of the topic have left, and nothing else has changed |
| `PhoenixChannel.Socket.Rejoin` | hub-elixir/deps/phoenix/assets/js/phoenix/channel.js:260-265 | Afterwards the channel is joining with a fresh reference it alone listens to; the other open channel of its topic has left, and no other channel has changed |
| `PhoenixChannel.Socket.Join` | hub-elixir/deps/phoenix/assets/js/phoenix/channel.js:79-88 | Throws exactly on a second call, changing nothing; otherwise starts a fresh join attempt |
| `PhoenixChannel.Socket.Leave` | hub-elixir/deps/phoenix/assets/js/phoenix/channel.js:206-222 | Closes at once, stops both timers and removes the channel, leaving its reference and bindings alone; a channel that had called join() is then closed for good |
| `PhoenixChannel.Socket.SendJoin` | hub-elixir/deps/phoenix/assets/js/phoenix/push.js:33-44 | A fresh reference is issued and bound and the timer started, unless a timeout was already received |
| `PhoenixChannel.Channel.ResetJoinPush` | hub-elixir/deps/phoenix/assets/js/phoenix/push.js:63-69 | The reference is unbound and forgotten with its reply |
| `PhoenixChannel.Channel.ReceiveJoinReply` | hub-elixir/deps/phoenix/assets/js/phoenix/push.js:98-113 | The listening reference is unbound, the timer stopped, and the hook of the status run |
| `PhoenixChannel.Channel.ResetRejoinTimer` | hub-elixir/deps/phoenix/assets/js/phoenix/timer.js:26-29 | The timer stops and its tries restart at zero |
| `PhoenixChannel.Channel.ScheduleRejoin` | hub-elixir/deps/phoenix/assets/js/phoenix/channel.js:55-60 | The rejoin timer runs afterwards exactly if the socket is connected or it ran before |
| `PhoenixChannel.Socket.OnError` | hub-elixir/deps/phoenix/assets/js/phoenix/channel.js:55-60 | The channel errors, a pending attempt is reset, and the rejoin timer runs if connected |
| `PhoenixChannel.Socket.OnClose` | hub-elixir/deps/phoenix/assets/js/phoenix/channel.js:49-54 | The channel is closed, removed from the socket, and its rejoin timer stopped |
| `PhoenixChannel.Socket.TriggerReply` | hub-elixir/deps/phoenix/assets/js/phoenix/channel.js:69-71 | Only a channel listening on exactly that reference, which is then its latest attempt, reacts, and how for each status |
| `PhoenixChannel.Socket.JoinTimerFires` | hub-elixir/deps/phoenix/assets/js/phoenix/push.js:110-112 | A timed-out attempt errors the channel, forgets its reference and starts the rejoin timer if connected; without a pending attempt nothing but the timer changes |
| `PhoenixChannel.Socket.RejoinTimerFires` | hub-elixir/deps/phoenix/assets/js/phoenix/timer.js:34-41 | While connected the channel starts a fresh join attempt, for which the other open channel of its topic leaves; otherwise only its timer stops |
| `PhoenixChannel.Socket.TriggerChanError` | hub-elixir/deps/phoenix/assets/js/phoenix/socket.js:576-582 | Exactly the open channels error, with the rejoin timer started if connected; all others, dispatched or not, are untouched |
| `PhoenixChannel.Socket.OnConnError` | hub-elixir/deps/phoenix/assets/js/phoenix/socket.js:561-571 | Every dispatched channel loses its rejoin timer; then, unless a fallback transport took over, exactly the open ones error and wait for a new timer if connected, so that exactly those that had errored before are left without one |
| `PhoenixChannel.Socket.OnConnOpen` | hub-elixir/deps/phoenix/assets/js/phoenix/socket.js:466-475 | The open callbacks, run over the list as it was: an errored channel still dispatched to is joining on a reference not issued before, and every topic with an errored channel has such a one; any other channel keeps its state unless it left for one of its topic that had errored; channels of other topics only lose their timers, and no removed channel is touched |
| `PhoenixChannel.Socket.OpenCallback` | hub-elixir/deps/phoenix/assets/js/phoenix/channel.js:34-37 | One channel's open callback: an errored channel is joining afterwards, on a fresh reference to which alone it listens, with its join timer running; any other only has its rejoin timer stopped; other topics are untouched |
| `PhoenixChannel.Socket.NewChannel` | hub-elixir/deps/phoenix/assets/js/phoenix/socket.js:632-636 | A closed channel that was never joined is appended |
| `PhoenixChannel.Socket.Remove` | hub-elixir/deps/phoenix/assets/js/phoenix/socket.js:606-609 | Exactly that channel is no longer dispatched to |
| `PhoenixChannel.Socket.MakeRef` | hub-elixir/deps/phoenix/assets/js/phoenix/socket.js:658-663 | References are issued in increasing order |
| `PhoenixChannel.ServerClosedChannelReturns` | hub-elixir/deps/phoenix/assets/js/phoenix/channel.js:49-54 | For every connected socket and every channel with a pending join attempt: after a server close, its join timer and its rejoin timer, the channel is joining again outside socket.channels |
| `PhoenixChannel.TransportErrorPutsToSleep` | hub-elixir/deps/phoenix/assets/js/phoenix/socket.js:561-571 | From a new socket: open, join, ok reply, an error frame, then a transport error without a close; the channel is left errored and dispatched, with its rejoin timer off, on a connected socket |
| `PhoenixLongPoll.NothingLostOrReordered` | hub-elixir/deps/phoenix/assets/js/phoenix/longpoll.js:137-164 | In every run at most one POST is un-acked, and issued bodies ++ open batch ++ buffer (after a close: ++ what it discarded) are exactly the bodies sent, in order |
| `PhoenixLongPoll.StepKeepsInv` | hub-elixir/deps/phoenix/assets/js/phoenix/longpoll.js:137-164 | Every event keeps the queue's invariant: one POST in flight at most, the batch open only when nothing is awaited, the buffer used only while awaiting |
| `PhoenixLongPoll.QuiescentMeansDelivered` | hub-elixir/deps/phoenix/assets/js/phoenix/longpoll.js:152-163 | While open, with no ack awaited and no open batch, everything sent has been posted |
| `PhoenixLongPoll.SentTogetherPostedTogether` | hub-elixir/deps/phoenix/assets/js/phoenix/longpoll.js:137-164 | Whatever is sent before the batch timer fires goes out in one POST, and whatever is sent while a POST is un-acked goes out in one POST when its ack arrives |
| `PhoenixLongPoll.ClosedIff` | hub-elixir/deps/phoenix/assets/js/phoenix/longpoll.js:156-178 | In every run the transport is closed exactly if its last event was a failed POST or a close for another reason; nothing is posted then |
| `PhoenixLongPoll.CloseLosesWhatWaited` | hub-elixir/deps/phoenix/assets/js/phoenix/longpoll.js:156-178 | A close, after a failed POST or for any other reason, loses exactly the open batch and the buffer; nothing is lost if and only if both were empty |
| `PhoenixLongPoll.StalledIff` | hub-elixir/deps/phoenix/assets/js/phoenix/longpoll.js:152-163 | In every run before a close, an ack is awaited that no POST can bring if and only if some POST timed out |
| `PhoenixLongPoll.StallHappens` | hub-elixir/deps/phoenix/assets/js/phoenix/longpoll.js:154-155 | The run of one send, its batch timer and a timeout is possible and stalls |
| `PhoenixLongPoll.TimeoutStallsTheQueue` | hub-elixir/deps/phoenix/assets/js/phoenix/longpoll.js:154-155 | After a POST times out, no further POST is issued in any continuation before a close |
| `PhoenixLongPoll.SplitUndoesJoin` | hub-elixir/deps/phoenix/assets/js/phoenix/longpoll.js:154-154 | Splitting a joined body into lines gives back the messages when none contains a newline |
| `PhoenixLongPoll.BodyRoundTrip` | hub-elixir/deps/phoenix/assets/js/phoenix/longpoll.js:154-154 | The body reads back as the same messages if and only if none contains a newline |
| `PhoenixLongPoll.LongPoll.Send` | hub-elixir/deps/phoenix/assets/js/phoenix/longpoll.js:137-150 | send is the model's step |
| `PhoenixLongPoll.LongPoll.BatchTimerFires` | hub-elixir/deps/phoenix/assets/js/phoenix/longpoll.js:145-148 | The batch timer is the model's step |
| `PhoenixLongPoll.LongPoll.BatchSend` | hub-elixir/deps/phoenix/assets/js/phoenix/longpoll.js:152-154 | One POST with the given messages is issued and its ack awaited |
| `PhoenixLongPoll.LongPoll.OnResponse` | hub-elixir/deps/phoenix/assets/js/phoenix/longpoll.js:154-163 | The response callback is the model's step: on 200 the buffer is posted if it is not empty, on anything else the transport closes |
| `PhoenixLongPoll.LongPoll.CloseAndRetry` | hub-elixir/deps/phoenix/assets/js/phoenix/longpoll.js:166-178 | close() is the model's close: requests aborted, the buffer emptied, the batch timer cleared |
| `PhoenixLongPoll.LongPoll.OnTimeout` | hub-elixir/deps/phoenix/assets/js/phoenix/longpoll.js:154-154 | The timeout callback leaves the awaiting flag set; it runs alone with fetch, while XMLHttpRequest also runs the response callback |
| `Ledger.RunConserves` | ledger-clojure/server.clj:41-64 | Over every interleaving of transfers and resets: the total is conserved, the log replays from the initial balances to the current ones with every entry acceptable in turn, and the counter is the log's length |
| `Ledger.TransferConserves` | ledger-clojure/server.clj:41-54 | A transfer of any amount between any two accounts, the same one included, conserves the total |
| `Ledger.TransferMovesTheAmount` | ledger-clojure/server.clj:47-48 | Exactly the two accounts change, by the amount; a self-transfer changes nothing |
| `Ledger.WholeBalanceMoves` | ledger-clojure/server.clj:45-48 | Between two accounts exactly the amounts up to the payer's balance are accepted; moving the whole balance leaves 0, and no accepted transfer overdraws the payer |
| `Ledger.TransferNonNegative` | ledger-clojure/server.clj:45-48 | An accepted transfer keeps all balances non-negative if and only if it is a self-transfer or the receiver's new balance is not negative |
| `Ledger.NegativeTransferOverdraws` | ledger-clojure/server.clj:45-48 | From the configured balances, a transfer of -20,000 from ACC-001 leaves ACC-002 at -11,500 |
| `Ledger.RunNonNegative` | ledger-clojure/server.clj:41-54 | If no amount is negative no balance ever is, in any run |
| `Ledger.TotalIsAlways36500` | ledger-clojure/server.clj:24-28 | In every run of the configured accounts the true total is 36,500.0 |
| `Ledger.TotalUpdate` | ledger-clojure/server.clj:56-57 | Changing one balance changes a total by exactly that difference, or not at all if the account is not counted |
| `Ledger.TotalAsRead` | ledger-clojure/server.clj:56-57 | Read account by account while transfers commit, the reported total is the true one plus the net amount that crossed the reader; it is right if and only if that is zero |
| `Ledger.ReadingDrifts` | ledger-clojure/server.clj:56-57 | At every point of such a reading, what was read plus what is still to read is the true total plus what has crossed |
| `Ledger.TotalCanBeTorn` | ledger-clojure/server.clj:56-57 | A concrete interleaving in which 36,600.0 is reported |
| `Ledger.Accounts.TransferFunds` | ledger-clojure/server.clj:41-54 | transfer! succeeds exactly when both accounts exist and the balance covers the amount; then payer, payee, log and counter change by the transfer, and otherwise nothing does |
| `Ledger.Accounts.TotalBalance` | ledger-clojure/server.clj:56-57 | Undisturbed, the loop returns the total of the accounts |
| `Ledger.Accounts.ResetAccounts` | ledger-clojure/server.clj:59-64 | reset-accounts! restores the configured balances and empties the log and the counter |
| `Orders.EveryOrderSettles` | loom-java/VirtualServer.java:364-413 | Under every interleaving a posted order has only been pending, completed, canceled or refunded; its history is state-machine edges plus at most one saga write, after which it stays completed on success, else canceled or refunded; at most four changes |
| `Orders.RunKeepsInv` | loom-java/VirtualServer.java:654-735 | Every run keeps the whole system's invariant |
| `Orders.StepKeepsInv` | loom-java/VirtualServer.java:654-735 | Every step of every interleaving keeps it |
| `Orders.PutKeepsInv` | loom-java/VirtualServer.java:212-249 | A PUT event keeps the order's invariant, including the rank bound |
| `Orders.WriteKeepsInv` | loom-java/VirtualServer.java:173-182 | The unconditional saga write keeps it, whatever events came first |
| `Orders.WriteIsAnEdge` | loom-java/VirtualServer.java:170-182 | The saga's write follows the state machine if and only if no event changed the order before it |
| `Orders.EventsOfAPostedOrder` | loom-java/VirtualServer.java:212-249 | For every posted order in every run: COMPLETE and CANCEL change a pending one, REFUND a canceled one, to the status they name; no other event changes any |
| `Orders.TransitionTable` | loom-java/VirtualServer.java:76-104 | The nine pairs of status and event that are transitions, and no others |
| `Orders.FourChangesHappen` | loom-java/VirtualServer.java:403-407 | The bound of four changes is reached: a late write revives a refunded order |
| `Orders.AtMostOneLedgerRequest` | loom-java/VirtualServer.java:151-168 | However often an id is posted, the ledger executes at most one transfer for it |
| `Orders.BookOfRun` | loom-java/VirtualServer.java:364-390 | The ledger's state after any run of the system is that of the transfers that reached it, in order; which those are: `Orders.ExecutionMovesTheMoney`, `Orders.OtherEventsLeaveTheBook` |
| `Orders.ExecutionMovesTheMoney` | ledger-clojure/server.clj:41-54 | For every run and every execution of an order's transfer in it: if both accounts exist and the payer holds the amount, the payer loses it, the payee gains it (nothing changes between equal accounts), other accounts keep theirs and the log ends with the order's own transfer; otherwise the book is unchanged |
| `Orders.OtherEventsLeaveTheBook` | loom-java/VirtualServer.java:364-390 | No other event of an order changes any balance, the log or the counter |
| `Orders.PostedTransfer` | loom-java/VirtualServer.java:654-694 | An order's transfer is, in every run, the one of the POST that created it, with a positive amount |
| `Orders.PaidOrder` | ledger-clojure/server.clj:41-54 | A run that posts, forwards and executes 100.0 from ACC-001 to ACC-002: 9,900.0 and 8,600.0 afterwards |
| `Orders.MoneyIsConserved` | loom-java/VirtualServer.java:364-390 | Whatever orders and sagas do, the accounts together hold 36,500.0 |
| `Orders.VerdictComesFromTheCall` | loom-java/VirtualServer.java:385-401 | Each saga's verdict is reached in one step of the run: the gateway refuses the request (success), the request settles (success exactly on a 2xx answer), or the saga gives up (failure) |
| `Orders.VerdictOfEach` | loom-java/VirtualServer.java:385-401 | In every run: a refused request and an unreachable ledger, both answered 200, make the saga succeed; a reply does if its status is 200 to 299; giving up never does |
| `Orders.VerdictAgreesWithLedger` | loom-java/VirtualServer.java:385-404 | In every run, with k the step that decides: success exactly if the breaker refused the request or the gateway answered 2xx. If the ledger executed the transfer before step k, or the request was refused, success without payment happens exactly when it was refused or a 2xx answered a transfer that the ledger had turned down, and failure after payment exactly when the saga gave up, or got an answer outside 2xx, on one that it had covered. Otherwise the saga gave up or the gateway answered for an unreachable ledger, nothing is paid at step k and the payment is open |
| `Orders.VerdictCannotTell` | loom-java/VirtualServer.java:385-404 | While the payment is open (and the accounts exist), the verdict is final, the order unpaid, and a continuation pays it |
| `Orders.VerdictIsFinal` | loom-java/VirtualServer.java:385-404 | No continuation changes a saga's verdict |
| `Orders.PaymentDecidedIff` | ledger-clojure/server.clj:41-54 | Whether an order is paid is the same in every continuation if and only if its request was refused, its transfer executed, or an account is unknown |
| `Orders.PaymentIsFinal` | ledger-clojure/server.clj:41-54 | Once the request is refused or the transfer executed, no continuation changes whether the order is paid |
| `Orders.UnknownIsNeverPaid` | ledger-clojure/server.clj:44-45 | A transfer that names an unknown account is never paid, in any continuation |
| `Orders.PaysNextIff` | ledger-clojure/server.clj:41-54 | While the payment is open nothing is paid; the ledger's next execution pays it if and only if the request was forwarded and the balance covers it |
| `Orders.CanStillBePaid` | ledger-clojure/server.clj:41-64 | Every open payment between known accounts has a continuation that pays it |
| `Orders.BreakerOfRun` | server-go/main.go:310-346 | The breaker's state after any run is that of all its calls, those of the orders' requests and those of others, in order |
| `Orders.SettlingIsRecorded` | server-go/main.go:320-334 | After any run, a settled request: an answer below 500 closes the breaker and resets its count; one from 500 on, or none, counts one failure at that time and opens it from the third on, else leaves its state |
| `Orders.AdmissionProbes` | server-go/main.go:336-345 | After any run, a request is turned away if the breaker is open and the last failure at most 30 seconds old, and forwarded otherwise; an open breaker is then half-open |
| `Orders.OtherEventsLeaveTheBreaker` | server-go/main.go:336-345 | No other event of an order reaches the breaker |
| `Orders.RefusalExplained` | server-go/main.go:336-340 | An order's request is refused if and only if, among all breaker calls before it, some failure at a count of three or more opened the breaker, nothing closed or probed it since, and the 30 seconds have not passed |
| `Orders.MoneyMovedIff` | ledger-clojure/server.clj:41-54 | An order's money has moved (by an execution that `Orders.ExecutionMovesTheMoney` describes) if and only if the order is marked as executed and accepted |
| `Orders.CompletedWithoutTransfer` | server-go/main.go:99-109 | A run in which three failures of others open the breaker and an order is then completed with the ledger untouched |
| `Orders.CanceledAfterTransfer` | loom-java/VirtualServer.java:395-404 | A run in which an order is canceled and its money moves afterwards |
| `Orders.DbStore.InsertOrderPending` | loom-java/VirtualServer.java:151-168 | The first insertion of an id wins; later ones return nothing and change nothing |
| `Orders.DbStore.UpdateOrderStatus` | loom-java/VirtualServer.java:173-182 | The status is overwritten without a check; an unknown id changes nothing |
| `Orders.DbStore.ApplyTransition` | loom-java/VirtualServer.java:212-249 | Applied exactly when the row exists and the state machine allows it; all other outcomes leave the rows unchanged |
| `Orders.OrderService.Post` | loom-java/VirtualServer.java:654-694 | 400 exactly for a missing or empty id, a type other than BUY and SELL, or an amount missing or not positive; 409 for a known id; 202 inserts a pending order with that transfer and a waiting saga; otherwise rows and orders are unchanged |
| `Orders.OrderService.Put` | loom-java/VirtualServer.java:699-735 | Status codes 404, 200 and 400 characterised; 200 writes exactly the target status, otherwise no row changes; the rows keep agreeing with the orders of the run, which the handler extends by one event |
| `Orders.OrderService.AwaitCall` | loom-java/VirtualServer.java:367-401 | Success exactly on a 2xx status, failure on any other and on an exception; the verdict is the one the event of the run brings |
| `Orders.OrderService.WriteOutcome` | loom-java/VirtualServer.java:403-412 | The saga's write extends the run by its event and overwrites the status; a failed write leaves the rows unchanged |
| `Orders.Proxy.Serve` | server-go/main.go:336-345 | A request is answered 200 exactly if the breaker is open and the last failure at most 30 seconds old, and forwarded otherwise, an open breaker becoming half-open; counts and times are untouched |
| `Orders.Proxy.Finish` | server-go/main.go:320-334 | The ledger's status is passed on: below 500 it resets the count and closes the breaker, from 500 on it counts as failure; a transport error is answered 200 and counted as failure; a failure adds one to the count, sets the time, and opens the breaker from the third on |
| `WebSocketHub.Hub.Run` | server-go/main.go:457-478 | In every run no send channel is closed twice or used after close, and what each client was sent is a contiguous block of the broadcasts from its registration to now, or to where it was dropped, in order |
| `WebSocketHub.Hub.Perform` | server-go/main.go:457-478 | Every event keeps that invariant and extends the broadcast sequence only by a publish |
| `WebSocketHub.Hub.Broadcast` | server-go/main.go:467-476 | Exactly the clients with a full buffer are evicted; every other client gets the message; dropped clients are untouched |
| `WebSocketHub.Hub.Offer` | server-go/main.go:469-474 | One client gets the message, or is closed and dropped without it |
| `WebSocketHub.Hub.Register` | server-go/main.go:480-491 | A fresh client starts its block at the current end of the broadcasts |
| `WebSocketHub.Hub.Unregister` | server-go/main.go:462-466 | The client is dropped and its channel closed once, also if it was evicted before |
| `WebSocketHub.Client.TrySend` | server-go/main.go:469-471 | Refused exactly when 256 messages are waiting; otherwise appended |
| `WebSocketHub.Client.Receive` | server-go/main.go:419-429 | Messages leave in the order they were put in |
| `CircuitBreaker.CountsTheFailureRun` | server-go/main.go:83-97 | After any history the counter is the length of the trailing failure run, modulo 32-bit wrap-around |
| `CircuitBreaker.ClosedBelowThreshold` | server-go/main.go:66-97 | After any history the breaker is closed if and only if the failure run is below the threshold |
| `CircuitBreaker.OpenCharacterised` | server-go/main.go:66-97 | After any history it is open if and only if some failure opened it and nothing closed or probed it since |
| `CircuitBreaker.RefusalCharacterised` | server-go/main.go:66-81 | Allow refuses if and only if it is open in that sense and the reset window has not passed |
| `CircuitBreaker.RefusalWithoutWrap` | server-go/main.go:66-81 | While the failure run is below 2³¹: refuses if and only if the failure run reached the threshold, nothing half-opened it since the last failure, and the window has not passed |
| `CircuitBreaker.HalfOpenAdmitsAll` | server-go/main.go:78-79 | In the half-open state every one of any number of callers is admitted until an outcome is recorded |
| `CircuitBreaker.Cell.Allow` | server-go/main.go:66-81 | Allow answers and changes the state as the model's step does |
| `CircuitBreaker.Cell.RecordSuccess` | server-go/main.go:83-87 | RecordSuccess is the model's step |
| `CircuitBreaker.Cell.RecordFailure` | server-go/main.go:89-97 | RecordFailure is the model's step |
| `CircuitBreaker.FailuresCountIncrements` | server-go/main.go:83-90 | With single atomic operations interleaved, the counter is the number of increments since the last reset, modulo wrap-around |
| `CircuitBreaker.HeldCountWasSeen` | server-go/main.go:90-96 | A goroutine inside RecordFailure holds the value its own increment produced |
| `CircuitBreaker.OpenFollowsThresholdIncrements` | server-go/main.go:89-97 | Every store of Open was decided by an increment of the same goroutine at which at least threshold increments stood since the last reset; at the store fewer stand if and only if the counter was reset after that increment and fewer than threshold increments followed the last reset |
| `CircuitBreaker.StandsUnlessReset` | server-go/main.go:83-97 | Once the threshold stands, it falls below at a later operation if and only if the last reset lies in between with too few increments after it |
| `CircuitBreaker.CountsFromLastReset` | server-go/main.go:83-90 | The increments since the last reset are all those after its position |
| `CircuitBreaker.StateIsLastStored` | server-go/main.go:66-97 | With single atomic operations interleaved, the state is what the last store put there, and closed before the first |
| `CircuitBreaker.HalfOpenFollowsOpen` | server-go/main.go:70-76 | Every store of half-open comes from a goroutine that has loaded the open state before |
| `CircuitBreaker.OpenWithZeroFailures` | server-go/main.go:83-97 | For every threshold, an interleaving that stores Open while the counter is zero |
| `Apm.GatewayConserves` | server-go/main.go:146-174 | In every run the metrics accepted are, in order, exactly the offers that found room in the channel, and those dropped, in order, the others; accepted = flushed ++ batch ++ queue in order, batches hold 1 to 100 |
| `Apm.GatewayStepKeepsInv` | server-go/main.go:146-174 | Every offer, receive and tick keeps that invariant |
| `Apm.DropsOnlyWhenFull` | server-go/main.go:219-229 | A metric is dropped if and only if the channel holds 8192 |
| `Apm.OnlyTicksSendSmallBatches` | server-go/main.go:146-174 | In every run at most as many batches of fewer than 100 metrics are sent as the ticker has fired; none is empty or larger than 100 |
| `Apm.GatewayQueue.OfferMetric` | server-go/main.go:219-229 | The non-blocking send is the model's step: appended below 8192, dropped from there on |
| `Apm.GatewayQueue.TakeMetric` | server-go/main.go:158-165 | The receive case is the model's step: the hundredth metric sends the batch |
| `Apm.GatewayQueue.OnTick` | server-go/main.go:166-170 | The ticker case is the model's step: a batch that is not empty is sent |
| `Apm.CollectorConserves` | loom-java/ApmCollector.java:95-133 | In every interleaving of producers with the drain loop: accepted = flushed ++ batch ++ queue in order, batches hold 1 to 200, and the queue exceeds its cap by less than the number of producers |
| `Apm.CollectorStepKeepsInv` | loom-java/ApmCollector.java:95-133 | Every check, offer, poll and send keeps that invariant |
| `Apm.CapIsExceeded` | loom-java/ApmCollector.java:95-100 | For every cap and every set of producers, a run that reaches cap - 1 + the number of producers |
| `Apm.CapHoldsIff` | loom-java/ApmCollector.java:95-100 | The queue stays within its cap in every run if and only if there is at most one producer |
| `Apm.DrainThread.FlushQueue` | loom-java/ApmCollector.java:122-133 | A flush takes the first min(200, size) metrics off the queue in order and posts them if there are any |
| `Apm.PollsTakeTheFront` | loom-java/ApmCollector.java:128-130 | That many polls of the interleaved model take the same front in the same order |
| `Apm.Server.Ingest` | apm-server/server.js:43-51 | Whatever the buffer held: afterwards it is the last 100,000 of old and new, or the whole batch if that is larger |
| `Apm.BufferIsTheLastMetrics` | apm-server/server.js:43-51 | After any batches the buffer is exactly the last min(N, 100000) metrics if and only if the latest batch is not larger than that |
| `Apm.BufferBounded` | apm-server/server.js:43-51 | After a batch the buffer is within 100,000 if and only if the batch itself is |
| `Apm.OversizedBatchOverfills` | apm-server/server.js:43-51 | One batch of 100,001 metrics leaves the buffer over its maximum |
| `Apm.BufferOfTheTwoSenders` | apm-server/server.js:43-51 | Fed with batches of any gateway run and any collector run, it always is |
| `Bond.PriceDecreases` | engine-dart/bin/server.dart:32-41 | For face > 0, coupon ≥ 0 and at least one period the price strictly decreases in the yield |
| `Bond.BondPrice` | engine-dart/bin/server.dart:32-41 | The loop computes the sum of discounted coupons plus the discounted face |
| `Bond.ParBond` | engine-dart/bin/server.dart:32-41 | A bond whose coupon rate equals its yield prices at its face value |
| `Bond.PriceOfOneMorePeriod` | engine-dart/bin/server.dart:32-41 | What the price is, backwards from maturity: the face with no period left, and with one period more the coupon and that price, discounted by 1 + ytm/2 |
| `Bond.CreditSpread` | engine-dart/bin/server.dart:95-109 | The yield found is within 0.4999/2⁶⁵ of the one that prices to the target, or of the nearer end of the bracket if none does |
| `Bond.WeightsSumToOne` | engine-dart/bin/server.dart:44-56 | The cash-flow weights are non-negative and sum to 1 |
| `Bond.DurationBounds` | engine-dart/bin/server.dart:44-56 | The Macaulay duration lies between 0.5 and periods/2 |
| `Bond.ZeroCouponDuration` | engine-dart/bin/server.dart:44-56 | Without coupons it is periods/2 |
| `Bond.MacaulayDuration` | engine-dart/bin/server.dart:44-56 | The loop computes the weighted average time |
| `Bond.ModifiedDuration` | engine-dart/bin/server.dart:59-63 | The Macaulay duration over 1 + ytm/2 |
| `Bond.ConvexityBound` | engine-dart/bin/server.dart:66-79 | Convexity is at least the square of the modified duration |
| `Bond.PriceExpansion` | engine-dart/bin/server.dart:59-79 | For any two yields: the price at one is never below its tangent at the other, whose slope is the modified duration, and lies below (yield rising) or above (falling) the parabola 1 − D·Δ + C·Δ²/2 with the convexity C; so both are the exact derivatives |
| `Bond.PriceBounds` | engine-dart/bin/server.dart:32-41 | The same bounds cash flow by cash flow, in terms of their discounted values |
| `Bond.ConvexityBounds` | engine-dart/bin/server.dart:66-79 | 1/(2(1+ytm/2)²) ≤ convexity ≤ n(n+1)/(4(1+ytm/2)²) |
| `Bond.ZeroCouponConvexity` | engine-dart/bin/server.dart:66-79 | Without coupons it is n(n+1)/(4(1+ytm/2)²) |
| `Bond.ParabolaBeside` | engine-dart/bin/server.dart:66-79 | 1 − nh + n(n+1)h²/2 is at least 1/(1+h)ⁿ for h ≥ 0 and at most that for −1 < h ≤ 0 |
| `Bond.Convexity` | engine-dart/bin/server.dart:66-79 | The loop computes the weighted average of t(t+1), scaled to years; what that figure is: `Bond.PriceExpansion` |
| `Bond.MeanSquare` | engine-dart/bin/server.dart:66-79 | For any weights that sum to 1, the mean of squares is at least the square of the mean |
| `Autoregression.ArFit` | analytics-nim/server.nim:237-260 | For every series, an order-1 model has abs(φ) < 1 and an order-2 model lies in the stationarity triangle; both solve the Yule-Walker equations of the series, except where the code gives up (too short, determinant below 1e-12, order above 2); a constant series gives φ = 0 |
| `Autoregression.ForecastOrder1` | analytics-nim/server.nim:262-273 | Fit and forecast chained: step k is m + φ^(k+1)(last − m) with abs(φ) < 1, and no step is farther from the mean than the one before |
| `Autoregression.ForecastOrder2` | analytics-nim/server.nim:254-273 | Fit and forecast chained for order 2: the model is stationary; unless the fit gave up, no forecast raises the energy γ₀e² − 2γ₁ee′ + γ₀e′² of successive deviations, and all stay within the ellipse of the last two observations; if it did, every forecast is the mean |
| `Autoregression.EnergyFalls` | analytics-nim/server.nim:254-259 | A Yule-Walker step of a stationary order-2 model never raises that energy |
| `Autoregression.Ar2Contracts` | analytics-nim/server.nim:266-273 | With fitted coefficients no forecast has more energy than the one before |
| `Autoregression.Ar2Bounded` | analytics-nim/server.nim:266-273 | No forecast has more energy than the last two observations |
| `Autoregression.LagSumsDominated` | analytics-nim/server.nim:244-248 | The lagged sums of a series that is not constant satisfy abs(γ₁) < γ₀, γ₂ < γ₀ and γ₀(γ₀+γ₂) > 2γ₁² strictly |
| `Autoregression.FormPositive` | analytics-nim/server.nim:244-248 | The energy of any filtered series, x(i) + p·x(i-1) + q·x(i-2), is positive and is a quadratic form in the lagged sums |
| `Autoregression.Ar1Stationary` | analytics-nim/server.nim:250-252 | From the dominated lagged sums, φ = γ₁/γ₀ is strictly inside the unit interval |
| `Autoregression.Ar2Stationary` | analytics-nim/server.nim:254-259 | The order-2 coefficients solve the Yule-Walker equations and are stationary |
| `Autoregression.AutocovariancesUpTo` | analytics-nim/server.nim:242-248 | The loops compute the sample autocovariances at lags 0 to p |
| `Autoregression.Mean` | analytics-nim/server.nim:39-43 | The arithmetic mean, 0 for an empty series |
| `Autoregression.DeviationsSumToZero` | analytics-nim/server.nim:39-43 | The deviations of a series from its mean sum to zero |
| `Autoregression.GammaIsVariance` | analytics-nim/server.nim:244-248 | n times the autocovariance at lag 0 is the sum of the squares less n times the square of the mean |
| `Autoregression.Forecast` | analytics-nim/server.nim:262-273 | Each forecast is the prediction from the series and all forecasts before it |
| `Autoregression.PredictNext` | analytics-nim/server.nim:267-271 | One prediction: the mean plus the weighted deviations of the latest values, skipping those before the start |
| `Autoregression.Ar1ClosedForm` | analytics-nim/server.nim:266-273 | With one coefficient, step k is m + φ^(k+1)(last − m) |
| `Autoregression.Ar1Contracts` | analytics-nim/server.nim:266-273 | With abs(φ) ≤ 1 no forecast is farther from the mean than the one before |
| `PartialSelection.SelectVar95` | wasm-zig/src/finance.zig:145-158 | Permutes the returns, puts the k smallest in order at the front, touches nothing beyond them, and returns the negated k-th entry of every full sort |
| `PartialSelection.Rank` | wasm-zig/src/finance.zig:145-146 | The rank is at least 1; otherwise at most 5% of the returns rank at or before it, and one more would exceed 5% |
| `PartialSelection.Paths` | wasm-zig/src/finance.zig:120-126 | The requested number of paths, at most 2000 |
| `PartialSelection.FrontOfSort` | wasm-zig/src/finance.zig:145-158 | The front of a partial selection agrees entry by entry with any sorted arrangement of the same values |
| `PartialSelection.SelectFront` | wasm-zig/src/finance.zig:148-157 | k rounds permute the values and leave the k smallest in order |
| `PartialSelection.SelectStep` | wasm-zig/src/finance.zig:154-156 | Swapping the minimum of the rest into place extends the sorted front by one |
| `PartialSelection.IndexOfMin` | wasm-zig/src/finance.zig:149-153 | Finds the index of a minimum of the rest |
| `Backtest.BacktestMa` | quant-v/server.v:67-135 | For every positive price series: entries alternate long and short, wins + losses = closed trades = max(trades − 1, 0), nav = Π(1 + pnl), total_return = Σ pnl, max_dd is the largest running drawdown, ≥ 0, and ≤ 1 if and only if no trade loses more than there is; the variance is the sample variance of the pnls and ≥ 0, win_rate in [0, 1), volatility its root and Sharpe the annualised mean over it |
| `Backtest.EntriesAlternate` | quant-v/server.v:92-120 | The entries caused by any signals alternate at increasing ticks |
| `Backtest.EntriesFollowSignals` | quant-v/server.v:92-120 | The position held is always the one last called for; a tick adds an entry exactly when its signal calls for another, long on a golden cross and short on a dead one |
| `Backtest.ReturnGrows` | quant-v/server.v:94-118 | A long trade grows its stake from the entry to the exit price, and a short one earns the opposite |
| `Backtest.GainsCount` | quant-v/server.v:97-101 | The wins are the closed trades with a return above zero |
| `Backtest.OnSignalTracks` | quant-v/server.v:93-120 | One iteration's trading keeps the book equal to what the entries so far imply |
| `Backtest.LoopTracks` | quant-v/server.v:80-124 | After every iteration the book is that of the entries so far |
| `Backtest.LoopDrawdown` | quant-v/server.v:121-123 | After every iteration peak and max_dd are those of the series of net asset values |
| `Backtest.PeakIsMaximum` | quant-v/server.v:121-121 | The running peak bounds every value and is 1 or one of them |
| `Backtest.MaxDrawdownIsMaximum` | quant-v/server.v:122-123 | max_dd bounds every running drawdown and is 0 or one of them |
| `Backtest.MaxDrawdownAboveOne` | quant-v/server.v:121-123 | max_dd is at most 1 if and only if no net asset value is negative |
| `Backtest.DrawdownAtMostOneIff` | quant-v/server.v:93-123 | max_dd is at most 1 if and only if every trade that loses more than the whole comes after one that lost exactly the whole |
| `Backtest.LosesMoreThanAll` | quant-v/server.v:94-118 | A trade loses more than the whole if and only if it is short and its price more than doubles |
| `Backtest.GrowthStaysIff` | quant-v/server.v:94-118 | The product of (1 + pnl) never turns negative if and only if that order of losses holds |
| `Backtest.DrawdownExceedsOne` | quant-v/server.v:67-123 | With periods 2 and 3, every positive price series that starts 3, 2, 1, 1, 10, 10 ends with max_dd above 1 |
| `Backtest.OnePassVariance` | quant-v/server.v:128-132 | The one-pass formula is the sum of squared deviations, hence never negative |
| `Backtest.VolatilityZero` | quant-v/server.v:128-134 | The volatility is zero if and only if there are several closed trades and all returned the same |
| `Backtest.Trade` | quant-v/server.v:80-124 | The loop computes the model's iteration for every tick from the slow period on |
| `Backtest.Tick` | quant-v/server.v:81-123 | One iteration extends the model's loop by one signal |
| `Backtest.CurrentSignal` | quant-v/server.v:81-93 | The signal is the comparison of the two window averages |
| `Backtest.Summarise` | quant-v/server.v:126-134 | The ratios reported are those of the closed trades; the variance is not negative, the volatility is its root and zero exactly when several trades all returned the same, and then Sharpe is 0 |
| `Backtest.Risk` | quant-v/server.v:132-134 | The volatility is the root of the variance, zero exactly when several trades all returned the same, and then Sharpe is 0; otherwise Sharpe times the volatility is the annualised mean |
| `Backtest.ClampsAreSafe` | quant-v/server.v:185-187 | Whatever the query asks for, 2 ≤ fast < slow ≤ 200 and the backtester can index every positive price series |
| `Backtest.ClampsAreNearest` | quant-v/server.v:185-187 | Ticks, fast and slow periods within range pass unchanged; any other becomes the nearest value within range |

## Left out

- Floating-point rounding, infinities and NaN (including a NaN amount, which passes the POST handler's check): numbers are exact reals.
- Cholesky.Decompose: takes any exact square root; the library's rounded one is not modelled. Partly overlapping buffers are not modelled.
- TiledMultiply.Multiply: excludes an output buffer that is also an input.
- Covariance.CovarianceMatrix: excludes an output buffer that is also the input, and a failing malloc.
- Covariance.MatVecMul: excludes an output buffer that is also an input.
- core-cpp: 32-bit index overflow; `mat_multiply_alloc`, `mat_free` and `mat_frobenius_norm`, which add only easy members.
- PhoenixChannel.Socket.MakeRef: does not model the counter restarting at 2^53, after which references are no longer fresh.
- Phoenix client: user callbacks (presence onJoin/onLeave/onSync, channel hooks) and user pushes with their replies; frames a server names after a reply event; heartbeat, reconnect timing, transport fallback decisions, ajax.
- PhoenixLongPoll.LongPoll.OnTimeout: covers request layers that report a timeout alone (fetch, hub-elixir/deps/phoenix/assets/js/phoenix/ajax.js:39-41); with XMLHttpRequest (ajax.js:72-77) a timeout is the model's rejected response. What happens on a transport after its close is not modelled.
- Order service: HTTP, JSON and query parsing (case folding, defaults, URL encoding of account names), JDBC, Redis publishing, the ORDERED-to-DELIVERED orders that nothing inserts over HTTP, benchmark rows and their deletion.
- Orders.AtMostOneLedgerRequest: counts one execution per forwarded request; an HTTP client that replays a GET on a broken connection (Go's transport, java.net.http) could make the ledger execute a transfer twice, which is not modelled.
- Ledger.Accounts.TotalBalance: states the undisturbed sum; what concurrent transfers do to it is Ledger.TotalAsRead, and resets during a reading are not modelled.
- WebSocket hub: connections, pings, deadlines and the Redis subscriber; which messages a write pump manages to put on the wire.
- CircuitBreaker.OpenFollowsThresholdIncrements: the time stamps are not part of the interleaved model, so a window check may come out either way.
- CircuitBreaker.RefusalWithoutWrap: longer failure runs are covered by CircuitBreaker.RefusalCharacterised.
- Metrics path: the HTTP transfer of a batch; a lost batch is simply one that does not arrive.
- Bond.BondPrice: periods is a natural number, and a yield of exactly -200%, where the source divides by zero, is excluded.
- Bond.MacaulayDuration: excludes a price of zero, where the source divides by it; so do Bond.ModifiedDuration and Bond.Convexity.
- Generated inputs: price paths, simulated returns and random numbers (exp, log, cos) are arbitrary series here; the backtester's are positive.
- Black-Scholes, implied volatility, yield curves, GARCH and the other numeric endpoints: transcendental formulas without an exact specification.
- The remaining services, user interfaces, deployment files, load and chaos scripts, and the FFI wrappers over matrix.cpp: configuration, plumbing or easy members.
