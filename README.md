# pglistener in Dafny

This project models the two stateful parts of pglistener and proves properties about them.

**The subscription multiplexer** (`notifier/notifier.go`) lets many subscribers share one
PostgreSQL LISTEN connection. A `Notifier` object owns three things:

- the registry from channel name to its ordered list of subscriptions;
- the list of pending channel changes;
- the connection, seen here as the log of LISTEN and UNLISTEN commands issued on it.

Each `Subscription` object has:

- a two-slot notification buffer;
- a one-shot "established" signal, shared with its co-subscribers;
- a once-only withdrawal.

The run loop does the following, one turn at a time:

1. It replays the pending changes.
2. It waits for a notification.
3. It classifies a failed wait as benign or fatal.
4. It fans a received notification out to the channel's subscribers, dropping it where a buffer is full.

**The event-driven cache** (`cache.go`) is a map from key to an entry with an expiration
time. The listening loop upserts on INSERT and UPDATE, removes on DELETE, and ignores
other actions and undecodable text. `Get` returns an unexpired entry, or else calls the
loader and stores what it returns.

Layout:

- `wrappers.dfy` holds `Option` and `Result`.
- `notifier_spec.dfy` holds the value-level parts of the multiplexer:
  - the non-blocking send;
  - removal by identity;
  - the wait verdict;
  - the rule that ends `Run`.
- `notifier.dfy` holds the classes `Signal`, `Subscription` and `Notifier`, whose methods are proved against those functions and against an object invariant.
- `cache.dfy` holds the event functions and the class `Cache`.
- `notifier_scenarios.dfy` holds concrete runs of a fresh notifier: subscribers joining and leaving an "orders" channel, notifications fanned out and dropped, and failed waits.
- `cache_scenarios.dfy` holds concrete runs of a fresh cache over a users table keyed by id: loads, change events, expiry and a failing loader.

Two behaviours of the code shape the model:

- **The change list is never cleared.** `processChannelChanges` walks the list of pending changes and never resets it (notifier/notifier.go:152-171). Every turn therefore replays every "listen" change ever queued, including those of channels whose subscribers have all left. So LISTEN goes out again on every turn, not once per channel. `Notifier.Notifier.ProcessChannelChanges`, `Notifier.Notifier.Run` and `NotifierScenarios.StaleListenScenario` state this.
- **Withdrawal issues UNLISTEN directly.** `unlistener` issues UNLISTEN itself (notifier/notifier.go:137-139). The only append to the change list is the "listen" change in `Listen` (notifier/notifier.go:102). So the "unlisten" case of the replay (notifier/notifier.go:162-164) is never reached. The model keeps that case in `Notifier.Effect`.

## Model

| member | source | states |
|---|---|---|
| NotifierSpec.Offer | notifier/notifier.go:206-210 | The non-blocking send appends the payload exactly when the buffer holds fewer than its capacity, and keeps the earlier items. A buffer within capacity stays within it. |
| NotifierSpec.DistinctSnoc | notifier/notifier.go:85-90 | Appending a subscription not yet in a repeat-free list keeps it repeat-free. |
| NotifierSpec.Without | notifier/notifier.go:141-143 | Removal by identity keeps exactly the elements other than the removed one, and changes nothing when it is absent. |
| NotifierSpec.WithoutDistinct | notifier/notifier.go:141-143 | Removal keeps a list repeat-free. |
| NotifierSpec.WithoutAt | notifier/notifier.go:141-143 | In a repeat-free list, removing the element at k leaves the list with exactly slot k cut out, in the original order, one shorter. |
| NotifierSpec.WithoutOnce | notifier/notifier.go:141-146 | Removal cuts out exactly the removed element's slot, and empties the list exactly when it was the only element. |
| NotifierSpec.WaitVerdict | notifier/notifier.go:195-200 | A cancellation or expired deadline while the outer context is live gives nil. Every other error, and any error once the outer context is done, is returned unchanged. |
| NotifierSpec.CycleError | notifier/notifier.go:173-200 | A delivered notification gives nil. A failed wait gives nil exactly in the benign case. |
| NotifierSpec.StopsRunCases | notifier/notifier.go:217-221 | A turn ends the loop whenever the outer context is done. While it is live, a turn ends the loop exactly when its wait failed with an error other than a cancellation or an expired deadline. |
| NotifierSpec.Delivered | notifier/notifier.go:205-211 | Feeding a buffer the turns' notifications keeps what it held as a prefix, and never takes a buffer within capacity past it. |
| NotifierSpec.DeliveredStep | notifier/notifier.go:205-211 | Feeding one more turn delivers that turn's notification to the buffer fed with the earlier turns. |
| NotifierSpec.DeliveredKeepsFirst | notifier/notifier.go:205-211 | A buffer within capacity ends up holding its old items followed by every payload received on its channel, cut at the capacity. The earliest arrivals are kept in order, and the later ones are dropped. |
| NotifierSpec.RunOutcome | notifier/notifier.go:216-223 | A run stops at the first turn whose `waitOnce` errs or whose outer context is done, and returns that turn's error. If no turn stops it, it keeps running. |
| NotifierSpec.FirstStopDecides | notifier/notifier.go:216-223 | The first stopping turn alone decides the outcome, whatever turns follow it. |
| Notifier.Effect | notifier/notifier.go:157-167 | Replaying one change issues at most one command. |
| Notifier.EffectCommands | notifier/notifier.go:157-167 | A change issues commands on its own channel only. It issues LISTEN exactly for a "listen" change, UNLISTEN exactly for an "unlisten" change, and nothing for any other operation. |
| Notifier.Replay | notifier/notifier.go:156-168 | A replay issues at most one command per change. |
| Notifier.ReplayFromChanges | notifier/notifier.go:156-168 | Every command a replay issues is the one command of some change in the list. |
| Notifier.ReplayConcat | notifier/notifier.go:156-168 | Replaying two change lists in sequence issues the first list's commands, then the second's. |
| Notifier.ReplaySnoc | notifier/notifier.go:156-168 | Replaying one more change issues its commands after the others. |
| Notifier.ReplayIssuesListen | notifier/notifier.go:157-161 | Every "listen" change in the list, wherever it stands, makes a replay issue LISTEN for its channel. |
| Notifier.AppendKeepsLists | notifier/notifier.go:90-94 | Appending a new subscription that shares its channel's signal keeps every list non-empty and repeat-free, with all members sharing the first one's signal. |
| Notifier.AppendKeepsListed | notifier/notifier.go:90 | Appending a new live subscription keeps "listed exactly while not withdrawn". |
| Notifier.QueueKeepsChanges | notifier/notifier.go:102 | Queueing the "listen" change of a new channel keeps the change list covering every subscribed channel's signal. |
| Notifier.AppendKeepsChanges | notifier/notifier.go:90-102 | Registering a subscription keeps the change list covering every subscribed channel's signal. |
| Notifier.RemoveKeepsInvariant | notifier/notifier.go:141-146 | Removing a live subscription, and the key with the last one, keeps the lists well formed and the signals covered, and unlists exactly that subscription. |
| Notifier.WithdrawnKeepsListed | notifier/notifier.go:60-66 | Once the removed subscription is marked withdrawn, "listed exactly while not withdrawn" holds for all subscriptions again. |
| Notifier.RemovalShape | notifier/notifier.go:136-146 | "At most one subscription" means "only this one". The key goes exactly then. The list loses exactly this slot, and other channels keep their lists. |
| Notifier.CoveredSignalsClosed | notifier/notifier.go:156-161 | Once every "listen" change has called its close, every pending change's once-only close has run, and every subscribed channel's established signal is closed. |
| Notifier.Signal.constructor | notifier/notifier.go:99 | A new established signal is open. |
| Notifier.Signal.Close | notifier/notifier.go:100 | Closing needs an open channel, since Go's `close` panics on a closed one. It leaves the channel closed. |
| Notifier.Signal.CloseOnce | notifier/notifier.go:100 | Only the first call closes the signal, through `Close`. A call on a closed signal changes nothing. Either way the signal ends closed. |
| Notifier.Subscription.constructor | notifier/notifier.go:85-89 | A new subscription has its channel and notifier, an empty buffer, and is not withdrawn. |
| Notifier.Subscription.TrySend | notifier/notifier.go:206-210 | The send succeeds exactly when the buffer has room. The buffer becomes `Offer` of the old one. |
| Notifier.Subscription.Unlisten | notifier/notifier.go:60-66 | The first call removes the subscription from its channel's list, keeping the others in order. It issues UNLISTEN and drops the key exactly when the subscription was the only one. Later calls change nothing. Other channels are untouched, and the object invariant is kept. |
| Notifier.Notifier.constructor | notifier/notifier.go:68-77 | A new notifier has no subscriptions, no changes and no commands issued, and satisfies the object invariant. |
| Notifier.Notifier.Listen | notifier/notifier.go:79-106 | The new subscription is appended to its channel's list, other channels are unchanged, and its buffer is empty. On a new channel it gets a fresh open signal, queues exactly one "listen" change holding that signal's close, and cancels the wait. On a subscribed channel it shares the first subscriber's signal and queues nothing. |
| Notifier.Notifier.QueueListen | notifier/notifier.go:99-103 | The first subscription of a channel appends one "listen" change carrying its signal's close, and requests cancellation of the current wait. |
| Notifier.Notifier.Register | notifier/notifier.go:83-90 | The subscription is appended at the end of its channel's list, and the object invariant is kept. |
| Notifier.Notifier.Unlistener | notifier/notifier.go:132-150 | UNLISTEN is issued exactly when the channel's list holds at most one subscription. The subscription is removed by identity, and the key goes once its list is empty. |
| Notifier.Notifier.ProcessChannelChanges | notifier/notifier.go:152-171 | The log grows by the replay of the whole change list, in list order. Every "listen" change's signal is closed afterwards. The list itself is left as it is, and nil is returned. |
| Notifier.Notifier.Dispatch | notifier/notifier.go:202-211 | Every subscription of the notification's channel gets `Offer` of its buffer, which appends the payload or drops it when the buffer is full. Every other subscription's buffer is unchanged. |
| Notifier.Notifier.WaitOnce | notifier/notifier.go:173-214 | One turn returns the verdict on the wait. It issues the replay of all changes and clears the cancellation request. Every pending change's once-only close has then run, so every subscribed channel's signal is closed. A received notification is delivered exactly to that channel's subscribers. |
| Notifier.Notifier.TakeOutcome | notifier/notifier.go:194-213 | A failed wait yields `WaitVerdict`'s error and changes no buffer. A received notification yields no error and feeds exactly the subscriptions listed on its channel, each with `Deliver`. |
| Notifier.Notifier.Turn | notifier/notifier.go:217-218 | From the state after `i` turns (`AfterTurns`), one turn returns turn `i`'s verdict and leaves the state after `i + 1` turns. The log gains one more full replay, the turn's notification is fed to the buffers already fed with the earlier turns, no cancellation is pending and every pending change's once-only close has run (`Settled`). |
| Notifier.Notifier.Run | notifier/notifier.go:216-223 | The run ends exactly as `RunOutcome` says, after issuing the full replay once per turn taken. Every listed subscription's buffer then holds `Delivered` of its old contents over the turns taken, and every other buffer is unchanged (`BuffersFed`). After at least one turn, no cancellation is pending and every pending change's once-only close has run (`Settled`), so every subscribed channel's signal is closed by `CoveredSignalsClosed`. A run that starts settled ends settled, so no signal is reopened. |
| NotifierScenarios.FirstSubscriber | notifier/notifier.go:79-106 | The first subscriber of a fresh notifier is the channel's only one. It queues one "listen" change carrying its open signal, and nothing has been issued. |
| NotifierScenarios.TwoSubscribers | notifier/notifier.go:92-97 | A second subscriber on the channel is listed after the first, shares its open signal and queues nothing. |
| NotifierScenarios.OrdersScenario | notifier/notifier.go:152-211 | On "orders", the first turn issues LISTEN, closes the signal and buffers "evt1". A later subscriber sees the closed shared signal and an empty buffer, and queues no change. |
| NotifierScenarios.FanOutScenario | notifier/notifier.go:205-211 | Both subscribers of a channel receive its notification. |
| NotifierScenarios.WithdrawScenario | notifier/notifier.go:136-146 | Withdrawing the first of two subscribers issues nothing and leaves the second listed. |
| NotifierScenarios.LastWithdrawScenario | notifier/notifier.go:60-66 | Withdrawing the only subscriber issues UNLISTEN once and drops the channel, even when withdrawal is called twice. |
| NotifierScenarios.OverflowScenario | notifier/notifier.go:206-210 | Of three notifications to an unread subscriber, the first two are kept and the third is dropped. |
| NotifierScenarios.ResubscribeScenario | notifier/notifier.go:99-102 | Subscribing again after the last subscriber left queues a second "listen" change with a fresh open signal. The first change stays queued. |
| NotifierScenarios.StaleListenScenario | notifier/notifier.go:152-171 | After the only subscriber left, the next turn issues LISTEN again for the abandoned channel. |
| NotifierScenarios.RunDeliveryScenario | notifier/notifier.go:205-223 | A run whose first turn hits the wait's deadline and whose second receives a notification on the subscriber's channel keeps running, and leaves that notification in the subscriber's buffer. |
| NotifierScenarios.RunDeadlineThenReceive | notifier/notifier.go:196-223 | For any notifier with a subscription on "x" whose buffer is empty, a deadline turn and then a turn receiving `p` on "x" keep the run going and leave exactly `[p]` in that buffer. |
| NotifierScenarios.EstablishedAfterRunScenario | notifier/notifier.go:152-185 | After a run of one turn that hits the wait's deadline, the first subscriber's "established" signal is closed and no cancellation of the wait is pending. |
| NotifierScenarios.FatalScenario | notifier/notifier.go:195-223 | A deadline with the outer context live keeps the loop going. A connection error on the next turn ends the run with that error. |
| Cache.Lookup | cache.go:74-75 | A lookup hits exactly when the key has an entry expiring strictly after now. It then returns that entry's value. |
| Cache.Applied | cache.go:49-66 | An INSERT or UPDATE stores the row under its key, expiring ttl after the event. A DELETE removes the key. Every other key is unchanged. Any other action, and undecodable text, change nothing. |
| Cache.ApplyAllOrigin | cache.go:42-68 | Handling a feed invents no entry. Every entry afterwards is either the key's earlier entry or one that an upsert in the feed wrote. |
| Cache.ApplyAllConcat | cache.go:42-68 | Handling two feeds in turn is handling the second from where the first left the map. |
| Cache.ApplyAllUntouched | cache.go:55-66 | A key that no event in a feed touches keeps its entry, or stays absent. |
| Cache.LastTouchDecides | cache.go:55-66 | The last event touching a key decides its entry: the upserted row with its expiry, or no entry after a delete. |
| Cache.StoredIsHit | cache.go:74-89 | A value stored by `Get` is found by later lookups strictly before its expiration, and by none after. |
| Cache.Cache.constructor | cache.go:29-39 | A new cache is empty and has loaded nothing. |
| Cache.Cache.Listen | cache.go:41-69 | After the loop, the map is the result of handling the whole feed in arrival order. |
| Cache.Cache.Get | cache.go:71-90 | An entry expiring strictly after now is returned with no load and no change. Otherwise the loader is called once for the key. Its error is returned with the map unchanged, and its value is stored, expiring ttl after the load, and returned. |
| CacheScenarios.UpdateThenDeleteScenario | cache.go:55-90 | After an UPDATE, the next read returns the new row without loading. After a DELETE, the read loads again. |
| CacheScenarios.ExpiryScenario | cache.go:74-87 | An entry is served strictly before its expiration, and reloaded at that instant. |
| CacheScenarios.LoadFailureScenario | cache.go:82-85 | A failed load is reported with its key and stores nothing, so the next read loads again. |
| CacheScenarios.IgnoredEventsScenario | cache.go:49-66 | An INSERT fills the cache. Undecodable text and an unknown action leave it unchanged. |

## Left out

- **Environment.** The pgx `Listener` wrapper (notifier/listener.go) is not part of this model. The connection is the log of issued commands, and what a wait returns is an input of each turn. Errors from LISTEN and UNLISTEN are discarded by the code, so they do not appear.
- **Concurrency.** Mutexes, goroutines and the `context` plumbing are left out, and every operation runs as one atomic step. The flag `waitCancelRequested` records that a `Listen` on a new channel called the wait's cancel function (notifier/notifier.go:103) since the run loop installed it (notifier/notifier.go:185), and each turn clears it. Its effect on a wait in progress is that the environment supplies a `Canceled` outcome. This means the model does not capture a `Get` whose load races with a DELETE that arrives before the store.
- **Timeouts.** The 10-second command timeout and the 30-second wait timeout are left out. An expired wait is a `DeadlineExceeded` outcome.
- **Clock.** Time is an integer clock passed to each operation.
- **Run.** `Run` is given a finite sequence of turns. `Running` means that no turn stopped the loop, which the source would then continue forever. No `Listen` or `Unlisten` happens between the turns of one `Run` call, so its log and buffer clauses hold for a registry that stays fixed during the run. Registrations between turns are expressed by calling `WaitOnce` with `Listen` and `Unlisten` in between, as `NotifierScenarios.OrdersScenario` and `NotifierScenarios.StaleListenScenario` do.
- **Aliasing.** A notification's payload is already a `[]byte` (notifier/notifier.go:15), so the conversion at notifier/notifier.go:207 copies nothing and every subscriber receives the same slice. Likewise the cache stores the decoded `*User` row itself (cache.go:58, cache.go:87) and hands that pointer to every `Get` caller (cache.go:78, cache.go:89). In the model payloads and rows are values, so a write through one subscriber's or caller's reference that others would see is not captured.
- **Outer context.** The outer context's state is each turn's `outerDone`. Both the verdict on a failed wait and `Run`'s exit test read it.
- **Cache shutdown.** The cache loop's exit on `ctx.Done()` is the end of the feed, and closing the listener is not modelled.
- **Decoding.** JSON decoding is left out. Each arrival is already an event or `Undecodable`.
- **Keys.** `Keyer.Key` is a key function fixed at construction.
- **Nil rows.** The listening loop calls `event.Data.Key()` on every decoded event (cache.go:54). For the pointer row type `*User`, `Key` reads through its receiver (storage.go:72-74). So an event whose "data" is null or missing decodes without error and then panics on the nil receiver, which ends the process. The model has no nil row, and its key function is total, so it does not capture this panic.
- **Logging.** Logging is left out.
- **Reading buffers.** Consumers reading from a subscription's buffer are not modelled. The buffer only grows by delivery, and `NotificationC` and `EstablishedC` are plain field reads.
- **Order inside `Listen`.** The code appends the subscription before it queues the change. The model queues first. Both happen under one lock, so the order is not observable.
- Notifier.Notifier.Run: does not state that the object invariant holds afterwards. It follows from the frame, since `Run` changes no registry or subscription-list field.
- Notifier.Notifier.Dispatch: does not state the order in which subscribers are visited. Each subscription owns its buffer, so that order is not observable.
- Cache.Cache.Get: on a loader error, returns only the error. It does not return the value the loader gave alongside it, and the message formatting is left out.
- Cache.Cache.Get: the two clock readings (`now` for the expiry test, `later` for the store) are independent inputs. The model does not require `later >= now`.
- **Other files.** storage.go (SQL access and listener construction) and the programs under cmd/ are not part of this model.
