# mipd provider Store, modelled in Dafny

This project models the consumer side of EIP-6963 (Multi Injected Provider
Discovery) as implemented by mipd:

- the **provider Store** returned by `createStore` (`src/store.ts`): an
  ordered list of announced provider details, deduplicated by `info.uuid` in
  first-seen order, a listener set, and a discovery subscription that is
  either running or disposed;
- the older **`requestProviders` watcher** of the JavaScript entry point
  (`src/index.js`), which deduplicates per watcher in a private list and calls
  back once per new uuid.

Files:

- `eip6963.dfy` — module `Eip6963`: the announcement payload (`Info`,
  `Detail<P>` with the EIP-1193 handle as an uninspected type parameter) and
  the uuid deduplication both consumers share, with `FirstSeen` as an
  independent reference definition ("keep the first entry, drop every later
  entry with its uuid").
- `store.dfy` — module `Store`: the Store's closure state as an immutable
  `State`, each Store method as a pure transition returning the next state
  and the log of listener calls `(listener, details, {added}|{removed})` it
  makes, in call order; a `Command` language with `Run` for reachability.
- `watcher.dfy` — module `Watcher`: the announce handler of
  `requestProviders` and its fold over a stream of announcements.

Modelling decisions:

- The listener `Set` is a duplicate-free sequence in insertion order, since a
  JavaScript `Set` iterates in insertion order and `forEach` notifies in that
  order; `Listeners` gives the set that `_listeners()` returns. Listener
  identity (JavaScript reference identity) is the equality of the type
  parameter `L`.
- The discovery disposer `unwatch` is the flag `running`. `Create` and `Reset`
  take `window: bool`: without a window the relay returns no disposer and never
  delivers an announcement (`src/utils.ts:48`), and `unwatch?.()` is then a
  no-op.
- An announcement reaching the Store's discovery callback is the explicit
  transition `Ingest`; the window event bus around it is the environment.
- `rdns` is a plain `string`, as in `src/types.ts:20`.
- The watcher's callback receives the live, still-growing array in the
  source; the model records the list as it is at the moment of the call.

`findProvider` returns the *first* entry with a matching rdns
(`src/store.ts:87-89`). `createStore` has no `removeProvider`, although
`src/index.test.ts:206-211` calls it (see Left out).

## Model

| member | source | states |
|---|---|---|
| Eip6963.HasUuid | src/store.ts:58-60 | the front-to-back scan of `list.some(...)` holds exactly when some position of the list carries the uuid |
| Eip6963.AppendKeepsDistinct | src/store.ts:57-64 | appending a detail whose uuid is not yet in the list keeps the uuids pairwise distinct |
| Eip6963.DropUuid | src/index.js:56-59 | dropping a uuid leaves exactly the stream's other uuids and never more entries |
| Eip6963.FirstSeen | src/store.ts:57-64 | first-seen deduplication of a stream yields pairwise-distinct uuids, the same uuids as the stream, and no more entries than it |
| Eip6963.Unseen | src/index.js:56-59 | the uuids left unseen are exactly those in the stream and not in the seen list, and there are never more entries |
| Eip6963.FirstIndex | src/store.ts:58-60 | the position found is the first that carries the uuid; it is the length exactly when no entry carries it |
| Eip6963.DropUuidKeepsFirstEntry | src/index.js:56-59 | dropping one uuid does not change which entry first carries any other uuid |
| Eip6963.DropUuidKeepsFirstOrder | src/index.js:56-59 | dropping one uuid keeps the order in which the other uuids first occur |
| Eip6963.FirstSeenKeepsFirstOccurrences | src/store.ts:57-64 | each entry kept by first-seen deduplication is the stream's first entry with its uuid (later entries with that uuid lose), and the kept entries are in stream order |
| Eip6963.UnseenNothing | src/index.js:51 | starting from an empty list, every announcement of a stream is unseen |
| Eip6963.UnseenExtend | src/index.js:56-60 | accepting one more detail removes exactly its uuid from what is still unseen |
| Eip6963.FirstSeenStep | src/store.ts:57-64 | handling one announcement (skip a known uuid, else append) and then the rest of the stream gains the same as first-seen deduplication of the whole stream |
| Store.Notify | src/store.ts:65-67 | a notification round makes one call per listener, in listener order, each with the same list and meta |
| Store.CountFor | src/store.ts:65-67 | a listener's call count never exceeds the log's length, and it is zero exactly when no notification of the log went to that listener |
| Store.NotifyOncePerListener | src/store.ts:65-67 | with a duplicate-free listener set, every registered listener is called exactly once per round and any other listener never |
| Store.Create | src/store.ts:51-69 | a new Store has no providers and no listeners, satisfies the invariant, and runs discovery exactly when a window exists |
| Store.Ingest | src/store.ts:55-68 | a known uuid or a stopped discovery changes nothing and notifies nobody; a new uuid while running is appended at the end, every listener gets `(newList, {added: [d]})`, listeners and discovery are unchanged, the list is only ever extended, and the invariant is kept |
| Store.Clear | src/store.ts:75-80 | every listener gets `([], {removed: oldList})` even when the list is empty; the list becomes empty; listeners and discovery are untouched; the invariant is kept |
| Store.Destroy | src/store.ts:81-85 | notifies as `clear` does, then leaves no providers, no listeners and discovery stopped |
| Store.Reset | src/store.ts:94-98 | notifies as `clear` does, empties the list, keeps every listener, and restarts discovery (running when a window exists) |
| Store.Subscribe | src/store.ts:99-101 | the listener set gains exactly the listener (a present listener keeps its place, so the state is unchanged); with `emitImmediately` only that listener gets `(list, {added: list})`, otherwise nobody is called; providers and discovery are unchanged |
| Store.Without | src/store.ts:102 | removing a listener from the sequence keeps every other listener, drops that one, keeps duplicate-freedom, and changes nothing when it is absent |
| Store.WithoutCutsOut | src/store.ts:102 | in a duplicate-free listener sequence, deleting a listener cuts out its one occurrence and keeps the other listeners in their order |
| Store.Unsubscribe | src/store.ts:102 | the disposer removes exactly its listener from the set, is a no-op when the listener is gone, and touches neither providers nor discovery |
| Store.Listeners | src/store.ts:72-74 | the listener set holds a listener exactly when it is registered, and its size is the number of registered listeners |
| Store.GetProviders | src/store.ts:91-93 | the returned list has pairwise-distinct uuids in every valid state and holds exactly the uuids of the Store's list |
| Store.FindIndex | src/store.ts:86-90 | the position found is the first whose rdns matches; none exactly when no entry matches |
| Store.FindProvider | src/store.ts:86-90 | returns the first provider in list order whose rdns matches, or none exactly when no provider matches |
| Store.Apply | src/store.ts:55-103 | every Store method and every delivered announcement preserves the invariant (distinct uuids, duplicate-free listeners) |
| Store.Run | src/store.ts:55-103 | any sequence of calls and announcements preserves the invariant |
| Store.ReachableStatesAreValid | src/store.ts:51-104 | every state reachable from `createStore()` has pairwise-distinct uuids and a duplicate-free listener set |
| Store.IngestAll | src/store.ts:55-68 | ingesting a stream only ever extends the list, never changes the listeners or the discovery state, and keeps the invariant |
| Store.IngestAllIsFirstSeen | src/store.ts:55-68 | over any stream of announcements a running Store's list becomes the old list followed by the first-seen deduplication of the announcements with unseen uuids |
| Store.IngestAllWhileStopped | src/store.ts:81-85 | with discovery disposed, any stream of announcements changes nothing and notifies nobody |
| Store.CountForAppend | src/store.ts:65-67 | the calls a listener receives over two consecutive logs add up |
| Store.IngestAllNotifiesOncePerNewEntry | src/store.ts:64-67 | over any stream, each registered listener is called exactly once per entry the list gains and an unregistered one never |
| Store.DestroyIsIdempotent | src/store.ts:81-85 | a second `destroy` leaves the state as it is and calls no listener |
| Store.ResetAfterDestroyIsFresh | src/store.ts:94-98 | `reset` after `destroy` yields exactly the state of a newly created Store and calls no listener |
| Store.ResetResumesIngestion | src/store.ts:94-98 | after `reset` in a window, from any state, the next announcement becomes the whole list and every kept listener hears of it |
| Store.ApplyKeepsInert | src/store.ts:81-85 | with no providers and discovery stopped, every command other than `reset` keeps it so and only sends notifications carrying the empty list and an empty `added` or `removed` |
| Store.InertUntilReset | src/store.ts:81-85 | from an emptied, stopped Store, any command sequence without `reset` keeps the list empty and discovery stopped, and every notification carries the empty list and an empty `added` or `removed` |
| Store.DestroyedStoreIgnoresAnnouncements | src/store.ts:81-85 | after `destroy`, until `reset`, no announcement grows the list, and every notification carries the empty list and an empty `added` or `removed`, so no listener is told about any provider |
| Store.WithoutAppended | src/store.ts:100-102 | deleting a listener that was just appended restores the previous listener sequence |
| Store.SubscribeThenUnsubscribe | src/store.ts:99-103 | calling the disposer of a fresh subscription restores the Store exactly |
| Store.ListenerCountTracksSubscriptions | src/store.ts:99-103 | the listener count grows by one per subscription of a new listener, shrinks by one per disposer of a registered listener, and is otherwise unchanged |
| Store.TwoWalletsScenario | src/store.ts:55-68 | for any two wallets with different uuids, a subscribed listener hears `([d1], {added: [d1]})`, then `([d1, d2], {added: [d2]})`, and nothing of the repeated second announcement |
| Store.SubscribeScenario | src/index.test.ts:337-417 | a listener subscribed to a new Store, fed the first wallet, the second, and the second again, receives exactly `([d1], {added: [d1]})` then `([d1, d2], {added: [d2]})`, and the list is `[d1, d2]` |
| Watcher.CalledWith | src/index.js:61 | lists the detail of every callback, in call order |
| Watcher.Start | src/index.js:51 | a new watcher starts with an empty private list and has made no calls |
| Watcher.Handle | src/index.js:54-62 | a known uuid is ignored with no call; a new uuid is appended and the callback is called once with that detail and the grown list, which ends with it; the list is only extended and keeps distinct uuids |
| Watcher.CalledWithAppend | src/index.js:61 | the details called back over two consecutive call sequences add up |
| Watcher.Watch | src/index.js:49-62 | over a stream the private list is only ever extended |
| Watcher.WatchIsFirstSeen | src/index.js:51-62 | over any stream the private list becomes the old list followed by the first-seen deduplication of the announcements with unseen uuids |
| Watcher.WatchCallsBackOnAppend | src/index.js:56-61 | the callback is called exactly for the entries the private list gains, once each, in append order |
| Watcher.WatchCallListsArePrefixes | src/index.js:60-61 | the list handed to the i-th call is the private list's prefix that ends with that call's detail |
| Watcher.WatcherCallsOncePerUuid | src/index.js:49-62 | a new watcher fed any stream calls back once per distinct uuid, in first-seen order, and ends with exactly those details |
| Watcher.WatchersDeduplicateIndependently | src/index.js:51-54 | a watcher started later still calls back for a uuid that an earlier watcher already saw and now ignores |

## Left out

- `removeProvider` and the `{ once: true }` subscribe option: the tests call them (`src/index.test.ts:206-211`, `src/index.test.ts:477-481`), but `src/store.ts` implements neither.
- The window event plumbing: `announceProvider` and `requestProviders` in `src/utils.ts`, `announceProvider` in `src/index.js`, `dispatchEvent`/`addEventListener`, `Object.freeze`, and the discovery-request event sent when discovery starts. These are I/O against the environment. An announcement reaching a consumer is modelled as `Store.Ingest` or `Watcher.Handle`, and an absent window as `window = false`.
- The watcher's disposer (`src/index.js:68`): after it is called the handler receives no more events. In the model this is a stream that ends.
- The watcher's aliasing: the callback gets the live array, which later pushes keep growing. The model records the list at the time of the call.
- Listeners are assumed to return normally. A listener that throws aborts the `forEach`, so later listeners are not called. The statements after the notification in `clear`, `destroy` and `reset` are then not reached. In the discovery callback the list has already grown by then.
- `_listeners()` returns the live `Set`, which later `subscribe` and disposer calls mutate. `Store.Listeners` returns the set as a value, a snapshot of the state it is given.
- Re-entrancy is not modelled: a listener that calls Store methods during a notification. Neither is timing.
- Type-level configuration is not modelled: `src/config.ts`, `src/register.ts`, `src/window.ts` and the generic `Rdns` type. These are declarations only.
- `rdns` optional in `src/eip6963.ts:23`: the model always has an rdns string, as in `src/types.ts:20`. So it does not model `findProvider({ rdns: undefined })` matching an entry that has no rdns.
- The playground demo applications.
