/**
  The provider Store (`createStore`): an ordered list of announced provider
  details, deduplicated by uuid in first-seen order, a set of listeners, and a
  discovery subscription that is either running or disposed.

  Every operation is a pure transition from one `State` to the next, together
  with the log of listener notifications it emits, in emission order.
  Listener identity is the type parameter `L`; the EIP-1193 provider handle
  is the type parameter `P`.
 */
module Store {
  import opened Eip6963

  /** The second argument of a listener call: `{ added }` or `{ removed }`. */
  datatype Meta<P> = Added(added: seq<Detail<P>>) | Removed(removed: seq<Detail<P>>)

  /** One call `listener(details, meta)`. */
  datatype Notification<L, P> = Notification(listener: L, details: seq<Detail<P>>, meta: Meta<P>)

  /**
    The Store's closure state. `listeners` is the listener `Set` in its
    iteration (insertion) order; `running` stands for a live `unwatch` disposer.
   */
  datatype State<L, P> = State(providers: seq<Detail<P>>, listeners: seq<L>, running: bool)

  /** The state after an operation, with the notifications the operation emitted. */
  datatype Step<L, P> = Step(state: State<L, P>, log: seq<Notification<L, P>>)

  /** No listener occurs twice: the listener sequence has set semantics. */
  ghost predicate NoDup<L>(ls: seq<L>)
  {
    forall i, j :: 0 <= i < j < |ls| ==> ls[i] != ls[j]
  }

  /** The invariant every reachable Store state keeps. */
  ghost predicate Valid<L, P>(s: State<L, P>)
  {
    DistinctUuids(s.providers) && NoDup(s.listeners)
  }

  /** `listeners.forEach((listener) => listener(details, meta))`. */
  function Notify<L, P>(ls: seq<L>, details: seq<Detail<P>>, meta: Meta<P>): (r: seq<Notification<L, P>>)
    ensures |r| == |ls|
    ensures forall i :: 0 <= i < |r| ==>
      r[i].listener == ls[i] && r[i].details == details && r[i].meta == meta
  {
    if |ls| == 0 then [] else [Notification(ls[0], details, meta)] + Notify(ls[1..], details, meta)
  }

  /** How many notifications of `log` went to `l`. */
  function CountFor<L(==), P>(log: seq<Notification<L, P>>, l: L): (r: nat)
    ensures r <= |log|
    ensures r == 0 <==> forall i :: 0 <= i < |log| ==> log[i].listener != l
  {
    if |log| == 0 then 0
    else
      assert forall i :: 1 <= i < |log| ==> log[i] == log[1..][i - 1];
      (if log[0].listener == l then 1 else 0) + CountFor(log[1..], l)
  }

  /** A notification round reaches every registered listener exactly once and nobody else. */
  lemma {:induction false} NotifyOncePerListener<L, P>(ls: seq<L>, details: seq<Detail<P>>, meta: Meta<P>, l: L)
    requires NoDup(ls)
    ensures CountFor(Notify(ls, details, meta), l) == if l in ls then 1 else 0
  {
    if |ls| > 0 {
      var r := Notify(ls, details, meta);
      assert r[1..] == Notify(ls[1..], details, meta);
      assert NoDup(ls[1..]) by {
        forall i, j | 0 <= i < j < |ls[1..]| ensures ls[1..][i] != ls[1..][j] {
          assert ls[1..][i] == ls[i + 1] && ls[1..][j] == ls[j + 1];
        }
      }
      NotifyOncePerListener(ls[1..], details, meta, l);
      assert ls == [ls[0]] + ls[1..];
      if l == ls[0] {
        assert l !in ls[1..] by {
          forall k | 0 <= k < |ls[1..]| ensures ls[1..][k] != l {
            assert ls[1..][k] == ls[k + 1];
          }
        }
      }
    }
  }

  /** `ls` without `l`: `Set.prototype.delete`. */
  function Without<L(==)>(ls: seq<L>, l: L): (r: seq<L>)
    ensures l !in r
    ensures forall i :: 0 <= i < |r| ==> r[i] in ls
    ensures forall i :: 0 <= i < |ls| && ls[i] != l ==> ls[i] in r
    ensures NoDup(ls) ==> NoDup(r)
    ensures l !in ls ==> r == ls
  {
    if |ls| == 0 then []
    else
      var rest := Without(ls[1..], l);
      assert ls == [ls[0]] + ls[1..];
      if ls[0] == l then rest
      else
        assert NoDup(ls) ==> NoDup([ls[0]] + rest) by {
          if NoDup(ls) {
            assert NoDup(ls[1..]) by {
              forall i, j | 0 <= i < j < |ls[1..]| ensures ls[1..][i] != ls[1..][j] {
                assert ls[1..][i] == ls[i + 1] && ls[1..][j] == ls[j + 1];
              }
            }
            assert ls[0] !in ls[1..] by {
              forall k | 0 <= k < |ls[1..]| ensures ls[1..][k] != ls[0] {
                assert ls[1..][k] == ls[k + 1];
              }
            }
            var r := [ls[0]] + rest;
            forall i, j | 0 <= i < j < |r| ensures r[i] != r[j] {
              assert r[j] == rest[j - 1];
              if i > 0 { assert r[i] == rest[i - 1]; }
            }
          }
        }
        [ls[0]] + rest
  }

  /** The tail of a duplicate-free sequence is duplicate-free and lacks the head. */
  lemma NoDupTail<L>(ls: seq<L>)
    requires NoDup(ls) && |ls| > 0
    ensures NoDup(ls[1..]) && ls[0] !in ls[1..]
  {
    forall i, j | 0 <= i < j < |ls[1..]| ensures ls[1..][i] != ls[1..][j] {
      assert ls[1..][i] == ls[i + 1] && ls[1..][j] == ls[j + 1];
    }
    forall j | 0 <= j < |ls[1..]| ensures ls[1..][j] != ls[0] {
      assert ls[1..][j] == ls[j + 1];
    }
  }

  /**
    Deleting from a duplicate-free listener sequence cuts out the one
    occurrence and leaves the other listeners in their order.
   */
  lemma {:induction false} WithoutCutsOut<L>(ls: seq<L>, l: L, k: nat)
    requires NoDup(ls) && k < |ls| && ls[k] == l
    ensures Without(ls, l) == ls[..k] + ls[k + 1..]
  {
    assert ls == [ls[0]] + ls[1..];
    NoDupTail(ls);
    if k > 0 {
      WithoutCutsOut(ls[1..], l, k - 1);
      assert ls[0] != l;
      assert ls[..k] == [ls[0]] + ls[1..][..k - 1];
      assert ls[k + 1..] == ls[1..][k..];
    }
  }

  /**
    `createStore()`: no providers, no listeners, discovery started. Without a
    window the relay returns no disposer and never delivers an announcement,
    so discovery runs only when `window` holds.
   */
  function Create<L, P>(window: bool): (s: State<L, P>)
    ensures Valid(s)
    ensures s.providers == [] && s.listeners == [] && s.running == window
  {
    State([], [], window)
  }

  /**
    The discovery callback. While discovery runs, a detail whose uuid is new
    is appended at the end and every listener is told `(newList, {added: [d]})`;
    a known uuid, or a stopped discovery, changes nothing and tells nobody.
   */
  function Ingest<L, P>(s: State<L, P>, d: Detail<P>): (r: Step<L, P>)
    ensures !s.running || HasUuid(s.providers, d.info.uuid) ==> r == Step(s, [])
    ensures s.running && !HasUuid(s.providers, d.info.uuid) ==>
      && r.state == s.(providers := s.providers + [d])
      && r.log == Notify(s.listeners, r.state.providers, Added([d]))
    ensures r.state.listeners == s.listeners && r.state.running == s.running
    ensures |r.state.providers| >= |s.providers| && r.state.providers[..|s.providers|] == s.providers
    ensures Valid(s) ==> Valid(r.state)
    ensures s.running ==> HasUuid(r.state.providers, d.info.uuid)
  {
    if !s.running || HasUuid(s.providers, d.info.uuid) then Step(s, [])
    else
      var providers := s.providers + [d];
      HasUuidAppend(s.providers, d, d.info.uuid);
      AppendKeepsDistinct(s.providers, d);
      Step(s.(providers := providers), Notify(s.listeners, providers, Added([d])))
  }

  /**
    `clear()`: every listener is told `([], {removed: oldList})`, even when the
    list is already empty; then the list is emptied. Listeners and discovery
    are untouched.
   */
  function Clear<L, P>(s: State<L, P>): (r: Step<L, P>)
    ensures r.state.providers == []
    ensures r.state.listeners == s.listeners && r.state.running == s.running
    ensures r.log == Notify(s.listeners, [], Removed(s.providers))
    ensures Valid(s) ==> Valid(r.state)
  {
    Step(s.(providers := []), Notify(s.listeners, [], Removed(s.providers)))
  }

  /**
    `destroy()`: `clear()`, then drop every listener and dispose discovery.
    The notifications are those of the clear, sent before the listeners go.
   */
  function Destroy<L, P>(s: State<L, P>): (r: Step<L, P>)
    ensures r.state.providers == [] && r.state.listeners == [] && !r.state.running
    ensures r.log == Clear(s).log
    ensures Valid(r.state)
  {
    var cleared := Clear(s);
    Step(cleared.state.(listeners := [], running := false), cleared.log)
  }

  /**
    `reset()`: `clear()`, dispose the old discovery and start a new one (which
    runs when a window exists). Listeners are kept.
   */
  function Reset<L, P>(s: State<L, P>, window: bool): (r: Step<L, P>)
    ensures r.state.providers == []
    ensures r.state.listeners == s.listeners
    ensures r.state.running == window
    ensures r.log == Clear(s).log
    ensures Valid(s) ==> Valid(r.state)
  {
    var cleared := Clear(s);
    Step(cleared.state.(running := window), cleared.log)
  }

  /**
    `subscribe(listener, { emitImmediately })`: add the listener to the set
    (a listener already present keeps its place), then, with
    `emitImmediately`, call that listener alone with `(list, {added: list})`.
   */
  function Subscribe<L(==), P>(s: State<L, P>, l: L, emitImmediately: bool): (r: Step<L, P>)
    ensures Listeners(r.state) == Listeners(s) + {l}
    ensures l in s.listeners ==> r.state == s
    ensures l !in s.listeners ==> r.state.listeners == s.listeners + [l]
    ensures r.state.providers == s.providers && r.state.running == s.running
    ensures emitImmediately ==> r.log == [Notification(l, s.providers, Added(s.providers))]
    ensures !emitImmediately ==> r.log == []
    ensures Valid(s) ==> Valid(r.state)
  {
    var listeners := if l in s.listeners then s.listeners else s.listeners + [l];
    var log := if emitImmediately then [Notification(l, s.providers, Added(s.providers))] else [];
    assert NoDup(s.listeners) && l !in s.listeners ==> NoDup(s.listeners + [l]) by {
      if NoDup(s.listeners) && l !in s.listeners {
        var t := s.listeners + [l];
        forall i, j | 0 <= i < j < |t| ensures t[i] != t[j] {
          assert t[i] == s.listeners[i];
          if j < |s.listeners| { assert t[j] == s.listeners[j]; }
        }
      }
    }
    Step(s.(listeners := listeners), log)
  }

  /**
    The disposer `subscribe` returns: remove exactly that listener. Calling it
    again, or after `destroy()`, changes nothing.
   */
  function Unsubscribe<L(==), P>(s: State<L, P>, l: L): (r: State<L, P>)
    ensures Listeners(r) == Listeners(s) - {l}
    ensures l !in s.listeners ==> r == s
    ensures r.providers == s.providers && r.running == s.running
    ensures Valid(s) ==> Valid(r)
  {
    s.(listeners := Without(s.listeners, l))
  }

  /**
    A sequence has at least as many elements as the set of its elements, and
    exactly as many when it is duplicate-free.
   */
  lemma {:induction false} DistinctCount<L>(ls: seq<L>)
    ensures |set l | l in ls| <= |ls|
    ensures NoDup(ls) ==> |set l | l in ls| == |ls|
  {
    if |ls| > 0 {
      var tail := ls[1..];
      DistinctCount(tail);
      assert ls == [ls[0]] + tail;
      assert (set l | l in ls) == (set l | l in tail) + {ls[0]};
      if NoDup(ls) {
        assert NoDup(tail) by {
          forall i, j | 0 <= i < j < |tail| ensures tail[i] != tail[j] {
            assert tail[i] == ls[i + 1] && tail[j] == ls[j + 1];
          }
        }
        assert ls[0] !in tail by {
          forall k | 0 <= k < |tail| ensures tail[k] != ls[0] {
            assert tail[k] == ls[k + 1];
          }
        }
      }
    }
  }

  /**
    `_listeners()`: the current listener set; in a valid state its size is the
    number of registered listeners.
   */
  function Listeners<L(==), P>(s: State<L, P>): (r: set<L>)
    ensures forall l :: l in r ==> exists i :: 0 <= i < |s.listeners| && s.listeners[i] == l
    ensures forall i :: 0 <= i < |s.listeners| ==> s.listeners[i] in r
    ensures |r| <= |s.listeners|
    ensures NoDup(s.listeners) ==> |r| == |s.listeners|
  {
    DistinctCount(s.listeners);
    set l | l in s.listeners
  }

  /** `getProviders()`: the current list, with distinct uuids in every valid state. */
  function GetProviders<L, P>(s: State<L, P>): (r: seq<Detail<P>>)
    ensures Valid(s) ==> DistinctUuids(r)
    ensures forall v :: HasUuid(r, v) <==> HasUuid(s.providers, v)
  {
    s.providers
  }

  /** The position of the first entry of `list` whose rdns is `rdns`, if any. */
  function FindIndex<P>(list: seq<Detail<P>>, rdns: string): (r: Option<nat>)
    ensures r.None? <==> forall i :: 0 <= i < |list| ==> list[i].info.rdns != rdns
    ensures r.Some? ==>
      && r.value < |list|
      && list[r.value].info.rdns == rdns
      && forall k :: 0 <= k < r.value ==> list[k].info.rdns != rdns
  {
    if |list| == 0 then None
    else if list[0].info.rdns == rdns then Some(0)
    else
      match FindIndex(list[1..], rdns)
      case None =>
        assert forall i :: 1 <= i < |list| ==> list[i] == list[1..][i - 1];
        None
      case Some(k) =>
        assert forall i :: 1 <= i <= k + 1 ==> list[i] == list[1..][i - 1];
        Some(k + 1)
  }

  /**
    `findProvider({ rdns })`: the first provider, in list order, whose rdns is
    `rdns`, or nothing when no provider has it.
   */
  function FindProvider<L, P>(s: State<L, P>, rdns: string): (r: Option<Detail<P>>)
    ensures r.None? <==> forall i :: 0 <= i < |s.providers| ==> s.providers[i].info.rdns != rdns
    ensures r.Some? ==> r.value.info.rdns == rdns
    ensures r.Some? ==>
      exists i :: 0 <= i < |s.providers| && s.providers[i] == r.value &&
        forall k :: 0 <= k < i ==> s.providers[k].info.rdns != rdns
  {
    match FindIndex(s.providers, rdns)
    case None => None
    case Some(i) => Some(s.providers[i])
  }

  /** A call into the Store, or an announcement delivered to its discovery callback. */
  datatype Command<L, P> =
    | Announce(detail: Detail<P>)
    | CallClear
    | CallDestroy
    | CallReset(window: bool)
    | CallSubscribe(listener: L, emitImmediately: bool)
    | CallUnsubscribe(listener: L)

  function Apply<L(==), P>(s: State<L, P>, c: Command<L, P>): (r: Step<L, P>)
    ensures Valid(s) ==> Valid(r.state)
  {
    match c
    case Announce(d) => Ingest(s, d)
    case CallClear => Clear(s)
    case CallDestroy => Destroy(s)
    case CallReset(window) => Reset(s, window)
    case CallSubscribe(l, emit) => Subscribe(s, l, emit)
    case CallUnsubscribe(l) => Step(Unsubscribe(s, l), [])
  }

  /**
    Runs commands in order, concatenating their notification logs. Every
    state reached keeps the invariant, whatever the commands.
   */
  function Run<L(==), P>(s: State<L, P>, cs: seq<Command<L, P>>): (r: Step<L, P>)
    ensures Valid(s) ==> Valid(r.state)
    decreases |cs|
  {
    if |cs| == 0 then Step(s, [])
    else
      var first := Apply(s, cs[0]);
      var rest := Run(first.state, cs[1..]);
      Step(rest.state, first.log + rest.log)
  }

  /** From `createStore()`, every sequence of calls and announcements keeps the invariant. */
  lemma ReachableStatesAreValid<L, P>(window: bool, cs: seq<Command<L, P>>)
    ensures DistinctUuids(Run(Create<L, P>(window), cs).state.providers)
    ensures NoDup(Run(Create<L, P>(window), cs).state.listeners)
  {
  }

  /**
    The discovery callback applied to each detail of a stream, in order: the
    list is only ever extended, listeners and discovery stay as they are, and
    the invariant is kept.
   */
  function IngestAll<L, P>(s: State<L, P>, ds: seq<Detail<P>>): (r: Step<L, P>)
    ensures |r.state.providers| >= |s.providers| && r.state.providers[..|s.providers|] == s.providers
    ensures r.state.listeners == s.listeners && r.state.running == s.running
    ensures Valid(s) ==> Valid(r.state)
    decreases |ds|
  {
    if |ds| == 0 then Step(s, [])
    else
      var first := Ingest(s, ds[0]);
      var rest := IngestAll(first.state, ds[1..]);
      assert rest.state.providers[..|s.providers|] == rest.state.providers[..|first.state.providers|][..|s.providers|];
      Step(rest.state, first.log + rest.log)
  }

  /**
    Over any stream of announcements, a running Store appends exactly the
    first-seen entries among the announcements with uuids it did not hold, in
    first-seen order, and keeps its listeners and discovery.
   */
  lemma {:induction false} IngestAllIsFirstSeen<L, P>(s: State<L, P>, ds: seq<Detail<P>>)
    requires s.running
    ensures IngestAll(s, ds).state.providers == s.providers + FirstSeen(Unseen(ds, s.providers))
    decreases |ds|
  {
    if |ds| > 0 {
      var d := ds[0];
      var next := Ingest(s, d).state;
      IngestAllIsFirstSeen(next, ds[1..]);
      assert IngestAll(s, ds).state == IngestAll(next, ds[1..]).state;
      FirstSeenStep(s.providers, ds, next.providers);
    } else {
      assert Unseen(ds, s.providers) == [];
    }
  }

  /** A Store whose discovery is disposed ignores every stream of announcements. */
  lemma {:induction false} IngestAllWhileStopped<L, P>(s: State<L, P>, ds: seq<Detail<P>>)
    requires !s.running
    ensures IngestAll(s, ds) == Step(s, [])
    decreases |ds|
  {
    if |ds| > 0 {
      IngestAllWhileStopped(s, ds[1..]);
    }
  }

  lemma {:induction false} CountForAppend<L, P>(a: seq<Notification<L, P>>, b: seq<Notification<L, P>>, l: L)
    ensures CountFor(a + b, l) == CountFor(a, l) + CountFor(b, l)
  {
    if |a| > 0 {
      CountForAppend(a[1..], b, l);
      assert (a + b)[1..] == a[1..] + b;
    } else {
      assert a + b == b;
    }
  }

  /**
    Over any stream of announcements, each registered listener is notified
    exactly once per entry the list gains, and an unregistered one never.
   */
  lemma {:induction false} IngestAllNotifiesOncePerNewEntry<L, P>(s: State<L, P>, ds: seq<Detail<P>>, l: L)
    requires NoDup(s.listeners)
    ensures CountFor(IngestAll(s, ds).log, l) ==
      if l in s.listeners then |IngestAll(s, ds).state.providers| - |s.providers| else 0
    decreases |ds|
  {
    if |ds| > 0 {
      var first := Ingest(s, ds[0]);
      var rest := IngestAll(first.state, ds[1..]);
      IngestAllNotifiesOncePerNewEntry(first.state, ds[1..], l);
      CountForAppend(first.log, rest.log, l);
      if s.running && !HasUuid(s.providers, ds[0].info.uuid) {
        NotifyOncePerListener(s.listeners, first.state.providers, Added([ds[0]]), l);
      }
    }
  }

  /** `destroy()` twice is safe: the second call finds nothing to clear and nobody to tell. */
  lemma DestroyIsIdempotent<L, P>(s: State<L, P>)
    ensures Destroy(Destroy(s).state) == Step(Destroy(s).state, [])
  {
  }

  /** `reset()` after `destroy()` gives back exactly the state of a new Store. */
  lemma ResetAfterDestroyIsFresh<L, P>(s: State<L, P>, window: bool)
    ensures Reset(Destroy(s).state, window) == Step(Create(window), [])
  {
  }

  /**
    After `reset()` in a window, ingestion resumes whatever happened before,
    `destroy()` included: the first announcement becomes the whole list and
    every kept listener hears of it.
   */
  lemma ResetResumesIngestion<L, P>(s: State<L, P>, d: Detail<P>)
    ensures Ingest(Reset(s, true).state, d).state.providers == [d]
    ensures Ingest(Reset(s, true).state, d).log == Notify(s.listeners, [d], Added([d]))
  {
    assert !HasUuid(Reset(s, true).state.providers, d.info.uuid);
  }

  /** No providers and no discovery: the state `destroy()` leaves behind. */
  ghost predicate Inert<L, P>(s: State<L, P>)
  {
    s.providers == [] && !s.running
  }

  /** A notification that names no provider: empty list, nothing added, nothing removed. */
  ghost predicate Silent<L, P>(n: Notification<L, P>)
  {
    n.details == [] && (n.meta == Added([]) || n.meta == Removed([]))
  }

  lemma SilentAppend<L, P>(a: seq<Notification<L, P>>, b: seq<Notification<L, P>>)
    requires forall i :: 0 <= i < |a| ==> Silent(a[i])
    requires forall i :: 0 <= i < |b| ==> Silent(b[i])
    ensures forall i :: 0 <= i < |a + b| ==> Silent((a + b)[i])
  {
    forall i | 0 <= i < |a + b| ensures Silent((a + b)[i]) {
      if i >= |a| { assert (a + b)[i] == b[i - |a|]; }
    }
  }

  lemma ApplyKeepsInert<L, P>(s: State<L, P>, c: Command<L, P>)
    requires Inert(s) && !c.CallReset?
    ensures Inert(Apply(s, c).state)
    ensures forall i :: 0 <= i < |Apply(s, c).log| ==> Silent(Apply(s, c).log[i])
  {
    match c
    case Announce(d) =>
    case CallClear =>
    case CallDestroy =>
    case CallSubscribe(l, emit) =>
    case CallUnsubscribe(l) =>
  }

  /**
    An inert Store stays inert under every command but `reset()`: no
    announcement adds a provider, and every notification still sent (by
    `clear`, `destroy` or `subscribe`) carries the empty list and an empty
    `added` or `removed`.
   */
  lemma {:induction false} InertUntilReset<L, P>(s: State<L, P>, cs: seq<Command<L, P>>)
    requires Inert(s)
    requires forall i :: 0 <= i < |cs| ==> !cs[i].CallReset?
    ensures Inert(Run(s, cs).state)
    ensures forall i :: 0 <= i < |Run(s, cs).log| ==> Silent(Run(s, cs).log[i])
    decreases |cs|
  {
    if |cs| > 0 {
      var first := Apply(s, cs[0]);
      var rest := Run(first.state, cs[1..]);
      assert Run(s, cs) == Step(rest.state, first.log + rest.log);
      ApplyKeepsInert(s, cs[0]);
      InertUntilReset(first.state, cs[1..]);
      SilentAppend(first.log, rest.log);
    }
  }

  /**
    After `destroy()`, until `reset()` is called, announcements leave the list
    empty and nobody is told about any provider, neither as the list nor as
    added or removed.
   */
  lemma DestroyedStoreIgnoresAnnouncements<L, P>(s: State<L, P>, cs: seq<Command<L, P>>)
    requires forall i :: 0 <= i < |cs| ==> !cs[i].CallReset?
    ensures Run(Destroy(s).state, cs).state.providers == []
    ensures !Run(Destroy(s).state, cs).state.running
    ensures forall i :: 0 <= i < |Run(Destroy(s).state, cs).log| ==>
      && Run(Destroy(s).state, cs).log[i].details == []
      && (Run(Destroy(s).state, cs).log[i].meta == Added([]) || Run(Destroy(s).state, cs).log[i].meta == Removed([]))
  {
    InertUntilReset(Destroy(s).state, cs);
  }

  lemma {:induction false} WithoutAppended<L>(ls: seq<L>, l: L)
    requires l !in ls
    ensures Without(ls + [l], l) == ls
  {
    if |ls| > 0 {
      assert (ls + [l])[1..] == ls[1..] + [l];
      WithoutAppended(ls[1..], l);
    }
  }

  /** Unsubscribing a listener that was just subscribed restores the Store exactly. */
  lemma SubscribeThenUnsubscribe<L, P>(s: State<L, P>, l: L, emitImmediately: bool)
    requires l !in s.listeners
    ensures Unsubscribe(Subscribe(s, l, emitImmediately).state, l) == s
  {
    WithoutAppended(s.listeners, l);
  }

  /**
    The listener count moves by one per effective `subscribe` and disposer
    call, and re-subscribing or disposing twice leaves it unchanged.
   */
  lemma ListenerCountTracksSubscriptions<L, P>(s: State<L, P>, l: L, emitImmediately: bool)
    ensures |Listeners(Subscribe(s, l, emitImmediately).state)| ==
      if l in s.listeners then |Listeners(s)| else |Listeners(s)| + 1
    ensures |Listeners(Unsubscribe(s, l))| ==
      if l in s.listeners then |Listeners(s)| - 1 else |Listeners(s)|
  {
    assert l in s.listeners <==> l in Listeners(s);
  }

  /**
    The `subscribe` scenario of the test suite: a listener subscribed to a new
    Store hears of the first wallet, then of the second, and nothing of the
    second wallet's repeated announcement.
   */
  lemma SubscribeScenario<L, P>(o: L, p1: P, p2: P)
    ensures
      var d1 := Detail(Info("https://example.io/icon.png", "Example Wallet", "org.example",
                            "350670db-19fa-4704-a166-e52e178b59d2"), p1);
      var d2 := Detail(Info("https://foo.io/icon.png", "Foo Wallet", "org.foo",
                            "12345555-19fa-4704-a166-e52e178b59d2"), p2);
      var s0 := Subscribe(Create<L, P>(true), o, false).state;
      var r := IngestAll(s0, [d1, d2, d2]);
      && r.state.providers == [d1, d2]
      && r.log == [Notification(o, [d1], Added([d1])), Notification(o, [d1, d2], Added([d2]))]
  {
    var d1 := Detail(Info("https://example.io/icon.png", "Example Wallet", "org.example",
                          "350670db-19fa-4704-a166-e52e178b59d2"), p1);
    var d2 := Detail(Info("https://foo.io/icon.png", "Foo Wallet", "org.foo",
                          "12345555-19fa-4704-a166-e52e178b59d2"), p2);
    assert d1.info.uuid[0] != d2.info.uuid[0];
    TwoWalletsScenario(o, d1, d2);
  }

  /** The scenario above for any two wallets with different uuids. */
  lemma TwoWalletsScenario<L, P>(o: L, d1: Detail<P>, d2: Detail<P>)
    requires d1.info.uuid != d2.info.uuid
    ensures
      var r := IngestAll(Subscribe(Create<L, P>(true), o, false).state, [d1, d2, d2]);
      && r.state.providers == [d1, d2]
      && r.log == [Notification(o, [d1], Added([d1])), Notification(o, [d1, d2], Added([d2]))]
  {
    var s0 := Subscribe(Create<L, P>(true), o, false).state;
    assert s0 == State([], [o], true);
    var s1 := State([d1], [o], true);
    var s2 := State([d1, d2], [o], true);
    assert Ingest(s0, d1) == Step(s1, [Notification(o, [d1], Added([d1]))]) by {
      IngestForOneListener(s0, d1, o);
      assert [] + [d1] == [d1];
    }
    assert Ingest(s1, d2) == Step(s2, [Notification(o, [d1, d2], Added([d2]))]) by {
      HasUuidPrepend(d1, [], d2.info.uuid);
      IngestForOneListener(s1, d2, o);
      assert [d1] + [d2] == [d1, d2];
    }
    assert Ingest(s2, d2) == Step(s2, []) by {
      HasUuidAppend([d1], d2, d2.info.uuid);
      assert [d1] + [d2] == [d1, d2];
    }
    IngestAllCons(s2, d2, []);
    IngestAllCons(s1, d2, [d2]);
    IngestAllCons(s0, d1, [d2, d2]);
    assert [d2] + [] == [d2] && [d2] + [d2] == [d2, d2] && [d1] + [d2, d2] == [d1, d2, d2];
  }

  /** A new uuid announced to a running Store with a single listener. */
  lemma IngestForOneListener<L, P>(s: State<L, P>, d: Detail<P>, o: L)
    requires s.running && s.listeners == [o] && !HasUuid(s.providers, d.info.uuid)
    ensures Ingest(s, d) ==
      Step(s.(providers := s.providers + [d]), [Notification(o, s.providers + [d], Added([d]))])
  {
    assert Notify([o], s.providers + [d], Added([d])) == [Notification(o, s.providers + [d], Added([d]))];
  }

  /** Unfolds one announcement of `IngestAll`. */
  lemma IngestAllCons<L, P>(s: State<L, P>, d: Detail<P>, ds: seq<Detail<P>>)
    ensures IngestAll(s, [d] + ds) ==
      Step(IngestAll(Ingest(s, d).state, ds).state, Ingest(s, d).log + IngestAll(Ingest(s, d).state, ds).log)
  {
    assert ([d] + ds)[0] == d && ([d] + ds)[1..] == ds;
  }
}
