/**
  The `requestProviders` watcher of the plain JavaScript entry point: unlike
  the relay it deduplicates on its own, keeping a private list of the details
  it has accepted and calling back once per new uuid.
 */
module Watcher {
  import opened Eip6963

  /** One call `cb(detail, providerDetails)`; `details` is the private list at the time of the call. */
  datatype Call<P> = Call(detail: Detail<P>, details: seq<Detail<P>>)

  /** The private list after some announcements, with the callbacks they caused in order. */
  datatype Watched<P> = Watched(list: seq<Detail<P>>, calls: seq<Call<P>>)

  /** What each callback was called back about, in call order. */
  function CalledWith<P>(calls: seq<Call<P>>): (r: seq<Detail<P>>)
    ensures |r| == |calls|
    ensures forall i :: 0 <= i < |calls| ==> r[i] == calls[i].detail
  {
    if |calls| == 0 then [] else [calls[0].detail] + CalledWith(calls[1..])
  }

  lemma {:induction false} CalledWithAppend<P>(a: seq<Call<P>>, b: seq<Call<P>>)
    ensures CalledWith(a + b) == CalledWith(a) + CalledWith(b)
  {
    var l, r := CalledWith(a + b), CalledWith(a) + CalledWith(b);
    assert |l| == |r|;
    forall i | 0 <= i < |l| ensures l[i] == r[i] {
      if i < |a| { assert (a + b)[i] == a[i]; } else { assert (a + b)[i] == b[i - |a|]; }
    }
  }

  /** A freshly started watcher: its private list is empty, whatever any other watcher has seen. */
  function Start<P>(): (w: Watched<P>)
    ensures w.list == [] && w.calls == []
    ensures DistinctUuids(w.list)
  {
    Watched([], [])
  }

  /**
    The announcement handler: an announcement whose uuid is already in the
    private list is ignored; otherwise it is pushed and the callback is invoked
    with it and the grown list.
   */
  function Handle<P>(list: seq<Detail<P>>, d: Detail<P>): (w: Watched<P>)
    ensures |w.calls| <= 1
    ensures |w.calls| == 1 <==> !HasUuid(list, d.info.uuid)
    ensures |w.calls| == 0 ==> w.list == list
    ensures |w.calls| == 1 ==>
      && |w.list| == |list| + 1
      && w.list[..|list|] == list
      && w.calls[0].detail == d
      && w.calls[0].details == w.list
      && w.list[|w.list| - 1] == d
    ensures DistinctUuids(list) ==> DistinctUuids(w.list)
    ensures HasUuid(w.list, d.info.uuid)
  {
    if HasUuid(list, d.info.uuid) then Watched(list, [])
    else
      var grown := list + [d];
      AppendKeepsDistinct(list, d);
      HasUuidAppend(list, d, d.info.uuid);
      Watched(grown, [Call(d, grown)])
  }

  /** The watcher fed a stream of announcements, one handler run per announcement. */
  function Watch<P>(list: seq<Detail<P>>, ds: seq<Detail<P>>): (w: Watched<P>)
    ensures |w.list| >= |list| && w.list[..|list|] == list
    decreases |ds|
  {
    if |ds| == 0 then Watched(list, [])
    else
      var h := Handle(list, ds[0]);
      var rest := Watch(h.list, ds[1..]);
      assert rest.list[..|list|] == rest.list[..|h.list|][..|list|];
      Watched(rest.list, h.calls + rest.calls)
  }

  /**
    Over any stream, the private list grows by exactly the first-seen entries
    among the announcements whose uuid it did not already hold.
   */
  lemma {:induction false} WatchIsFirstSeen<P>(list: seq<Detail<P>>, ds: seq<Detail<P>>)
    ensures Watch(list, ds).list == list + FirstSeen(Unseen(ds, list))
    decreases |ds|
  {
    if |ds| > 0 {
      var next := Handle(list, ds[0]).list;
      WatchIsFirstSeen(next, ds[1..]);
      FirstSeenStep(list, ds, next);
    } else {
      assert Unseen(ds, list) == [];
    }
  }

  /**
    Over any stream, the callback is invoked exactly for the entries the
    private list gains, once each and in the order they are appended.
   */
  lemma {:induction false} WatchCallsBackOnAppend<P>(list: seq<Detail<P>>, ds: seq<Detail<P>>)
    ensures CalledWith(Watch(list, ds).calls) == Watch(list, ds).list[|list|..]
    decreases |ds|
  {
    if |ds| > 0 {
      var w := Watch(list, ds);
      var h := Handle(list, ds[0]);
      var rest := Watch(h.list, ds[1..]);
      WatchCallsBackOnAppend(h.list, ds[1..]);
      assert w.calls == h.calls + rest.calls && w.list == rest.list;
      CalledWithAppend(h.calls, rest.calls);
      if HasUuid(list, ds[0].info.uuid) {
        assert h.calls == [] && h.list == list;
      } else {
        assert CalledWith(h.calls) == [ds[0]];
        assert h.list == list + [ds[0]];
        assert rest.list[..|h.list|] == h.list;
        assert w.list[|list|..] == [ds[0]] + rest.list[|h.list|..];
      }
    }
  }

  /** Each call in `w` was handed the prefix of `w.list` that ends with its detail. */
  ghost predicate CallsSeePrefixes<P>(list: seq<Detail<P>>, w: Watched<P>)
  {
    && |w.list| == |list| + |w.calls|
    && forall i :: 0 <= i < |w.calls| ==> w.calls[i].details == w.list[..|list| + i + 1]
  }

  lemma CallsSeePrefixesCons<P>(list: seq<Detail<P>>, d: Detail<P>, rest: Watched<P>)
    requires CallsSeePrefixes(list + [d], rest)
    requires rest.list[..|list| + 1] == list + [d]
    ensures CallsSeePrefixes(list, Watched(rest.list, [Call(d, list + [d])] + rest.calls))
  {
    var calls := [Call(d, list + [d])] + rest.calls;
    forall i | 0 <= i < |calls|
      ensures calls[i].details == rest.list[..|list| + i + 1]
    {
      if i > 0 {
        assert calls[i] == rest.calls[i - 1];
      }
    }
  }

  /**
    The list handed to the i-th callback is the private list's prefix that
    ends with that call's detail.
   */
  lemma {:induction false} WatchCallListsArePrefixes<P>(list: seq<Detail<P>>, ds: seq<Detail<P>>)
    ensures CallsSeePrefixes(list, Watch(list, ds))
    decreases |ds|
  {
    if |ds| > 0 {
      var h := Handle(list, ds[0]);
      var rest := Watch(h.list, ds[1..]);
      WatchCallListsArePrefixes(h.list, ds[1..]);
      if HasUuid(list, ds[0].info.uuid) {
        assert Watch(list, ds) == rest;
      } else {
        assert h == Watched(list + [ds[0]], [Call(ds[0], list + [ds[0]])]);
        CallsSeePrefixesCons(list, ds[0], rest);
        assert Watch(list, ds) == Watched(rest.list, h.calls + rest.calls);
      }
    }
  }

  /**
    A watcher started on its own empty list calls back once per distinct uuid of
    the stream, in first-seen order, and ends with exactly those details.
   */
  lemma WatcherCallsOncePerUuid<P>(ds: seq<Detail<P>>)
    ensures Watch(Start<P>().list, ds).list == FirstSeen(ds)
    ensures CalledWith(Watch(Start<P>().list, ds).calls) == FirstSeen(ds)
    ensures DistinctUuids(CalledWith(Watch(Start<P>().list, ds).calls))
    ensures forall v :: HasUuid(CalledWith(Watch(Start<P>().list, ds).calls), v) <==> HasUuid(ds, v)
  {
    WatchIsFirstSeen([], ds);
    WatchCallsBackOnAppend([], ds);
    UnseenNothing(ds);
  }

  /**
    Deduplication is per watcher. Suppose watcher A has already handled the
    stream `p` and watcher B is started afterwards; both then receive `q`.
    B calls back for every uuid of `q`, while A stays silent about the uuids it
    saw in `p`.
   */
  lemma WatchersDeduplicateIndependently<P>(p: seq<Detail<P>>, q: seq<Detail<P>>, uuid: string)
    requires HasUuid(p, uuid) && HasUuid(q, uuid)
    ensures HasUuid(CalledWith(Watch(Start<P>().list, q).calls), uuid)
    ensures !HasUuid(CalledWith(Watch(Watch(Start<P>().list, p).list, q).calls), uuid)
  {
    WatcherCallsOncePerUuid(p);
    WatcherCallsOncePerUuid(q);
    WatchIsFirstSeen(Watch([], p).list, q);
    WatchCallsBackOnAppend(Watch([], p).list, q);
  }
}
