/**
  Announcement payloads of EIP-6963 (Multi Injected Provider Discovery) and
  the uuid-keyed, first-seen-wins deduplication that both consumers of
  announcements (the Store and the `requestProviders` watcher) perform.
 */
module Eip6963 {

  /** Metadata an announcer publishes about itself (`EIP6963ProviderInfo`). */
  datatype Info = Info(icon: string, name: string, rdns: string, uuid: string)

  /** An announcement payload; the EIP-1193 provider handle `P` is never inspected. */
  datatype Detail<P> = Detail(info: Info, provider: P)

  datatype Option<T> = None | Some(value: T)

  /**
    Whether some entry of `list` carries `uuid`: the source's `list.some(...)`
    test, scanning from the front.
   */
  predicate HasUuid<P>(list: seq<Detail<P>>, uuid: string)
    ensures HasUuid(list, uuid) <==> exists i :: 0 <= i < |list| && list[i].info.uuid == uuid
  {
    |list| > 0 && (list[0].info.uuid == uuid || HasUuid(list[1..], uuid))
  }

  /** No two entries of `list` share a uuid. */
  ghost predicate DistinctUuids<P>(list: seq<Detail<P>>)
  {
    forall i, j :: 0 <= i < j < |list| ==> list[i].info.uuid != list[j].info.uuid
  }

  lemma HasUuidAppend<P>(list: seq<Detail<P>>, d: Detail<P>, uuid: string)
    ensures HasUuid(list + [d], uuid) <==> HasUuid(list, uuid) || d.info.uuid == uuid
  {
    if HasUuid(list + [d], uuid) && d.info.uuid != uuid {
      var i :| 0 <= i < |list + [d]| && (list + [d])[i].info.uuid == uuid;
      assert list[i].info.uuid == uuid;
    }
    if d.info.uuid == uuid {
      assert (list + [d])[|list|].info.uuid == uuid;
    }
    if HasUuid(list, uuid) {
      var i :| 0 <= i < |list| && list[i].info.uuid == uuid;
      assert (list + [d])[i].info.uuid == uuid;
    }
  }

  lemma HasUuidPrepend<P>(d: Detail<P>, list: seq<Detail<P>>, uuid: string)
    ensures HasUuid([d] + list, uuid) <==> d.info.uuid == uuid || HasUuid(list, uuid)
  {
    if HasUuid([d] + list, uuid) && d.info.uuid != uuid {
      var i :| 0 <= i < |[d] + list| && ([d] + list)[i].info.uuid == uuid;
      assert list[i - 1].info.uuid == uuid;
    }
    if HasUuid(list, uuid) {
      var i :| 0 <= i < |list| && list[i].info.uuid == uuid;
      assert ([d] + list)[i + 1].info.uuid == uuid;
    }
    if d.info.uuid == uuid {
      assert ([d] + list)[0].info.uuid == uuid;
    }
  }

  /** Appending an entry with an unseen uuid keeps the uuids pairwise distinct. */
  lemma AppendKeepsDistinct<P>(list: seq<Detail<P>>, d: Detail<P>)
    requires !HasUuid(list, d.info.uuid)
    ensures DistinctUuids(list) ==> DistinctUuids(list + [d])
  {
    var r := list + [d];
    forall i, j | 0 <= i < j < |r| && DistinctUuids(list)
      ensures r[i].info.uuid != r[j].info.uuid
    {
      if j == |list| {
        assert r[i] == list[i];
      } else {
        assert r[i] == list[i] && r[j] == list[j];
      }
    }
  }

  /**
    Filters out the entries of `ds` that carry `uuid`. The contract states
    which uuids survive; the order is that of the definition.
   */
  function DropUuid<P>(ds: seq<Detail<P>>, uuid: string): (r: seq<Detail<P>>)
    ensures |r| <= |ds|
    ensures forall v :: HasUuid(r, v) <==> HasUuid(ds, v) && v != uuid
  {
    if |ds| == 0 then []
    else
      var rest := DropUuid(ds[1..], uuid);
      assert ds == [ds[0]] + ds[1..];
      assert forall v :: HasUuid(ds, v) <==> ds[0].info.uuid == v || HasUuid(ds[1..], v) by {
        forall v { HasUuidPrepend(ds[0], ds[1..], v); }
      }
      if ds[0].info.uuid == uuid then rest
      else
        assert forall v :: HasUuid([ds[0]] + rest, v) <==> ds[0].info.uuid == v || HasUuid(rest, v) by {
          forall v { HasUuidPrepend(ds[0], rest, v); }
        }
        [ds[0]] + rest
  }

  /**
    Reference definition of first-seen deduplication: the first entry of the
    stream is kept and every later entry carrying its uuid is discarded.
   */
  function FirstSeen<P>(ds: seq<Detail<P>>): (r: seq<Detail<P>>)
    ensures |r| <= |ds|
    ensures DistinctUuids(r)
    ensures forall v :: HasUuid(r, v) <==> HasUuid(ds, v)
    decreases |ds|
  {
    if |ds| == 0 then []
    else
      var d := ds[0];
      var rest := FirstSeen(DropUuid(ds[1..], d.info.uuid));
      assert ds == [d] + ds[1..];
      assert forall v :: HasUuid(ds, v) <==> d.info.uuid == v || HasUuid(ds[1..], v) by {
        forall v { HasUuidPrepend(d, ds[1..], v); }
      }
      assert forall v :: HasUuid([d] + rest, v) <==> d.info.uuid == v || HasUuid(rest, v) by {
        forall v { HasUuidPrepend(d, rest, v); }
      }
      assert DistinctUuids([d] + rest) by {
        var r := [d] + rest;
        forall i, j | 0 <= i < j < |r|
          ensures r[i].info.uuid != r[j].info.uuid
        {
          if i == 0 {
            assert r[j] == rest[j - 1];
            assert HasUuid(rest, r[j].info.uuid);
          } else {
            assert r[i] == rest[i - 1] && r[j] == rest[j - 1];
          }
        }
      }
      [d] + rest
  }

  /**
    Filters out the entries of `ds` whose uuid occurs in `seen`. The contract
    states which uuids survive; the order is that of the definition.
   */
  function Unseen<P>(ds: seq<Detail<P>>, seen: seq<Detail<P>>): (r: seq<Detail<P>>)
    ensures |r| <= |ds|
    ensures forall v :: HasUuid(r, v) <==> HasUuid(ds, v) && !HasUuid(seen, v)
  {
    if |ds| == 0 then []
    else
      var rest := Unseen(ds[1..], seen);
      assert ds == [ds[0]] + ds[1..];
      assert forall v :: HasUuid(ds, v) <==> ds[0].info.uuid == v || HasUuid(ds[1..], v) by {
        forall v { HasUuidPrepend(ds[0], ds[1..], v); }
      }
      if HasUuid(seen, ds[0].info.uuid) then rest
      else
        assert forall v :: HasUuid([ds[0]] + rest, v) <==> ds[0].info.uuid == v || HasUuid(rest, v) by {
          forall v { HasUuidPrepend(ds[0], rest, v); }
        }
        [ds[0]] + rest
  }

  /** Nothing has been seen yet: every entry is unseen. */
  lemma {:induction false} UnseenNothing<P>(ds: seq<Detail<P>>)
    ensures Unseen(ds, []) == ds
  {
    if |ds| > 0 {
      UnseenNothing(ds[1..]);
      assert ds == [ds[0]] + ds[1..];
    }
  }

  /** Seeing one more entry `d` removes exactly its uuid from what is still unseen. */
  lemma {:induction false} UnseenExtend<P>(ds: seq<Detail<P>>, seen: seq<Detail<P>>, d: Detail<P>)
    ensures Unseen(ds, seen + [d]) == DropUuid(Unseen(ds, seen), d.info.uuid)
  {
    if |ds| > 0 {
      UnseenExtend(ds[1..], seen, d);
      HasUuidAppend(seen, d, ds[0].info.uuid);
      if !HasUuid(seen, ds[0].info.uuid) {
        var u := Unseen(ds, seen);
        assert u == [ds[0]] + Unseen(ds[1..], seen);
        assert u[0] == ds[0] && u[1..] == Unseen(ds[1..], seen);
      }
    }
  }

  /**
    One announcement handled by a deduplicating consumer: whatever the list
    gains from the rest of the stream completes what it gained from the
    whole stream.
   */
  lemma FirstSeenStep<P>(list: seq<Detail<P>>, ds: seq<Detail<P>>, next: seq<Detail<P>>)
    requires |ds| > 0
    requires HasUuid(list, ds[0].info.uuid) ==> next == list
    requires !HasUuid(list, ds[0].info.uuid) ==> next == list + [ds[0]]
    ensures next + FirstSeen(Unseen(ds[1..], next)) == list + FirstSeen(Unseen(ds, list))
  {
    if HasUuid(list, ds[0].info.uuid) {
      assert Unseen(ds, list) == Unseen(ds[1..], list);
    } else {
      FirstSeenStepNew(list, ds[0], ds[1..]);
      assert ds == [ds[0]] + ds[1..];
    }
  }

  lemma FirstSeenStepNew<P>(list: seq<Detail<P>>, d: Detail<P>, tail: seq<Detail<P>>)
    requires !HasUuid(list, d.info.uuid)
    ensures (list + [d]) + FirstSeen(Unseen(tail, list + [d])) == list + FirstSeen(Unseen([d] + tail, list))
  {
    var u := Unseen([d] + tail, list);
    assert u == [d] + Unseen(tail, list) by {
      assert ([d] + tail)[0] == d && ([d] + tail)[1..] == tail;
    }
    var rest := FirstSeen(DropUuid(Unseen(tail, list), d.info.uuid));
    assert FirstSeen(u) == [d] + rest by {
      assert u[0] == d && u[1..] == Unseen(tail, list);
    }
    assert Unseen(tail, list + [d]) == DropUuid(Unseen(tail, list), d.info.uuid) by {
      UnseenExtend(tail, list, d);
    }
    calc {
      (list + [d]) + FirstSeen(Unseen(tail, list + [d]));
      (list + [d]) + rest;
      { SeqAssoc(list, [d], rest); }
      list + ([d] + rest);
      list + FirstSeen(u);
    }
  }

  /** Concatenation regroups; as a separate lemma it keeps the step above out of a crowded context. */
  lemma SeqAssoc<T>(a: seq<T>, b: seq<T>, c: seq<T>)
    ensures (a + b) + c == a + (b + c)
  {
  }

  /**
    The position of the first entry of `ds` carrying `uuid`, or `|ds|` when
    there is none.
   */
  function FirstIndex<P>(ds: seq<Detail<P>>, uuid: string): (k: nat)
    ensures k <= |ds|
    ensures k < |ds| <==> HasUuid(ds, uuid)
    ensures k < |ds| ==> ds[k].info.uuid == uuid
    ensures forall j :: 0 <= j < k ==> ds[j].info.uuid != uuid
  {
    if |ds| == 0 then 0
    else if ds[0].info.uuid == uuid then 0
    else
      var k := 1 + FirstIndex(ds[1..], uuid);
      assert forall j :: 1 <= j < k ==> ds[j] == ds[1..][j - 1];
      k
  }

  lemma FirstIndexCons<P>(d: Detail<P>, t: seq<Detail<P>>, uuid: string)
    ensures FirstIndex([d] + t, uuid) == if d.info.uuid == uuid then 0 else 1 + FirstIndex(t, uuid)
  {
    assert ([d] + t)[1..] == t;
  }

  /** Dropping a uuid keeps, for every other uuid, the entry that first carried it. */
  lemma {:induction false} DropUuidKeepsFirstEntry<P>(t: seq<Detail<P>>, x: string, u: string)
    requires u != x && HasUuid(t, u)
    ensures DropUuid(t, x)[FirstIndex(DropUuid(t, x), u)] == t[FirstIndex(t, u)]
  {
    var a, t' := t[0], t[1..];
    assert t == [a] + t';
    FirstIndexCons(a, t', u);
    if a.info.uuid != u {
      assert HasUuid(t', u);
      DropUuidKeepsFirstEntry(t', x, u);
      if a.info.uuid != x {
        var dt := DropUuid(t', x);
        assert DropUuid(t, x) == [a] + dt;
        FirstIndexCons(a, dt, u);
        assert ([a] + dt)[1 + FirstIndex(dt, u)] == dt[FirstIndex(dt, u)];
      }
    } else {
      assert DropUuid(t, x) == [a] + DropUuid(t', x);
      FirstIndexCons(a, DropUuid(t', x), u);
    }
  }

  /** Dropping a uuid keeps the relative order in which the other uuids first occur. */
  lemma {:induction false} DropUuidKeepsFirstOrder<P>(t: seq<Detail<P>>, x: string, u: string, v: string)
    requires u != x && v != x
    ensures FirstIndex(DropUuid(t, x), u) < FirstIndex(DropUuid(t, x), v) <==> FirstIndex(t, u) < FirstIndex(t, v)
  {
    if |t| > 0 {
      var a, t' := t[0], t[1..];
      assert t == [a] + t';
      DropUuidKeepsFirstOrder(t', x, u, v);
      FirstIndexCons(a, t', u);
      FirstIndexCons(a, t', v);
      if a.info.uuid != x {
        var dt := DropUuid(t', x);
        assert DropUuid(t, x) == [a] + dt;
        FirstIndexCons(a, dt, u);
        FirstIndexCons(a, dt, v);
      }
    }
  }

  /**
    `FirstSeen` keeps, for each uuid, the entry of the stream that carried it
    first, and lists those entries in the order they occur in the stream.
   */
  lemma {:induction false} FirstSeenKeepsFirstOccurrences<P>(ds: seq<Detail<P>>)
    ensures forall i :: 0 <= i < |FirstSeen(ds)| ==>
      && FirstIndex(ds, FirstSeen(ds)[i].info.uuid) < |ds|
      && ds[FirstIndex(ds, FirstSeen(ds)[i].info.uuid)] == FirstSeen(ds)[i]
    ensures forall i, j :: 0 <= i < j < |FirstSeen(ds)| ==>
      FirstIndex(ds, FirstSeen(ds)[i].info.uuid) < FirstIndex(ds, FirstSeen(ds)[j].info.uuid)
    decreases |ds|
  {
    if |ds| > 0 {
      var d, t := ds[0], ds[1..];
      var dt := DropUuid(t, d.info.uuid);
      var rest := FirstSeen(dt);
      var r := FirstSeen(ds);
      assert ds == [d] + t;
      assert r == [d] + rest;
      FirstSeenKeepsFirstOccurrences(dt);
      forall i | 0 <= i < |r|
        ensures FirstIndex(ds, r[i].info.uuid) < |ds| && ds[FirstIndex(ds, r[i].info.uuid)] == r[i]
      {
        FirstIndexCons(d, t, r[i].info.uuid);
        if i > 0 {
          FirstSeenTailEntry(d, t, i - 1);
        }
      }
      forall i, j | 0 <= i < j < |r|
        ensures FirstIndex(ds, r[i].info.uuid) < FirstIndex(ds, r[j].info.uuid)
      {
        FirstIndexCons(d, t, r[i].info.uuid);
        FirstIndexCons(d, t, r[j].info.uuid);
        assert r[j] == rest[j - 1];
        assert HasUuid(rest, r[j].info.uuid);
        if i > 0 {
          assert r[i] == rest[i - 1];
          assert HasUuid(rest, r[i].info.uuid);
          DropUuidKeepsFirstOrder(t, d.info.uuid, r[i].info.uuid, r[j].info.uuid);
        }
      }
    }
  }

  /** An entry kept from the tail of a stream is the first entry of the tail with its uuid. */
  lemma FirstSeenTailEntry<P>(d: Detail<P>, t: seq<Detail<P>>, i: nat)
    requires i < |FirstSeen(DropUuid(t, d.info.uuid))|
    requires forall i :: 0 <= i < |FirstSeen(DropUuid(t, d.info.uuid))| ==>
      && FirstIndex(DropUuid(t, d.info.uuid), FirstSeen(DropUuid(t, d.info.uuid))[i].info.uuid) < |DropUuid(t, d.info.uuid)|
      && DropUuid(t, d.info.uuid)[FirstIndex(DropUuid(t, d.info.uuid), FirstSeen(DropUuid(t, d.info.uuid))[i].info.uuid)]
         == FirstSeen(DropUuid(t, d.info.uuid))[i]
    ensures var e := FirstSeen(DropUuid(t, d.info.uuid))[i];
      && e.info.uuid != d.info.uuid
      && FirstIndex(t, e.info.uuid) < |t|
      && t[FirstIndex(t, e.info.uuid)] == e
  {
    var dt := DropUuid(t, d.info.uuid);
    var e := FirstSeen(dt)[i];
    assert HasUuid(FirstSeen(dt), e.info.uuid);
    assert HasUuid(dt, e.info.uuid);
    DropUuidKeepsFirstEntry(t, d.info.uuid, e.info.uuid);
  }
}
