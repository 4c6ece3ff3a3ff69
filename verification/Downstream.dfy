/**
 The payloads that leave a debounce buffer and the store they maintain: the downstream service
 is a map from identifier to the last upserted change, overlaid by upserts and cut by deletes.
 */
module Downstream {
  import opened Metadata

  datatype Option<+T> = None | Some(value: T)

  /** What a buffer debounces: an instance, keyed by its identifier, or a CRD, keyed by its name. */
  datatype Change = Resource(instance: ResourceInstance) | Crd(crdName: string) {
    function Key(): string {
      match this
      case Resource(r) => r.id
      case Crd(name) => name
    }
  }

  /** An ADD or UPDATE, which a buffer treats alike, or a DELETE. */
  datatype Event = Upsert(change: Change) | Delete(id: string) {
    function Key(): string {
      match this
      case Upsert(c) => c.Key()
      case Delete(k) => k
    }
  }

  datatype Payload = Payload(upserts: seq<Change>, deletes: seq<string>) {
    predicate IsEmpty() {
      |upserts| == 0 && |deletes| == 0
    }
  }

  type Store = map<string, Change>

  function Lookup(st: Store, k: string): Option<Change> {
    if k in st then Some(st[k]) else None
  }

  // ----- Direct replay: what the store would be if every event were applied at once -----

  function ApplyEvent(e: Event, st: Store): Store {
    match e
    case Upsert(c) => st[c.Key() := c]
    case Delete(k) => st - {k}
  }

  function Replay(events: seq<Event>, st: Store): Store {
    if events == [] then st
    else ApplyEvent(events[|events| - 1], Replay(events[..|events| - 1], st))
  }

  lemma ReplayOne(events: seq<Event>, e: Event, st: Store)
    ensures Replay(events + [e], st) == ApplyEvent(e, Replay(events, st))
  {
    assert (events + [e])[..|events|] == events;
  }

  /** Position of the last event for a key, or -1. */
  function LastIndex(events: seq<Event>, k: string): (i: int)
    ensures -1 <= i < |events|
    ensures 0 <= i ==> events[i].Key() == k
    ensures forall j :: i < j < |events| ==> events[j].Key() != k
  {
    if events == [] then -1
    else if events[|events| - 1].Key() == k then |events| - 1
    else LastIndex(events[..|events| - 1], k)
  }

  /** What an event leaves at its key. */
  function LeftBy(e: Event): Option<Change> {
    match e
    case Upsert(c) => Some(c)
    case Delete(_) => None
  }

  /** Replay keeps, for each key, exactly the outcome of its last event, and leaves other keys alone. */
  lemma {:induction false} ReplayIsLastEvent(events: seq<Event>, st: Store, k: string)
    ensures Lookup(Replay(events, st), k) ==
            var i := LastIndex(events, k); if i < 0 then Lookup(st, k) else LeftBy(events[i])
  {
    if events != [] {
      ReplayIsLastEvent(events[..|events| - 1], st, k);
    }
  }

  // ----- Applying payloads -----

  function ApplyUpserts(us: seq<Change>, st: Store): Store {
    if us == [] then st
    else ApplyUpserts(us[..|us| - 1], st)[us[|us| - 1].Key() := us[|us| - 1]]
  }

  function ApplyDeletes(ds: seq<string>, st: Store): Store {
    if ds == [] then st
    else ApplyDeletes(ds[..|ds| - 1], st) - {ds[|ds| - 1]}
  }

  /** The downstream service handles the deletes of a payload before its upserts. */
  function Apply(p: Payload, st: Store): Store {
    ApplyUpserts(p.upserts, ApplyDeletes(p.deletes, st))
  }

  function ApplyAll(ps: seq<Payload>, st: Store): Store {
    if ps == [] then st
    else Apply(ps[|ps| - 1], ApplyAll(ps[..|ps| - 1], st))
  }

  lemma ApplyAllOne(ps: seq<Payload>, p: Payload, st: Store)
    ensures ApplyAll(ps + [p], st) == Apply(p, ApplyAll(ps, st))
  {
    assert (ps + [p])[..|ps|] == ps;
  }

  function AsMap(us: seq<Change>): Store {
    ApplyUpserts(us, map[])
  }

  function Touches(p: Payload): set<string> {
    AsMap(p.upserts).Keys + (set d | d in p.deletes)
  }

  lemma {:induction false} UpsertsOverlay(us: seq<Change>, st: Store)
    ensures ApplyUpserts(us, st) == st + AsMap(us)
  {
    if us != [] {
      UpsertsOverlay(us[..|us| - 1], st);
    }
  }

  lemma {:induction false} DeletesCut(ds: seq<string>, st: Store)
    ensures ApplyDeletes(ds, st) == st - (set d | d in ds)
  {
    if ds != [] {
      var n := |ds| - 1;
      DeletesCut(ds[..n], st);
      assert ds == ds[..n] + [ds[n]];
      assert (set d | d in ds) == (set d | d in ds[..n]) + {ds[n]};
    }
  }

  /** A payload as one update of the store. */
  lemma ApplyIsOverlay(p: Payload, st: Store)
    ensures Apply(p, st) == (st - (set d | d in p.deletes)) + AsMap(p.upserts)
  {
    DeletesCut(p.deletes, st);
    UpsertsOverlay(p.upserts, ApplyDeletes(p.deletes, st));
  }

  /** The value a payload leaves at a key it touches. */
  function Effect(p: Payload, k: string): Option<Change> {
    Lookup(AsMap(p.upserts), k)
  }

  lemma ApplyAtKey(p: Payload, st: Store, k: string)
    ensures Lookup(Apply(p, st), k) == if k in Touches(p) then Effect(p, k) else Lookup(st, k)
  {
    ApplyIsOverlay(p, st);
  }

  /** Sending a payload again changes nothing. */
  lemma ApplyIdempotent(p: Payload, st: Store)
    ensures Apply(p, Apply(p, st)) == Apply(p, st)
  {
    ApplyIsOverlay(p, st);
    ApplyIsOverlay(p, Apply(p, st));
  }

  /** Two stores that agree at every key are the same store. */
  lemma StoresAgree(a: Store, b: Store)
    requires forall k :: Lookup(a, k) == Lookup(b, k)
    ensures a == b
  {
    forall k ensures (k in a <==> k in b) && (k in a ==> a[k] == b[k]) {
      assert Lookup(a, k) == Lookup(b, k);
    }
  }
}
