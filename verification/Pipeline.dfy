/** The stages put together: from informer notifications to the receiver's store. */
module Pipeline {
  import opened Metadata
  import opened Downstream
  import opened Watcher
  import opened Machine
  import opened Coherence
  import opened Overlap
  import opened Protocol
  import opened RestClient
  import opened Sender

  // ----- What the watcher hands on -----

  function EventOf(e: ResourceEvent): Event {
    if e.kind.Remove? then Delete(e.instance.id) else Upsert(Resource(e.instance))
  }

  ghost function Meaning(es: seq<ResourceEvent>): seq<Event> {
    seq(|es|, i requires 0 <= i < |es| => EventOf(es[i]))
  }

  // ----- The cluster, as the informers report it -----

  datatype Identity = Identity(namespace: string, apiVersion: string, kind: string, name: string)

  function IdentityOf(o: Object): Identity {
    Identity(o.namespace, o.apiVersion, o.kind, o.name)
  }

  function IdOf(x: Identity): string {
    BuildId(if x.namespace == "" then CLUSTER_SCOPE else x.namespace, x.apiVersion, x.kind, x.name)
  }

  /** Names have no slash, and no namespace is called "_cluster". */
  predicate WellNamed(x: Identity) {
    SlashFree(x.namespace) && SlashFree(x.kind) && SlashFree(x.name) && x.namespace != CLUSTER_SCOPE
  }

  lemma IdSeparates(x: Identity, y: Identity)
    requires WellNamed(x) && WellNamed(y) && IdOf(x) == IdOf(y)
    ensures x == y
  {
    var a := Object(x.namespace, x.apiVersion, x.kind, x.name, "", "", NilMap, NilMap);
    var b := Object(y.namespace, y.apiVersion, y.kind, y.name, "", "", NilMap, NilMap);
    assert Extracted(a).id == IdOf(x) && Extracted(b).id == IdOf(y);
    IdIsIdentity(a, b);
  }

  type Cluster = map<Identity, Object>

  /** The object a notification is about, if it is one that the instance pipeline follows. */
  function Subject(n: Notification): Option<Object> {
    match n
    case Added(Unstructured(o)) => if IsCrd(o) then None else Some(o)
    case Updated(Unstructured(_), Unstructured(o)) => if IsCrd(o) then None else Some(o)
    case Deleted(item) =>
      if Unwrapped(item).Unstructured? && !IsCrd(Unwrapped(item).obj) then Some(Unwrapped(item).obj) else None
    case _ => None
  }

  function Notice(n: Notification, c: Cluster): Cluster {
    match Subject(n)
    case None => c
    case Some(o) => if n.Deleted? then c - {IdentityOf(o)} else c[IdentityOf(o) := o]
  }

  function Live(ns: seq<Notification>): Cluster {
    if ns == [] then map[] else Notice(ns[|ns| - 1], Live(ns[..|ns| - 1]))
  }

  function Noted(n: Notification, named: set<Identity>): set<Identity> {
    match Subject(n)
    case None => named
    case Some(o) => named + {IdentityOf(o)}
  }

  function Mentioned(ns: seq<Notification>): set<Identity> {
    if ns == [] then {} else Noted(ns[|ns| - 1], Mentioned(ns[..|ns| - 1]))
  }

  /**
   What informers promise: well-named objects, and a suppressed update that starts from the object last
   reported; and of the cluster, that a suppressed update loses no key the receiver would have seen.
   */
  ghost predicate PlausibleNotification(n: Notification, c: Cluster) {
    match Subject(n)
    case None => true
    case Some(o) =>
      WellNamed(IdentityOf(o)) &&
      (n.Updated? && !Changed(n.before.obj, o) ==>
        && IdentityOf(o) in c && c[IdentityOf(o)] == n.before.obj
        && PlausibleUpdate(n.before.obj, o) && KeepsKeys(n.before.obj, o))
  }

  ghost predicate Plausible(ns: seq<Notification>) {
    ns == [] || (Plausible(ns[..|ns| - 1]) && PlausibleNotification(ns[|ns| - 1], Live(ns[..|ns| - 1])))
  }

  // ----- The store mirrors the cluster -----

  /** The store shows an object as the receiver reads it. */
  ghost predicate Shows(st: Store, x: Identity, o: Object) {
    IdOf(x) in st && st[IdOf(x)].Resource? && Seen(st[IdOf(x)].instance) == Seen(Extracted(o))
  }

  ghost predicate Unnamed(named: set<Identity>, k: string) {
    forall x :: x in named ==> IdOf(x) != k
  }

  /** Live objects are shown. */
  ghost predicate ShowsLive(st: Store, live: Cluster, named: set<Identity>) {
    forall x :: x in live ==> x in named && Shows(st, x, live[x])
  }

  /** Objects that are gone are not there. */
  ghost predicate HidesGone(st: Store, live: Cluster, named: set<Identity>) {
    forall x :: x in named ==> WellNamed(x) && (x !in live ==> IdOf(x) !in st)
  }

  /** Nothing else was touched. */
  ghost predicate SparesOthers(st: Store, named: set<Identity>, init: Store) {
    forall k :: Unnamed(named, k) ==> Lookup(st, k) == Lookup(init, k)
  }

  ghost predicate Mirrors(st: Store, live: Cluster, named: set<Identity>, init: Store) {
    ShowsLive(st, live, named) && HidesGone(st, live, named) && SparesOthers(st, named, init)
  }

  lemma MeaningOne(es: seq<ResourceEvent>, e: ResourceEvent, st: Store)
    ensures Replay(Meaning(es + [e]), st) == ApplyEvent(EventOf(e), Replay(Meaning(es), st))
  {
    assert Meaning(es + [e]) == Meaning(es) + [EventOf(e)];
    ReplayOne(Meaning(es), EventOf(e), st);
  }

  /** The store after one more notification. */
  ghost function Pushed(n: Notification, st: Store): Store {
    match Route(n)
    case ToEvents(e) => ApplyEvent(EventOf(e), st)
    case _ => st
  }

  lemma PushedStep(ns: seq<Notification>, st: Store)
    requires ns != []
    ensures Replay(Meaning(Emitted(ns)), st) == Pushed(ns[|ns| - 1], Replay(Meaning(Emitted(ns[..|ns| - 1])), st))
  {
    var before := Emitted(ns[..|ns| - 1]);
    match Route(ns[|ns| - 1])
    case ToEvents(e) => MeaningOne(before, e, st);
    case ToCrdEvents(_) => assert before + [] == before;
    case Ignored => assert before + [] == before;
  }

  /**
   * A notification changes the store at its subject's identifier only; suppressed updates change nothing that
   * shows.
   */
  lemma PushedSubject(n: Notification, c: Cluster, st: Store, o: Object)
    requires Subject(n) == Some(o) && PlausibleNotification(n, c)
    requires forall x :: x in c ==> Shows(st, x, c[x])
    ensures OnlyAt(st, Pushed(n, st), IdOf(IdentityOf(o)))
    ensures if n.Deleted? then IdOf(IdentityOf(o)) !in Pushed(n, st) else Shows(Pushed(n, st), IdentityOf(o), o)
  {
    assert Extracted(o).id == IdOf(IdentityOf(o));
    if n.Updated? && !Changed(n.before.obj, o) {
      SuppressedExactlyWhen(n.before.obj, o);
    }
  }

  lemma PushedNone(n: Notification, st: Store)
    requires Subject(n) == None
    ensures Pushed(n, st) == st
  {
  }

  /** The two stores differ at one identifier at most. */
  ghost predicate OnlyAt(st: Store, r: Store, id: string) {
    forall k :: k != id ==> Lookup(r, k) == Lookup(st, k)
  }

  lemma OtherNames(st: Store, r: Store, named: set<Identity>, y: Identity)
    requires OnlyAt(st, r, IdOf(y)) && WellNamed(y) && forall x :: x in named ==> WellNamed(x)
    ensures forall x :: x in named && x != y ==> Lookup(r, IdOf(x)) == Lookup(st, IdOf(x))
  {
    forall x | x in named && x != y ensures Lookup(r, IdOf(x)) == Lookup(st, IdOf(x)) {
      if IdOf(x) == IdOf(y) {
        IdSeparates(x, y);
      }
    }
  }

  lemma MirrorsPut(st: Store, r: Store, live: Cluster, named: set<Identity>, y: Identity, o: Object)
    requires ShowsLive(st, live, named) && HidesGone(st, live, named)
    requires OnlyAt(st, r, IdOf(y)) && WellNamed(y) && Shows(r, y, o)
    ensures ShowsLive(r, live[y := o], named + {y}) && HidesGone(r, live[y := o], named + {y})
  {
    OtherNames(st, r, named, y);
  }

  lemma MirrorsCut(st: Store, r: Store, live: Cluster, named: set<Identity>, y: Identity)
    requires ShowsLive(st, live, named) && HidesGone(st, live, named)
    requires OnlyAt(st, r, IdOf(y)) && WellNamed(y) && IdOf(y) !in r
    ensures ShowsLive(r, live - {y}, named + {y}) && HidesGone(r, live - {y}, named + {y})
  {
    OtherNames(st, r, named, y);
  }

  lemma SparesMore(st: Store, r: Store, named: set<Identity>, y: Identity, init: Store)
    requires SparesOthers(st, named, init) && OnlyAt(st, r, IdOf(y))
    ensures SparesOthers(r, named + {y}, init)
  {
    forall k | Unnamed(named + {y}, k) ensures Lookup(r, k) == Lookup(init, k) {
      assert y in named + {y};
      assert Unnamed(named, k);
    }
  }

  lemma MirrorsStep(live: Cluster, named: set<Identity>, n: Notification, st: Store, init: Store)
    requires PlausibleNotification(n, live) && Mirrors(st, live, named, init)
    ensures Mirrors(Pushed(n, st), Notice(n, live), Noted(n, named), init)
  {
    match Subject(n)
    case None => PushedNone(n, st);
    case Some(o) =>
      var y := IdentityOf(o);
      PushedSubject(n, live, st, o);
      SparesMore(st, Pushed(n, st), named, y, init);
      if n.Deleted? {
        MirrorsCut(st, Pushed(n, st), live, named, y);
      } else {
        MirrorsPut(st, Pushed(n, st), live, named, y, o);
      }
  }

  /** Replaying what the watcher emits mirrors the cluster, over any store to begin with. */
  lemma {:induction false} EmittedMirrors(ns: seq<Notification>, init: Store)
    requires Plausible(ns)
    ensures Mirrors(Replay(Meaning(Emitted(ns)), init), Live(ns), Mentioned(ns), init)
  {
    if ns == [] {
      assert Meaning(Emitted(ns)) == [];
    } else {
      var prefix, n := ns[..|ns| - 1], ns[|ns| - 1];
      EmittedMirrors(prefix, init);
      PushedStep(ns, init);
      MirrorsStep(Live(prefix), Mentioned(prefix), n, Replay(Meaning(Emitted(prefix)), init), init);
    }
  }

  // ----- The CRD pipeline -----

  function CrdEventOf(e: CrdEvent): Event {
    if e.kind.Remove? then Delete(e.crdName) else Upsert(Crd(e.crdName))
  }

  ghost function CrdMeaning(es: seq<CrdEvent>): seq<Event> {
    seq(|es|, i requires 0 <= i < |es| => CrdEventOf(es[i]))
  }

  /** The events of the CRD pipeline. */
  ghost function EmittedCrds(ns: seq<Notification>): seq<Event> {
    CrdMeaning(EmittedCrdEvents(ns))
  }

  /**
   * The CRDs that exist, by name, as the notifications tell it: an add or an update shows one, a delete says
   * that it is gone.
   */
  function NoticeCrd(n: Notification, names: set<string>): set<string> {
    match n
    case Added(Unstructured(o)) => if IsCrd(o) then names + {o.name} else names
    case Updated(Unstructured(_), Unstructured(o)) => if IsCrd(o) then names + {o.name} else names
    case Deleted(item) =>
      if Unwrapped(item).Unstructured? && IsCrd(Unwrapped(item).obj) then names - {Unwrapped(item).obj.name} else names
    case _ => names
  }

  function LiveCrds(ns: seq<Notification>): set<string> {
    if ns == [] then {} else NoticeCrd(ns[|ns| - 1], LiveCrds(ns[..|ns| - 1]))
  }

  /** What informers promise of CRDs: an update is of one that was reported and is not gone. */
  predicate UpdatesKnown(ns: seq<Notification>) {
    ns == [] ||
    (UpdatesKnown(ns[..|ns| - 1]) &&
     match ns[|ns| - 1]
     case Updated(Unstructured(_), Unstructured(o)) => IsCrd(o) ==> o.name in LiveCrds(ns[..|ns| - 1])
     case _ => true)
  }

  function NamesAsStore(names: set<string>): Store {
    map name | name in names :: Crd(name)
  }

  ghost function CrdPushed(n: Notification, st: Store): Store {
    match Route(n)
    case ToCrdEvents(e) => ApplyEvent(CrdEventOf(e), st)
    case _ => st
  }

  lemma CrdPushedStep(ns: seq<Notification>, st: Store)
    requires ns != []
    ensures Replay(EmittedCrds(ns), st) == CrdPushed(ns[|ns| - 1], Replay(EmittedCrds(ns[..|ns| - 1]), st))
  {
    var before := EmittedCrdEvents(ns[..|ns| - 1]);
    match Route(ns[|ns| - 1])
    case ToCrdEvents(e) =>
      assert CrdMeaning(before + [e]) == CrdMeaning(before) + [CrdEventOf(e)];
      ReplayOne(CrdMeaning(before), CrdEventOf(e), st);
    case ToEvents(_) => assert before + [] == before;
    case Ignored => assert before + [] == before;
  }

  lemma CrdShown(names: set<string>, name: string)
    ensures ApplyEvent(Upsert(Crd(name)), NamesAsStore(names)) == NamesAsStore(names + {name})
  {
  }

  lemma CrdGone(names: set<string>, name: string)
    ensures ApplyEvent(Delete(name), NamesAsStore(names)) == NamesAsStore(names - {name})
  {
  }

  lemma CrdNoticed(n: Notification, names: set<string>)
    requires match n case Updated(Unstructured(_), Unstructured(o)) => IsCrd(o) ==> o.name in names case _ => true
    ensures CrdPushed(n, NamesAsStore(names)) == NamesAsStore(NoticeCrd(n, names))
  {
    match n
    case Added(Unstructured(o)) => CrdShown(names, o.name);
    case Updated(Unstructured(_), Unstructured(o)) => assert IsCrd(o) ==> names + {o.name} == names;
    case Deleted(item) =>
      if Unwrapped(item).Unstructured? {
        CrdGone(names, Unwrapped(item).obj.name);
      }
    case _ =>
  }

  /** Ignoring CRD updates loses nothing: what is replayed names exactly the CRDs that exist. */
  lemma {:induction false} CrdsMirrored(ns: seq<Notification>)
    requires UpdatesKnown(ns)
    ensures Replay(EmittedCrds(ns), map[]) == NamesAsStore(LiveCrds(ns))
  {
    if ns != [] {
      CrdsMirrored(ns[..|ns| - 1]);
      CrdPushedStep(ns, map[]);
      CrdNoticed(ns[|ns| - 1], LiveCrds(ns[..|ns| - 1]));
    }
  }

  // ----- End to end -----

  /** The run is over: Run has returned, no callback holds a payload, and the sender has taken everything. */
  ghost predicate Drained(s: State) {
    s.run.Returned? && s.flight == map[] && s.chan == []
  }

  lemma DrainedStore(cfg: Config, steps: seq<Step>, init: Store)
    requires Valid(cfg, steps) && Drained(Exec(cfg, steps)) && Exec(cfg, steps).stained == {}
    ensures ApplyAll(Exec(cfg, steps).received, init) == Replay(Exec(cfg, steps).events, init)
  {
    var s := Exec(cfg, steps);
    ChannelProtocol(cfg, steps);
    assert Payloads(s.enqueued) == s.received;
    ShutdownComplete(cfg, steps, init);
  }

  lemma NoStain(cfg: Config, steps: seq<Step>)
    requires Valid(cfg, steps) && Exec(cfg, steps).dropped == [] && forall k :: NoOverlap(cfg, steps, k)
    ensures Exec(cfg, steps).stained == {}
  {
    forall k ensures k !in Exec(cfg, steps).stained {
      UnstainedWhen(cfg, steps, k);
    }
  }

  /** Every payload that the sender received was sent successfully. */
  ghost predicate AllDelivered(sent: seq<Payload>, world: World, posts: seq<nat>, outcomes: seq<Outcome>, budget: int) {
    && Possible(world) && Sent(sent, budget, world, outcomes, posts)
    && (forall i :: 0 <= i < |sent| ==> outcomes[i].Delivered?)
  }

  /**
   * In a drained run without drops or overlap, if every send succeeded, the receiver has what direct replay of
   * the events builds.
   */
  lemma DeliveredStore(cfg: Config, steps: seq<Step>, world: World, posts: seq<nat>, outcomes: seq<Outcome>,
                       budget: int, init: Store)
    requires Valid(cfg, steps) && Drained(Exec(cfg, steps))
    requires Exec(cfg, steps).dropped == [] && forall k :: NoOverlap(cfg, steps, k)
    requires AllDelivered(Exec(cfg, steps).received, world, posts, outcomes, budget)
    ensures ApplyAll(Wire(Exec(cfg, steps).received, world, posts), init) == Replay(Exec(cfg, steps).events, init)
  {
    ExactlyOnce(Exec(cfg, steps).received, world, posts, outcomes, budget, init);
    NoStain(cfg, steps);
    DrainedStore(cfg, steps, init);
  }

  /**
   In a run without drops or overlap whose events are those of the notifications, if every send of
   what the sender received succeeded, the receiver holds exactly the live objects, as it reads them,
   and nothing of those that are gone.
   */
  lemma {:induction false} EndToEnd(cfg: Config, steps: seq<Step>, ns: seq<Notification>, world: World,
                                    posts: seq<nat>, outcomes: seq<Outcome>, budget: int, init: Store)
    requires Valid(cfg, steps) && Drained(Exec(cfg, steps))
    requires Plausible(ns) && Exec(cfg, steps).events == Meaning(Emitted(ns))
    requires Exec(cfg, steps).dropped == [] && forall k :: NoOverlap(cfg, steps, k)
    requires AllDelivered(Exec(cfg, steps).received, world, posts, outcomes, budget)
    ensures Mirrors(ApplyAll(Wire(Exec(cfg, steps).received, world, posts), init), Live(ns), Mentioned(ns), init)
  {
    DeliveredStore(cfg, steps, world, posts, outcomes, budget, init);
    EmittedMirrors(ns, init);
  }

  /** The same for the CRD pipeline: a receiver that started empty names exactly the CRDs that exist. */
  lemma {:induction false} CrdEndToEnd(cfg: Config, steps: seq<Step>, ns: seq<Notification>, world: World,
                                       posts: seq<nat>, outcomes: seq<Outcome>, budget: int)
    requires Valid(cfg, steps) && Drained(Exec(cfg, steps))
    requires UpdatesKnown(ns) && Exec(cfg, steps).events == EmittedCrds(ns)
    requires Exec(cfg, steps).dropped == [] && forall k :: NoOverlap(cfg, steps, k)
    requires AllDelivered(Exec(cfg, steps).received, world, posts, outcomes, budget)
    ensures ApplyAll(Wire(Exec(cfg, steps).received, world, posts), map[]) == NamesAsStore(LiveCrds(ns))
  {
    DeliveredStore(cfg, steps, world, posts, outcomes, budget, map[]);
    CrdsMirrored(ns);
  }

  /** One identity as the receiver should show it: the live object, or nothing once it is gone. */
  ghost predicate MirrorsOne(st: Store, live: Cluster, x: Identity) {
    if x in live then Shows(st, x, live[x]) else IdOf(x) !in st
  }

  /**
   The same for one object alone, whatever drops, overlaps and failed sends the others suffered: if its key
   is undisturbed and at rest, and the payloads that touch it took effect, the receiver mirrors it.
   */
  lemma {:induction false} KeyEndToEnd(cfg: Config, steps: seq<Step>, ns: seq<Notification>, world: World,
                                       posts: seq<nat>, init: Store, x: Identity)
    requires Valid(cfg, steps) && Plausible(ns) && Exec(cfg, steps).events == Meaning(Emitted(ns)) && x in Mentioned(ns)
    requires Undisturbed(cfg, steps, IdOf(x)) && AtRest(Exec(cfg, steps), IdOf(x))
    requires KeyDelivered(Payloads(Exec(cfg, steps).enqueued), world, posts, IdOf(x))
    ensures MirrorsOne(ApplyAll(Wire(Payloads(Exec(cfg, steps).enqueued), world, posts), init), Live(ns), x)
  {
    var s := Exec(cfg, steps);
    StainedExactlyWhen(cfg, steps, IdOf(x));
    CoalescingAgreesWithReplay(cfg, steps, init, IdOf(x));
    WireAtKey(Payloads(s.enqueued), world, posts, init, IdOf(x));
    EmittedMirrors(ns, init);
    ShowsAtKey(Replay(s.events, init), ApplyAll(Wire(Payloads(s.enqueued), world, posts), init), Live(ns),
      Mentioned(ns), x, init);
  }

  lemma ShowsAtKey(st: Store, r: Store, live: Cluster, named: set<Identity>, x: Identity, init: Store)
    requires Mirrors(st, live, named, init) && x in named && Lookup(r, IdOf(x)) == Lookup(st, IdOf(x))
    ensures MirrorsOne(r, live, x)
  {
  }

  // ----- Resync -----

  /** The object listed last under an identifier. */
  function LastListed(items: seq<Object>, k: string): Option<Object> {
    if items == [] then None
    else
      var o := items[|items| - 1];
      if !IsCrd(o) && IdOf(IdentityOf(o)) == k then Some(o) else LastListed(items[..|items| - 1], k)
  }

  /** The object has the identifier, and is not a CRD. */
  predicate NamedBy(o: Object, k: string) {
    !CrdByIdentity(o) && IdOf(IdentityOf(o)) == k
  }

  predicate NoneNamed(items: seq<Object>, from: nat, k: string) {
    forall m: nat :: from <= m < |items| ==> !NamedBy(items[m], k)
  }

  /** The last listed object is one that has the identifier, and none behind it has. */
  lemma {:induction false} LastListedIsLast(items: seq<Object>, k: string) returns (n: nat)
    ensures LastListed(items, k).None? <==> NoneNamed(items, 0, k)
    ensures LastListed(items, k).Some? ==> IsLastNamed(items, n, LastListed(items, k).value, k)
  {
    n := 0;
    if items != [] {
      var last: nat := |items| - 1;
      ListedOneMore(items, k);
      if NamedBy(items[last], k) {
        n := last;
      } else {
        n := LastListedIsLast(items[..last], k);
        NoneNamedBefore(items, 0, k);
        if LastListed(items, k).Some? {
          NoneNamedBefore(items, n + 1, k);
        }
      }
    }
  }

  /** The object at `n` has the identifier, and none behind it has. */
  predicate IsLastNamed(items: seq<Object>, n: nat, o: Object, k: string) {
    n < |items| && items[n] == o && NamedBy(o, k) && NoneNamed(items, n + 1, k)
  }

  lemma ListedOneMore(items: seq<Object>, k: string)
    requires items != []
    ensures var o, before := items[|items| - 1], items[..|items| - 1];
            LastListed(items, k) == if NamedBy(o, k) then Some(o) else LastListed(before, k)
  {
    IsCrdExactlyWhen(items[|items| - 1]);
  }

  lemma NoneNamedBefore(items: seq<Object>, from: nat, k: string)
    requires items != [] && from < |items| && !NamedBy(items[|items| - 1], k)
    ensures NoneNamed(items[..|items| - 1], from, k) <==> NoneNamed(items, from, k)
  {
    var before := items[..|items| - 1];
    assert forall m: nat :: m < |before| ==> before[m] == items[m];
    if NoneNamed(before, from, k) {
      forall m: nat | from <= m < |items| ensures !NamedBy(items[m], k) {
        assert m < |before| ==> !NamedBy(before[m], k);
      }
    }
  }

  /** An identifier was listed exactly when some listing that succeeded has an object of that name. */
  lemma ListedExactlyWhen(lists: seq<Listing>, k: string)
    ensures LastListed(AllItems(lists), k).Some? <==>
            exists i: nat, j: nat ::
              i < |lists| && lists[i].Listed? && j < |lists[i].items| && NamedBy(lists[i].items[j], k)
  {
    var n := LastListedIsLast(AllItems(lists), k);
    if LastListed(AllItems(lists), k).Some? {
      var o := LastListed(AllItems(lists), k).value;
      OnlyListed(lists, o);
    }
    if i: nat, j: nat :| i < |lists| && lists[i].Listed? && j < |lists[i].items| && NamedBy(lists[i].items[j], k) {
      ListedAt(lists, i, j);
      assert NamedBy(AllItems(lists)[Total(lists[..i]) + j], k);
    }
  }

  /** The state of one key after one more listed object. */
  lemma ReplayOneListed(pre: seq<Event>, before: seq<ResourceEvent>, o: Object, st: Store, k: string)
    ensures var was := Lookup(Replay(pre + Meaning(before), st), k);
            Lookup(Replay(pre + Meaning(before + ItemEvents(o)), st), k) ==
            if !IsCrd(o) && IdOf(IdentityOf(o)) == k then Some(Resource(Extracted(o))) else was
  {
    if IsCrd(o) {
      assert before + [] == before;
    } else {
      var e := ResourceEvent(Add, Extracted(o));
      assert pre + Meaning(before + [e]) == (pre + Meaning(before)) + [EventOf(e)];
      ReplayOne(pre + Meaning(before), EventOf(e), st);
    }
  }

  lemma {:induction false} ReplayListed(pre: seq<Event>, items: seq<Object>, st: Store, k: string)
    ensures Lookup(Replay(pre + Meaning(ItemsEvents(items)), st), k) ==
            match LastListed(items, k)
            case Some(o) => Some(Resource(Extracted(o)))
            case None => Lookup(Replay(pre, st), k)
  {
    if items == [] {
      assert pre + Meaning(ItemsEvents(items)) == pre;
    } else {
      var n := |items| - 1;
      ReplayListed(pre, items[..n], st, k);
      ReplayOneListed(pre, ItemsEvents(items[..n]), items[n], st, k);
    }
  }

  lemma HasEventListed(pre: seq<Event>, before: seq<ResourceEvent>, o: Object, k: string)
    ensures HasEvent(pre + Meaning(before + ItemEvents(o)), |pre|, k) <==>
            HasEvent(pre + Meaning(before), |pre|, k) || (!IsCrd(o) && IdOf(IdentityOf(o)) == k)
  {
    if IsCrd(o) {
      assert before + [] == before;
    } else {
      var e := ResourceEvent(Add, Extracted(o));
      assert pre + Meaning(before + [e]) == (pre + Meaning(before)) + [EventOf(e)];
      HasEventOneMore(pre + Meaning(before), EventOf(e), |pre|, k);
    }
  }

  /** A resync has an event for exactly the listed identifiers. */
  lemma {:induction false} ListedHasEvent(pre: seq<Event>, items: seq<Object>, k: string)
    ensures HasEvent(pre + Meaning(ItemsEvents(items)), |pre|, k) <==> LastListed(items, k).Some?
  {
    if items == [] {
      assert pre + Meaning(ItemsEvents(items)) == pre;
    } else {
      var n := |items| - 1;
      ListedHasEvent(pre, items[..n], k);
      HasEventListed(pre, ItemsEvents(items[..n]), items[n], k);
    }
  }

  /** From step `m` on, the events handled were those of a resync. */
  ghost predicate Resynced(cfg: Config, steps: seq<Step>, m: nat, lists: seq<Listing>) {
    && m <= |steps|
    && Exec(cfg, steps).events == Exec(cfg, steps[..m]).events + Meaning(ItemsEvents(AllItems(lists)))
  }

  lemma ResyncHandles(cfg: Config, steps: seq<Step>, m: nat, lists: seq<Listing>, k: string)
    requires Valid(cfg, steps) && Resynced(cfg, steps, m, lists)
    ensures LastListed(AllItems(lists), k).Some? <==> HandledSince(steps, m, k)
  {
    EventsOf(cfg, steps, m, k);
    ListedHasEvent(Exec(cfg, steps[..m]).events, AllItems(lists), k);
  }

  /**
   * For a key that is not stained and at rest, the payloads say what the resync listed, or else what the
   * earlier events say.
   */
  lemma {:induction false} ResyncReplays(cfg: Config, steps: seq<Step>, m: nat, lists: seq<Listing>,
                                         init: Store, k: string)
    requires Valid(cfg, steps) && Resynced(cfg, steps, m, lists) && k !in Exec(cfg, steps).stained
    requires AtRest(Exec(cfg, steps), k)
    ensures Lookup(Built(Exec(cfg, steps), init), k) ==
            match LastListed(AllItems(lists), k)
            case Some(o) => Some(Resource(Extracted(o)))
            case None => Lookup(Replay(Exec(cfg, steps[..m]).events, init), k)
  {
    CoalescingAgreesWithReplay(cfg, steps, init, k);
    ReplayListed(Exec(cfg, steps[..m]).events, AllItems(lists), init, k);
  }

  lemma LastHandled(steps: seq<Step>, m: nat, k: string) returns (n: nat)
    requires HandledSince(steps, m, k)
    ensures m <= n < |steps| && HandlesKey(steps[n], k) && forall i :: n < i < |steps| ==> !HandlesKey(steps[i], k)
  {
    n := |steps| - 1;
    while !HandlesKey(steps[n], k)
      invariant m <= n < |steps| && forall i :: n < i < |steps| ==> !HandlesKey(steps[i], k)
      decreases n
    {
      var i :| m <= i < |steps| && HandlesKey(steps[i], k);
      n := n - 1;
    }
  }

  function EventHandled(step: Step): Event
    requires Handles(step)
  {
    if step.HandleUpsert? then Upsert(step.change) else Delete(step.id)
  }

  /** The last event of a key in a clean stretch is what the payloads since any position before the stretch leave. */
  lemma LastOfStretchBuilds(cfg: Config, steps: seq<Step>, m: nat, n: nat, from: nat, st: Store, k: string)
    requires Valid(cfg, steps) && m <= n < |steps| && CleanFrom(cfg, steps, m, k) && HandlesKey(steps[n], k)
    requires forall i :: n < i < |steps| ==> !HandlesKey(steps[i], k)
    requires AtRest(Exec(cfg, steps), k) && from <= |Exec(cfg, steps[..m]).enqueued|
    ensures Lookup(BuiltFrom(Exec(cfg, steps), from, st), k) == LeftBy(EventHandled(steps[n]))
  {
    ValidPrefix(cfg, steps, n);
    assert steps[..n][..m] == steps[..m];
    DroppedPrefix(cfg, steps[..n], m);
    EnqueuedSince(cfg, steps, m, n);
    assert forall h :: !Carries(Exec(cfg, steps[..n]).flight, h, k);
    LastEventBuilds(cfg, steps, n, EventHandled(steps[n]), from, st);
  }

  /**
   * A key handled in a clean stretch and now at rest: over any store, the payloads of that stretch say what
   * its last event says.
   */
  lemma CleanStretchBuilds(cfg: Config, steps: seq<Step>, m: nat, st: Store, k: string)
    requires Valid(cfg, steps) && m <= |steps| && CleanFrom(cfg, steps, m, k) && HandledSince(steps, m, k)
    requires AtRest(Exec(cfg, steps), k)
    ensures Lookup(BuiltFrom(Exec(cfg, steps), |Exec(cfg, steps[..m]).enqueued|, st), k) ==
            Lookup(Replay(Exec(cfg, steps).events, map[]), k)
  {
    var n := LastHandled(steps, m, k);
    CleanSince(cfg, steps, m, n, k);
    CoalescingAgreesWithReplay(cfg, steps, map[], k);
    LastOfStretchBuilds(cfg, steps, m, n, |Exec(cfg, steps[..m]).enqueued|, st, k);
    LastOfStretchBuilds(cfg, steps, m, n, 0, map[], k);
    BuiltFromEnds(Exec(cfg, steps), map[]);
  }

  /**
   What a resync repairs. Whatever happened before step `m`, in the buffer or to earlier payloads, and
   whatever store the receiver has come to: if from step `m` on the events handled were those of a
   resync, no event of the key overlapped a payload for it and no payload for it was dropped since, and
   the key has come to rest, then once the payloads enqueued since that touch the key have taken effect,
   other sends failing or not, a listed key has its last listed state. A key that was not listed, and was
   at rest when the resync came, keeps what the receiver had.
   */
  lemma {:induction false} ResyncRepairs(cfg: Config, steps: seq<Step>, m: nat, lists: seq<Listing>,
                                         world: World, posts: seq<nat>, st: Store, k: string)
    requires Valid(cfg, steps) && Resynced(cfg, steps, m, lists) && CleanFrom(cfg, steps, m, k)
    requires AtRest(Exec(cfg, steps), k)
    requires KeyDelivered(Later(Exec(cfg, steps), |Exec(cfg, steps[..m]).enqueued|), world, posts, k)
    ensures var sent := Later(Exec(cfg, steps), |Exec(cfg, steps[..m]).enqueued|);
            var now := Lookup(ApplyAll(Wire(sent, world, posts), st), k);
            match LastListed(AllItems(lists), k)
            case Some(o) => now == Some(Resource(Extracted(o)))
            case None => AtRest(Exec(cfg, steps[..m]), k) ==> now == Lookup(st, k)
  {
    var s, from := Exec(cfg, steps), |Exec(cfg, steps[..m]).enqueued|;
    ResyncHandles(cfg, steps, m, lists, k);
    WireAtKey(Later(s, from), world, posts, st, k);
    if LastListed(AllItems(lists), k).Some? {
      CleanStretchBuilds(cfg, steps, m, st, k);
      ReplayListed(Exec(cfg, steps[..m]).events, AllItems(lists), map[], k);
    } else if AtRest(Exec(cfg, steps[..m]), k) {
      RestKept(cfg, steps, m, st, k);
    }
  }
}
