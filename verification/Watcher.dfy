/**
 * From informer notifications to events: update suppression, routing of CRDs, and resync
 * (internal/controller/watcher.go).
 */
module Watcher {
  import opened Metadata
  import opened Downstream
  import opened Sequences
  import opened Channels
  import opened Sets

  datatype EventType = Add | Update | Remove

  datatype ResourceEvent = ResourceEvent(kind: EventType, instance: ResourceInstance)

  datatype CrdEvent = CrdEvent(kind: EventType, crdName: string)

  // ----- Change detection -----

  const CRD_GROUP := "apiextensions.k8s.io/"

  predicate IsCrd(o: Object) {
    o.kind == "CustomResourceDefinition" && CRD_GROUP <= o.apiVersion
  }

  /** A CRD by its kind and its API group, whatever the version. */
  predicate CrdByIdentity(o: Object) {
    && o.kind == "CustomResourceDefinition"
    && '/' in o.apiVersion && ExtractApiGroup(o.apiVersion) == "apiextensions.k8s.io"
  }

  lemma IsCrdExactlyWhen(o: Object)
    ensures IsCrd(o) <==> CrdByIdentity(o)
  {
    var group := "apiextensions.k8s.io";
    assert CRD_GROUP == group + "/" && SlashFree(group);
    if CRD_GROUP <= o.apiVersion {
      assert o.apiVersion == group + "/" + o.apiVersion[|CRD_GROUP|..];
      FirstSlashAt(group, o.apiVersion[|CRD_GROUP|..]);
    }
  }

  /** Reading a Go map: a missing key reads as the empty string. */
  function Get(m: map<string, string>, k: string): string {
    if k in m then m[k] else ""
  }

  /** What mapsEqual tests. */
  ghost predicate LooksEqual(a: map<string, string>, b: map<string, string>) {
    |a| == |b| && forall k :: k in a ==> Get(b, k) == a[k]
  }

  method MapsEqual(a: map<string, string>, b: map<string, string>) returns (equal: bool)
    ensures equal <==> LooksEqual(a, b)
  {
    if |a| != |b| {
      return false;
    }
    var todo := a.Keys;
    while todo != {}
      invariant todo <= a.Keys
      invariant forall k :: k in a && k !in todo ==> Get(b, k) == a[k]
      decreases todo
    {
      var k :| k in todo;
      todo := todo - {k};
      if Get(b, k) != a[k] {
        return false;
      }
    }
    return true;
  }

  predicate NoEmptyValue(m: map<string, string>) {
    forall k :: k in m ==> m[k] != ""
  }

  /**
   * Where the first map has no empty value, the test is equality: all its keys are in the other, which has no
   * room for more.
   */
  lemma LooksEqualIsEqual(a: map<string, string>, b: map<string, string>)
    requires NoEmptyValue(a)
    ensures LooksEqual(a, b) <==> a == b
  {
    if LooksEqual(a, b) {
      forall k | k in a ensures k in b && b[k] == a[k] {
        assert Get(b, k) == a[k];
      }
      assert |a.Keys| == |b.Keys|;
      SameSize(a.Keys, b.Keys);
    }
  }

  lemma FreshKey(keys: set<string>) returns (k: string)
    ensures k !in keys && forall i :: 0 <= i < |k| ==> k[i] == 'x'
  {
    var n := LongerThanAll(keys);
    k := seq(n, _ => 'x');
    assert |k| == n;
  }

  lemma LongerThanAll(keys: set<string>) returns (n: nat)
    ensures forall k :: k in keys ==> |k| < n
  {
    if keys == {} {
      n := 0;
    } else {
      var k :| k in keys;
      n := LongerThanAll(keys - {k});
      n := if |k| < n then n else |k| + 1;
    }
  }

  /** A map with an empty value looks equal to one that lacks the key and has another instead. */
  lemma EmptyValueHides(a: map<string, string>) returns (b: map<string, string>, k: string)
    requires !NoEmptyValue(a)
    ensures LooksEqual(a, b) && k !in a && k in b && b[k] == "y" && !SkipsAnnotation(k)
  {
    var gone :| gone in a && a[gone] == "";
    k := FreshKey(a.Keys);
    b := (a - {gone})[k := "y"];
    assert b.Keys == (a.Keys - {gone}) + {k};
    assert |a.Keys| == |b.Keys|;
    forall i | 0 <= i < |SKIP_ANNOTATION_PREFIXES| ensures !(SKIP_ANNOTATION_PREFIXES[i] <= k) {
      assert SKIP_ANNOTATION_PREFIXES[i][0] != 'x';
    }
  }

  /** mapsEqual decides equality with the first map exactly when that map has no empty value. */
  lemma MapsEqualExactlyWhen(a: map<string, string>)
    ensures (forall b :: LooksEqual(a, b) <==> a == b) <==> NoEmptyValue(a)
  {
    if NoEmptyValue(a) {
      forall b ensures LooksEqual(a, b) <==> a == b {
        LooksEqualIsEqual(a, b);
      }
    } else {
      var b, k := EmptyValueHides(a);
      assert LooksEqual(a, b) && a != b;
    }
  }

  ghost predicate Changed(before: Object, after: Object) {
    && before.resourceVersion != after.resourceVersion
    && (!LooksEqual(before.labels.Entries(), after.labels.Entries())
        || !LooksEqual(before.annotations.Entries(), after.annotations.Entries()))
  }

  method MetadataChanged(before: Object, after: Object) returns (changed: bool)
    ensures changed <==> Changed(before, after)
  {
    if before.resourceVersion == after.resourceVersion {
      return false;
    }
    var same := MapsEqual(before.labels.Entries(), after.labels.Entries());
    if !same {
      return true;
    }
    same := MapsEqual(before.annotations.Entries(), after.annotations.Entries());
    if !same {
      return true;
    }
    return false;
  }

  /** An update that changes no label and no annotation is never reported, whatever else it changes. */
  lemma SameMetadataSuppressed(before: Object, after: Object)
    requires before.labels.Entries() == after.labels.Entries()
    requires before.annotations.Entries() == after.annotations.Entries()
    ensures Route(Updated(Unstructured(before), Unstructured(after))).Ignored?
  {
  }

  /** A value that changes, and is not empty, is reported, unless the resource version says that nothing did. */
  lemma ChangedValueReported(before: Object, after: Object, k: string)
    requires before.resourceVersion != after.resourceVersion && !IsCrd(after)
    requires
      || (k in before.labels.Entries() && before.labels.Entries()[k] != Get(after.labels.Entries(), k))
      || (k in before.annotations.Entries() && before.annotations.Entries()[k] != Get(after.annotations.Entries(), k))
    ensures Route(Updated(Unstructured(before), Unstructured(after))) ==
            ToEvents(ResourceEvent(Update, Extracted(after)))
  {
  }

  /** An instance as the receiver reads it: null and {} are the same. */
  function Seen(r: ResourceInstance): ResourceInstance {
    r.(labels := Allocated(r.labels.Entries()), annotations := Allocated(r.annotations.Entries()))
  }

  /** What an update keeps, and what equal resource versions mean. */
  predicate PlausibleUpdate(before: Object, after: Object) {
    && SameIdentity(before, after) && before.createdAt == after.createdAt
    && (before.resourceVersion == after.resourceVersion ==> before == after)
  }

  predicate NoEmptyMetadata(o: Object) {
    NoEmptyValue(o.labels.Entries()) && NoEmptyValue(o.annotations.Entries())
  }

  lemma KeptEntries(a: GoMap, b: GoMap)
    requires a.Entries() == b.Entries()
    ensures KeptAnnotations(a) == KeptAnnotations(b)
  {
  }

  /**
   A suppressed update of an object without empty values changes nothing that the receiver reads; the
   instances are the same but for labels that are nil in one and empty in the other.
   */
  lemma SuppressedIsInvisible(before: Object, after: Object)
    requires PlausibleUpdate(before, after) && !Changed(before, after) && NoEmptyMetadata(before)
    ensures Seen(Extracted(before)) == Seen(Extracted(after))
    ensures Extracted(before) == Extracted(after) <==> before.labels.NilMap? == after.labels.NilMap?
  {
    if before.resourceVersion != after.resourceVersion {
      LooksEqualIsEqual(before.labels.Entries(), after.labels.Entries());
      LooksEqualIsEqual(before.annotations.Entries(), after.annotations.Entries());
      KeptEntries(before.annotations, after.annotations);
    }
  }

  /** For two maps that look equal, only a key that stood for an empty value can tell them apart. */
  lemma LooksEqualExactlyWhen(a: map<string, string>, b: map<string, string>)
    requires LooksEqual(a, b)
    ensures a == b <==> forall k :: k in a && a[k] == "" ==> k in b
  {
    if forall k :: k in a && a[k] == "" ==> k in b {
      forall k | k in a ensures k in b && b[k] == a[k] {
        assert Get(b, k) == a[k];
      }
      assert |a.Keys| == |b.Keys|;
      SameSize(a.Keys, b.Keys);
    }
  }

  /** No key appears or disappears that the receiver would see. */
  predicate KeepsKeys(before: Object, after: Object) {
    && before.labels.Entries().Keys == after.labels.Entries().Keys
    && (forall k :: k in before.annotations.Entries().Keys + after.annotations.Entries().Keys && !SkipsAnnotation(k) ==>
          k in before.annotations.Entries() && k in after.annotations.Entries())
  }

  lemma KeptAgree(a: GoMap, b: GoMap)
    requires LooksEqual(a.Entries(), b.Entries())
    ensures KeptAnnotations(a).Entries() == KeptAnnotations(b).Entries() <==>
            forall k :: k in a.Entries().Keys + b.Entries().Keys && !SkipsAnnotation(k) ==>
              k in a.Entries() && k in b.Entries()
  {
    forall k | !SkipsAnnotation(k)
      ensures k in KeptAnnotations(a).Entries() <==> k in a.Entries()
      ensures k in KeptAnnotations(b).Entries() <==> k in b.Entries()
    {
      KeptHas(a, k);
      KeptHas(b, k);
    }
    assert forall k :: k in a.Entries() && k in b.Entries() ==> Get(b.Entries(), k) == a.Entries()[k] == b.Entries()[k];
  }

  /** A suppressed update is invisible to the receiver exactly when it keeps the keys the receiver sees. */
  lemma SuppressedExactlyWhen(before: Object, after: Object)
    requires PlausibleUpdate(before, after) && !Changed(before, after)
    ensures Seen(Extracted(before)) == Seen(Extracted(after)) <==> KeepsKeys(before, after)
  {
    if before.resourceVersion != after.resourceVersion {
      var a, b := before.labels.Entries(), after.labels.Entries();
      assert a.Keys == b.Keys ==> forall k :: k in a ==> Get(b, k) == a[k] == b[k];
      assert a == b <==> a.Keys == b.Keys;
      KeptAgree(before.annotations, after.annotations);
    }
  }

  /** Which it does if every key with an empty value is still there. */
  lemma EmptyKeysKept(before: Object, after: Object)
    requires PlausibleUpdate(before, after) && !Changed(before, after)
    requires forall k :: k in before.labels.Entries() && before.labels.Entries()[k] == "" ==>
             k in after.labels.Entries()
    requires forall k :: k in before.annotations.Entries() && before.annotations.Entries()[k] == "" ==>
             k in after.annotations.Entries()
    ensures KeepsKeys(before, after)
  {
    if before.resourceVersion != after.resourceVersion {
      LooksEqualExactlyWhen(before.labels.Entries(), after.labels.Entries());
      LooksEqualExactlyWhen(before.annotations.Entries(), after.annotations.Entries());
    }
  }

  lemma KeptHas(a: GoMap, k: string)
    requires !SkipsAnnotation(k)
    ensures k in KeptAnnotations(a).Entries() <==> k in a.Entries()
  {
  }

  lemma VisibleDifference(before: Object) returns (after: Object)
    requires !NoEmptyMetadata(before)
    ensures PlausibleUpdate(before, after) && !Changed(before, after)
    ensures Seen(Extracted(before)) != Seen(Extracted(after))
  {
    after := before.(resourceVersion := before.resourceVersion + "'");
    assert |after.resourceVersion| != |before.resourceVersion|;
    if !NoEmptyValue(before.labels.Entries()) {
      var m, k := EmptyValueHides(before.labels.Entries());
      after := after.(labels := Allocated(m));
      assert k in Seen(Extracted(after)).labels.entries && k !in Seen(Extracted(before)).labels.entries;
    } else {
      var m, k := EmptyValueHides(before.annotations.Entries());
      after := after.(annotations := Allocated(m));
      KeptHas(after.annotations, k);
      KeptHas(before.annotations, k);
      assert k in Seen(Extracted(after)).annotations.entries && k !in Seen(Extracted(before)).annotations.entries;
    }
  }

  /** Exactly the objects without empty label or annotation values have all their suppressed updates invisible. */
  lemma SuppressionExactlyWhen(before: Object)
    ensures (forall after :: PlausibleUpdate(before, after) && !Changed(before, after) ==>
               Seen(Extracted(after)) == Seen(Extracted(before))) <==> NoEmptyMetadata(before)
  {
    if NoEmptyMetadata(before) {
      forall after | PlausibleUpdate(before, after) && !Changed(before, after)
        ensures Seen(Extracted(after)) == Seen(Extracted(before))
      {
        SuppressedIsInvisible(before, after);
      }
    } else {
      var after := VisibleDifference(before);
    }
  }

  // ----- Routing -----

  /** What an informer hands to a callback. */
  datatype Item = Unstructured(obj: Object) | Tombstone(last: Item) | NotAnObject

  datatype Notification = Added(item: Item) | Updated(before: Item, after: Item) | Deleted(item: Item)

  datatype Routed = ToEvents(event: ResourceEvent) | ToCrdEvents(crdEvent: CrdEvent) | Ignored

  /** A delete may come wrapped once; anything else that is not an object is ignored. */
  function Unwrapped(item: Item): Item {
    if item.Tombstone? then item.last else item
  }

  ghost function RouteObject(kind: EventType, o: Object): Routed {
    if IsCrd(o) then ToCrdEvents(CrdEvent(kind, o.name)) else ToEvents(ResourceEvent(kind, Extracted(o)))
  }

  /** The event a notification becomes, if any. CRD updates and invisible updates become none. */
  ghost function Route(n: Notification): Routed {
    match n
    case Added(Unstructured(o)) => RouteObject(Add, o)
    case Updated(Unstructured(before), Unstructured(after)) =>
      if IsCrd(after) || !Changed(before, after) then Ignored else ToEvents(ResourceEvent(Update, Extracted(after)))
    case Deleted(item) =>
      if Unwrapped(item).Unstructured? then RouteObject(Remove, Unwrapped(item).obj) else Ignored
    case _ => Ignored
  }

  /**
   Where an object that comes or goes is reported: a CRD by its name on one channel, anything else as an
   instance on the other. The object in a tombstone goes like one that was seen to go.
   */
  lemma RoutedByIdentity(o: Object)
    ensures CrdByIdentity(o) ==>
              && RoutedCrdEvents(Added(Unstructured(o))) == [CrdEvent(Add, o.name)]
              && RoutedCrdEvents(Deleted(Unstructured(o))) == [CrdEvent(Remove, o.name)]
              && RoutedCrdEvents(Deleted(Tombstone(Unstructured(o)))) == [CrdEvent(Remove, o.name)]
              && RoutedEvents(Added(Unstructured(o))) == [] && RoutedEvents(Deleted(Unstructured(o))) == []
              && RoutedEvents(Deleted(Tombstone(Unstructured(o)))) == []
    ensures !CrdByIdentity(o) ==>
              && RoutedEvents(Added(Unstructured(o))) == [ResourceEvent(Add, Extracted(o))]
              && RoutedEvents(Deleted(Unstructured(o))) == [ResourceEvent(Remove, Extracted(o))]
              && RoutedEvents(Deleted(Tombstone(Unstructured(o)))) == [ResourceEvent(Remove, Extracted(o))]
              && RoutedCrdEvents(Added(Unstructured(o))) == [] && RoutedCrdEvents(Deleted(Unstructured(o))) == []
              && RoutedCrdEvents(Deleted(Tombstone(Unstructured(o)))) == []
  {
    IsCrdExactlyWhen(o);
  }

  /** CRD updates are ignored, and so is whatever is not an object, or a tombstone of one. */
  lemma IgnoredNotices(before: Item, o: Object, item: Item)
    ensures CrdByIdentity(o) ==> Route(Updated(before, Unstructured(o))).Ignored?
    ensures !item.Unstructured? ==>
              && Route(Added(item)).Ignored? && Route(Updated(before, item)).Ignored?
              && Route(Updated(item, Unstructured(o))).Ignored? && Route(Deleted(Tombstone(item))).Ignored?
  {
    IsCrdExactlyWhen(o);
  }

  /** What a notification sends on the events channel. */
  ghost function RoutedEvents(n: Notification): seq<ResourceEvent> {
    match Route(n)
    case ToEvents(e) => [e]
    case _ => []
  }

  ghost function RoutedCrdEvents(n: Notification): seq<CrdEvent> {
    match Route(n)
    case ToCrdEvents(e) => [e]
    case _ => []
  }

  /** What a sequence of notifications sends. */
  ghost function Emitted(ns: seq<Notification>): seq<ResourceEvent> {
    if ns == [] then [] else Emitted(ns[..|ns| - 1]) + RoutedEvents(ns[|ns| - 1])
  }

  ghost function EmittedCrdEvents(ns: seq<Notification>): seq<CrdEvent> {
    if ns == [] then [] else EmittedCrdEvents(ns[..|ns| - 1]) + RoutedCrdEvents(ns[|ns| - 1])
  }

  const EVENTS_CAPACITY: nat := 10000
  const CRD_EVENTS_CAPACITY: nat := 1000

  /** One listing of a resync: the items of a resource type, or an error. */
  datatype Listing = Failed | Listed(items: seq<Object>)

  /** The ADD of a listed object, on the channel it belongs to. */
  ghost function ItemEvents(o: Object): seq<ResourceEvent> {
    if IsCrd(o) then [] else [ResourceEvent(Add, Extracted(o))]
  }

  ghost function ItemCrdEvents(o: Object): seq<CrdEvent> {
    if IsCrd(o) then [CrdEvent(Add, o.name)] else []
  }

  ghost function ItemsEvents(items: seq<Object>): seq<ResourceEvent> {
    if items == [] then [] else ItemsEvents(items[..|items| - 1]) + ItemEvents(items[|items| - 1])
  }

  function Items(l: Listing): seq<Object> {
    if l.Failed? then [] else l.items
  }

  /** Everything listed, in the order it was listed. */
  function AllItems(lists: seq<Listing>): seq<Object> {
    if lists == [] then [] else AllItems(lists[..|lists| - 1]) + Items(lists[|lists| - 1])
  }

  lemma {:induction false} AllItemsJoined(a: seq<Listing>, b: seq<Listing>)
    ensures AllItems(a + b) == AllItems(a) + AllItems(b)
  {
    if b == [] {
      assert a + b == a;
      assert AllItems(a) + [] == AllItems(a);
    } else {
      var n := |b| - 1;
      assert (a + b)[..|a + b| - 1] == a + b[..n];
      AllItemsJoined(a, b[..n]);
      assert AllItems(a) + (AllItems(b[..n]) + Items(b[n])) == AllItems(a) + AllItems(b[..n]) + Items(b[n]);
    }
  }

  lemma AllItemsOne(l: Listing)
    ensures AllItems([l]) == match l case Failed => [] case Listed(items) => items
  {
    assert [l][..0] == [];
    assert [] + Items(l) == Items(l);
  }

  /** How many objects the listings that succeeded have. */
  function Total(lists: seq<Listing>): nat {
    if lists == [] then 0 else (if lists[0].Listed? then |lists[0].items| else 0) + Total(lists[1..])
  }

  lemma {:induction false} AllItemsCounted(lists: seq<Listing>)
    ensures |AllItems(lists)| == Total(lists)
  {
    if lists != [] {
      assert lists == [lists[0]] + lists[1..];
      AllItemsJoined([lists[0]], lists[1..]);
      AllItemsOne(lists[0]);
      AllItemsCounted(lists[1..]);
    }
  }

  /** An object of a listing that succeeded has its place behind those of the listings before it. */
  ghost predicate HoldsAt(lists: seq<Listing>, items: seq<Object>, i: nat, j: nat) {
    i < |lists| && lists[i].Listed? && j < |lists[i].items| ==>
      var at := Total(lists[..i]) + j; at < |items| && items[at] == lists[i].items[j]
  }

  /** The items are those of every listing that succeeded, one listing after another, and no others. */
  ghost predicate HoldsEvery(lists: seq<Listing>, items: seq<Object>) {
    |items| == Total(lists) && forall i: nat, j: nat :: HoldsAt(lists, items, i, j)
  }

  lemma ListedAt(lists: seq<Listing>, i: nat, j: nat)
    ensures HoldsAt(lists, AllItems(lists), i, j)
  {
    if i < |lists| && lists[i].Listed? && j < |lists[i].items| {
      ListedBetween(lists, i);
      AllItemsCounted(lists[..i]);
      InTheMiddle(AllItems(lists[..i]), lists[i].items, AllItems(lists[i + 1..]), j);
    }
  }

  lemma ListedBetween(lists: seq<Listing>, i: nat)
    requires i < |lists| && lists[i].Listed?
    ensures AllItems(lists) == AllItems(lists[..i]) + lists[i].items + AllItems(lists[i + 1..])
  {
    var before, at, after := lists[..i], [lists[i]], lists[i + 1..];
    CutOut(lists, i);
    AllItemsJoined(before, at + after);
    AllItemsJoined(at, after);
    AllItemsOne(lists[i]);
    Associated(AllItems(before), lists[i].items, AllItems(after));
  }

  lemma AllItemsHoldEvery(lists: seq<Listing>)
    ensures HoldsEvery(lists, AllItems(lists))
  {
    AllItemsCounted(lists);
    forall i: nat, j: nat ensures HoldsAt(lists, AllItems(lists), i, j) {
      ListedAt(lists, i, j);
    }
  }

  /** Nothing else is among them. */
  lemma {:induction false} OnlyListed(lists: seq<Listing>, o: Object)
    requires o in AllItems(lists)
    ensures exists i, j :: 0 <= i < |lists| && lists[i].Listed? && 0 <= j < |lists[i].items| && lists[i].items[j] == o
  {
    var n := |lists| - 1;
    if o in Items(lists[n]) {
      var j :| 0 <= j < |Items(lists[n])| && Items(lists[n])[j] == o;
      assert lists[n].items[j] == o;
    } else {
      OnlyListed(lists[..n], o);
      var i, j :| 0 <= i < n && lists[..n][i].Listed? && 0 <= j < |lists[..n][i].items| && lists[..n][i].items[j] == o;
      assert lists[i].items[j] == o;
    }
  }

  // ----- What is sent on the two channels -----

  /** What a resync sends on the two channels, object by object. */
  ghost function EventSends(items: seq<Object>): seq<seq<ResourceEvent>> {
    seq(|items|, i requires 0 <= i < |items| => ItemEvents(items[i]))
  }

  ghost function CrdSends(items: seq<Object>): seq<seq<CrdEvent>> {
    seq(|items|, i requires 0 <= i < |items| => ItemCrdEvents(items[i]))
  }

  lemma SendsOne(items: seq<Object>, o: Object)
    ensures EventSends(items + [o]) == EventSends(items) + [ItemEvents(o)]
    ensures CrdSends(items + [o]) == CrdSends(items) + [ItemCrdEvents(o)]
  {
  }

  lemma {:induction false} FlatItems(items: seq<Object>)
    ensures Flat(EventSends(items)) == ItemsEvents(items)
  {
    if items != [] {
      FlatItems(items[..|items| - 1]);
      assert EventSends(items)[..|items| - 1] == EventSends(items[..|items| - 1]);
    }
  }

  lemma {:induction false} InAmong<T>(sends: seq<seq<T>>, meanwhile: Meanwhile<T>, n: nat, x: T)
    requires n < |sends| && x in sends[n]
    ensures Push(x) in Among(sends, meanwhile)
  {
    var last := |sends| - 1;
    if n < last {
      InAmong(sends[..last], meanwhile, n, x);
    } else {
      var i :| 0 <= i < |sends[n]| && sends[n][i] == x;
      assert Pushes(sends[n])[i] == Push(x);
      assert Push(x) in Pushes(sends[n]);
    }
  }

  /** A resync sends for every object that could be listed, whatever other listings failed. */
  lemma EachListedIsSent(lists: seq<Listing>, i: nat, j: nat,
                         meanwhile: Meanwhile<ResourceEvent>, crdMeanwhile: Meanwhile<CrdEvent>)
    requires i < |lists| && lists[i].Listed? && j < |lists[i].items|
    ensures var o := lists[i].items[j];
            if CrdByIdentity(o)
            then Push(CrdEvent(Add, o.name)) in Among(CrdSends(AllItems(lists)), crdMeanwhile)
            else Push(ResourceEvent(Add, Extracted(o))) in Among(EventSends(AllItems(lists)), meanwhile)
  {
    var o := lists[i].items[j];
    var n := Total(lists[..i]) + j;
    ListedAt(lists, i, j);
    IsCrdExactlyWhen(o);
    if CrdByIdentity(o) {
      InAmong(CrdSends(AllItems(lists)), crdMeanwhile, n, CrdEvent(Add, o.name));
    } else {
      InAmong(EventSends(AllItems(lists)), meanwhile, n, ResourceEvent(Add, Extracted(o)));
    }
  }

  /**
   If informers are silent meanwhile, a resync gets all its events into the channel, in listing order,
   exactly when there is room at each of its sends.
   */
  lemma {:induction false} ResyncAcceptedExactlyWhen(c: Channel<ResourceEvent>, items: seq<Object>,
                                                     meanwhile: Meanwhile<ResourceEvent>)
    requires OnlyPulls(meanwhile)
    ensures var acts := Among(EventSends(items), meanwhile);
            c.Ran(acts, EVENTS_CAPACITY).Accepted() == c.Accepted() + ItemsEvents(items) <==>
            AlwaysRoom(c, acts, EVENTS_CAPACITY)
  {
    PushedAmong(EventSends(items), meanwhile);
    FlatItems(items);
    AcceptedExactlyWhen(c, Among(EventSends(items), meanwhile), EVENTS_CAPACITY);
  }

  /** With nobody receiving either, that is exactly when all of them fit: a larger resync loses events. */
  lemma {:induction false} UnreceivedResyncExactlyWhen(c: Channel<ResourceEvent>, items: seq<Object>,
                                                       meanwhile: Meanwhile<ResourceEvent>)
    requires |c.queue| <= EVENTS_CAPACITY && forall n :: meanwhile(n) == []
    ensures c.Ran(Among(EventSends(items), meanwhile), EVENTS_CAPACITY).Accepted() ==
            c.Accepted() + ItemsEvents(items) <==>
            |c.queue| + |ItemsEvents(items)| <= EVENTS_CAPACITY
  {
    var acts := Among(EventSends(items), meanwhile);
    AmongNobody(EventSends(items), meanwhile);
    PushedAmong(EventSends(items), meanwhile);
    FlatItems(items);
    Unreceived(c, acts, EVENTS_CAPACITY);
    AcceptsInOrder(c, acts, EVENTS_CAPACITY);
  }

  /** What notifications send on the two channels, one by one. */
  ghost function NoticeSends(ns: seq<Notification>): seq<seq<ResourceEvent>> {
    seq(|ns|, i requires 0 <= i < |ns| => RoutedEvents(ns[i]))
  }

  ghost function CrdNoticeSends(ns: seq<Notification>): seq<seq<CrdEvent>> {
    seq(|ns|, i requires 0 <= i < |ns| => RoutedCrdEvents(ns[i]))
  }

  lemma NoticesOne(ns: seq<Notification>, n: Notification)
    ensures NoticeSends(ns + [n]) == NoticeSends(ns) + [RoutedEvents(n)]
    ensures CrdNoticeSends(ns + [n]) == CrdNoticeSends(ns) + [RoutedCrdEvents(n)]
  {
  }

  lemma {:induction false} FlatNotices(ns: seq<Notification>)
    ensures Flat(NoticeSends(ns)) == Emitted(ns) && Flat(CrdNoticeSends(ns)) == EmittedCrdEvents(ns)
  {
    if ns != [] {
      FlatNotices(ns[..|ns| - 1]);
      NoticesBefore(ns);
    }
  }

  lemma NoticesBefore(ns: seq<Notification>)
    requires ns != []
    ensures NoticeSends(ns)[..|ns| - 1] == NoticeSends(ns[..|ns| - 1])
    ensures CrdNoticeSends(ns)[..|ns| - 1] == CrdNoticeSends(ns[..|ns| - 1])
    ensures NoticeSends(ns)[|ns| - 1] == RoutedEvents(ns[|ns| - 1])
    ensures CrdNoticeSends(ns)[|ns| - 1] == RoutedCrdEvents(ns[|ns| - 1])
  {
  }

  /**
   * The informers' notifications reach the two channels completely, in order, exactly when there is room at
   * each of their sends.
   */
  lemma {:induction false} NotifiedExactlyWhen(c: Channel<ResourceEvent>, d: Channel<CrdEvent>, ns: seq<Notification>,
                                               meanwhile: Meanwhile<ResourceEvent>, crdMeanwhile: Meanwhile<CrdEvent>)
    requires OnlyPulls(meanwhile) && OnlyPulls(crdMeanwhile)
    ensures var acts := Among(NoticeSends(ns), meanwhile);
            c.Ran(acts, EVENTS_CAPACITY).Accepted() == c.Accepted() + Emitted(ns) <==>
              AlwaysRoom(c, acts, EVENTS_CAPACITY)
    ensures var acts := Among(CrdNoticeSends(ns), crdMeanwhile);
            d.Ran(acts, CRD_EVENTS_CAPACITY).Accepted() == d.Accepted() + EmittedCrdEvents(ns) <==>
            AlwaysRoom(d, acts, CRD_EVENTS_CAPACITY)
  {
    FlatNotices(ns);
    PushedAmong(NoticeSends(ns), meanwhile);
    PushedAmong(CrdNoticeSends(ns), crdMeanwhile);
    AcceptedExactlyWhen(c, Among(NoticeSends(ns), meanwhile), EVENTS_CAPACITY);
    AcceptedExactlyWhen(d, Among(CrdNoticeSends(ns), crdMeanwhile), CRD_EVENTS_CAPACITY);
  }

  class Watcher {
    var events: seq<ResourceEvent>
    var crdEvents: seq<CrdEvent>
    var stopped: bool

    // what the consumers have taken
    ghost var received: seq<ResourceEvent>
    ghost var crdReceived: seq<CrdEvent>

    ghost function Events(): Channel<ResourceEvent>
      reads this
    {
      Channel(received, events)
    }

    ghost function CrdEvents(): Channel<CrdEvent>
      reads this
    {
      Channel(crdReceived, crdEvents)
    }

    /** A delete meets a full channel while the watcher runs. */
    predicate Blocks(e: CrdEvent, queue: seq<CrdEvent>)
      reads this`stopped
    {
      e.kind.Remove? && !stopped && |queue| >= CRD_EVENTS_CAPACITY
    }

    ghost predicate StillBlocks(e: CrdEvent, c: Channel<CrdEvent>, meanwhile: seq<Act<CrdEvent>>)
      reads this`stopped
    {
      Blocks(e, c.queue) && Blocks(e, c.Ran(meanwhile, CRD_EVENTS_CAPACITY).queue)
    }

    /** The event went in if there was room; once the watcher is stopped it may have been left out. */
    ghost predicate EventSent(before: Channel<ResourceEvent>, after: Channel<ResourceEvent>, e: ResourceEvent)
      reads this`stopped
    {
      after == before.Did(Push(e), EVENTS_CAPACITY) || (stopped && after == before)
    }

    /** Where a send finds the CRD channel: one that blocks finds it after the others have gone on. */
    ghost function Found(e: CrdEvent, before: Channel<CrdEvent>, meanwhile: seq<Act<CrdEvent>>): Channel<CrdEvent>
      reads this`stopped
    {
      if Blocks(e, before.queue) then before.Ran(meanwhile, CRD_EVENTS_CAPACITY) else before
    }

    ghost predicate CrdSent(before: Channel<CrdEvent>, after: Channel<CrdEvent>, e: CrdEvent,
                            meanwhile: seq<Act<CrdEvent>>)
      reads this`stopped
    {
      || after == Found(e, before, meanwhile).Did(Push(e), CRD_EVENTS_CAPACITY)
      || (stopped && after == before)
    }

    constructor ()
      ensures Events() == Channel([], []) && CrdEvents() == Channel([], []) && !stopped
    {
      events, crdEvents, stopped, received, crdReceived := [], [], false, [], [];
    }

    /** What the other threads do to the events channel. */
    method Others(acts: seq<Act<ResourceEvent>>)
      modifies this`events, this`received
      ensures Events() == old(Events()).Ran(acts, EVENTS_CAPACITY)
    {
      var n := 0;
      while n < |acts|
        invariant 0 <= n <= |acts| && Events() == old(Events()).Ran(acts[..n], EVENTS_CAPACITY)
      {
        RanOne(old(Events()), acts[..n], acts[n], EVENTS_CAPACITY);
        assert acts[..n + 1] == acts[..n] + [acts[n]];
        match acts[n] {
          case Pull =>
            if events != [] {
              received, events := received + [events[0]], events[1..];
            }
          case Push(e) =>
            if |events| < EVENTS_CAPACITY {
              events := events + [e];
            }
        }
        n := n + 1;
      }
      assert acts[..n] == acts;
    }

    method CrdOthers(acts: seq<Act<CrdEvent>>)
      modifies this`crdEvents, this`crdReceived
      ensures CrdEvents() == old(CrdEvents()).Ran(acts, CRD_EVENTS_CAPACITY)
    {
      var n := 0;
      while n < |acts|
        invariant 0 <= n <= |acts| && CrdEvents() == old(CrdEvents()).Ran(acts[..n], CRD_EVENTS_CAPACITY)
      {
        RanOne(old(CrdEvents()), acts[..n], acts[n], CRD_EVENTS_CAPACITY);
        assert acts[..n + 1] == acts[..n] + [acts[n]];
        match acts[n] {
          case Pull =>
            if crdEvents != [] {
              crdReceived, crdEvents := crdReceived + [crdEvents[0]], crdEvents[1..];
            }
          case Push(e) =>
            if |crdEvents| < CRD_EVENTS_CAPACITY {
              crdEvents := crdEvents + [e];
            }
        }
        n := n + 1;
      }
      assert acts[..n] == acts;
    }

    /**
     Sends without blocking; a full channel drops the event. When the watcher is stopped and the
     channel has room, the select may take either branch.
     */
    method Emit(e: ResourceEvent)
      modifies this`events
      ensures EventSent(old(Events()), Events(), e) && Grew(old(Events()), Events())
      ensures !stopped ==> events == if |old(events)| < 10000 then old(events) + [e] else old(events)
    {
      DidAccepts(Events(), Push(e), EVENTS_CAPACITY);
      var stopWins: bool := *;
      if |events| < EVENTS_CAPACITY && !(stopped && stopWins) {
        events := events + [e];
      }
    }

    /**
     An add is dropped by a full channel. A delete waits for room, and is given up only when the
     watcher stops: `meanwhile` is what the other threads do while it waits, and `waiting` says that they
     have not made room, so that the send has not happened yet.
     */
    method EmitCrd(e: CrdEvent, meanwhile: seq<Act<CrdEvent>>) returns (waiting: bool)
      modifies this`crdEvents, this`crdReceived
      ensures CrdSent(old(CrdEvents()), CrdEvents(), e, meanwhile) && Grew(old(CrdEvents()), CrdEvents())
      ensures waiting <==> StillBlocks(e, old(CrdEvents()), meanwhile)
      ensures !stopped && |old(crdEvents)| < 1000 ==> crdEvents == old(crdEvents) + [e]
      ensures |old(crdEvents)| >= 1000 && !e.kind.Remove? ==> crdEvents == old(crdEvents)
      ensures e.kind.Remove? && !stopped && !waiting ==>
                CrdEvents().Accepted() == Found(e, old(CrdEvents()), meanwhile).Accepted() + [e]
    {
      var stopWins: bool := *;
      waiting := false;
      if e.kind.Remove? {
        if stopped && (stopWins || |crdEvents| >= CRD_EVENTS_CAPACITY) {
          return;
        }
        if |crdEvents| >= CRD_EVENTS_CAPACITY {
          CrdOthers(meanwhile);
          RanGrew(old(CrdEvents()), meanwhile, CRD_EVENTS_CAPACITY);
          if |crdEvents| >= CRD_EVENTS_CAPACITY {
            return true;
          }
        }
        ghost var found := CrdEvents();
        DidAccepts(found, Push(e), CRD_EVENTS_CAPACITY);
        crdEvents := crdEvents + [e];
        GrewTwice(old(CrdEvents()), found, CrdEvents());
        return;
      }
      DidAccepts(CrdEvents(), Push(e), CRD_EVENTS_CAPACITY);
      if |crdEvents| < CRD_EVENTS_CAPACITY && !(stopped && stopWins) {
        crdEvents := crdEvents + [e];
      }
    }

    /** The informer callbacks: each notification goes where Route says, and nowhere else. */
    method Notify(n: Notification, meanwhile: seq<Act<CrdEvent>>) returns (waiting: bool)
      modifies this`events, this`crdEvents, this`crdReceived
      ensures Route(n).ToEvents? ==>
                !waiting && CrdEvents() == old(CrdEvents()) && EventSent(old(Events()), Events(), Route(n).event)
      ensures Route(n).ToCrdEvents? ==>
                Events() == old(Events()) && CrdSent(old(CrdEvents()), CrdEvents(), Route(n).crdEvent, meanwhile) &&
                (waiting <==> StillBlocks(Route(n).crdEvent, old(CrdEvents()), meanwhile))
      ensures Route(n).Ignored? ==> !waiting && Events() == old(Events()) && CrdEvents() == old(CrdEvents())
      ensures n.Added? && n.item.Unstructured? && CrdByIdentity(n.item.obj) ==>
                Events() == old(Events()) &&
                CrdSent(old(CrdEvents()), CrdEvents(), CrdEvent(Add, n.item.obj.name), meanwhile)
      ensures n.Deleted? && n.item.Unstructured? && CrdByIdentity(n.item.obj) ==>
                Events() == old(Events()) &&
                CrdSent(old(CrdEvents()), CrdEvents(), CrdEvent(Remove, n.item.obj.name), meanwhile)
    {
      waiting := false;
      if (n.Added? || n.Deleted?) && n.item.Unstructured? {
        IsCrdExactlyWhen(n.item.obj);
      }
      match n
      case Added(item) =>
        if item.Unstructured? {
          waiting := Send(Add, item.obj, meanwhile);
        }
      case Updated(before, after) =>
        if before.Unstructured? && after.Unstructured? {
          if IsCrd(after.obj) {
            return;
          }
          var changed := MetadataChanged(before.obj, after.obj);
          if !changed {
            return;
          }
          var instance := Extract(after.obj);
          Emit(ResourceEvent(Update, instance));
        }
      case Deleted(item) =>
        var inner := item;
        if inner.Tombstone? {
          inner := inner.last;
        }
        if inner.Unstructured? {
          waiting := Send(Remove, inner.obj, meanwhile);
        }
    }

    /** The common part of the add and delete callbacks. */
    method Send(kind: EventType, o: Object, meanwhile: seq<Act<CrdEvent>>) returns (waiting: bool)
      modifies this`events, this`crdEvents, this`crdReceived
      ensures !IsCrd(o) ==>
                !waiting && CrdEvents() == old(CrdEvents()) &&
                EventSent(old(Events()), Events(), ResourceEvent(kind, Extracted(o)))
      ensures IsCrd(o) ==>
                Events() == old(Events()) &&
                  CrdSent(old(CrdEvents()), CrdEvents(), CrdEvent(kind, o.name), meanwhile) &&
                (waiting <==> StillBlocks(CrdEvent(kind, o.name), old(CrdEvents()), meanwhile))
    {
      waiting := false;
      if IsCrd(o) {
        waiting := EmitCrd(CrdEvent(kind, o.name), meanwhile);
      } else {
        var instance := Extract(o);
        Emit(ResourceEvent(kind, instance));
      }
    }

    /**
     Lists every watched type again and sends an ADD for everything listed; a type that cannot be
     listed is passed over. The total counts what was listed, sent or not. Meanwhile the consumers go on
     taking events, and informers go on sending theirs.
     */
    method TriggerResync(lists: seq<Listing>, meanwhile: Meanwhile<ResourceEvent>, crdMeanwhile: Meanwhile<CrdEvent>)
      returns (total: nat)
      modifies this`events, this`crdEvents, this`received, this`crdReceived
      ensures total == Total(lists) && HoldsEvery(lists, AllItems(lists))
      ensures !stopped ==> SentAll(old(Events()), old(CrdEvents()), AllItems(lists), meanwhile, crdMeanwhile)
      ensures Grew(old(Events()), Events()) && Grew(old(CrdEvents()), CrdEvents())
    {
      total := 0;
      ghost var c, d := Events(), CrdEvents();
      ghost var done: seq<Object> := [];
      var n := 0;
      while n < |lists|
        invariant 0 <= n <= |lists| && done == AllItems(lists[..n]) && total == |done|
        invariant !stopped ==> SentAll(c, d, done, meanwhile, crdMeanwhile)
        invariant Grew(c, Events()) && Grew(d, CrdEvents())
      {
        assert lists[..n + 1][..n] == lists[..n];
        var l := lists[n];
        n := n + 1;
        if l.Failed? {
          assert done + [] == done;
          continue;
        }
        ghost var c0, d0 := Events(), CrdEvents();
        total := ResyncItems(l.items, total, c, d, done, meanwhile, crdMeanwhile);
        GrewTwice(c, c0, Events());
        GrewTwice(d, d0, CrdEvents());
        done := done + l.items;
      }
      assert lists[..n] == lists;
      AllItemsHoldEvery(lists);
    }

    /**
     * The channels have come from `c` and `d` to where sending the ADDs of `done`, among the other threads,
     * takes them.
     */
    ghost predicate SentAll(c: Channel<ResourceEvent>, d: Channel<CrdEvent>, done: seq<Object>,
                            meanwhile: Meanwhile<ResourceEvent>, crdMeanwhile: Meanwhile<CrdEvent>)
      reads this
    {
      && Reaches(c, Events(), EventSends(done), meanwhile, EVENTS_CAPACITY)
      && Reaches(d, CrdEvents(), CrdSends(done), crdMeanwhile, CRD_EVENTS_CAPACITY)
    }

    method ResyncItems(items: seq<Object>, before: nat, ghost c: Channel<ResourceEvent>, ghost d: Channel<CrdEvent>,
                       ghost done: seq<Object>, meanwhile: Meanwhile<ResourceEvent>, crdMeanwhile: Meanwhile<CrdEvent>)
      returns (total: nat)
      requires before == |done| && (!stopped ==> SentAll(c, d, done, meanwhile, crdMeanwhile))
      modifies this`events, this`crdEvents, this`received, this`crdReceived
      ensures total == before + |items| && (!stopped ==> SentAll(c, d, done + items, meanwhile, crdMeanwhile))
      ensures Grew(old(Events()), Events()) && Grew(old(CrdEvents()), CrdEvents())
    {
      total := before;
      ghost var listed := done;
      ghost var c0, d0 := Events(), CrdEvents();
      var n := 0;
      while n < |items|
        invariant 0 <= n <= |items| && total == before + n && listed == done + items[..n]
        invariant !stopped ==> SentAll(c, d, listed, meanwhile, crdMeanwhile)
        invariant Grew(c0, Events()) && Grew(d0, CrdEvents())
      {
        ghost var c1, d1 := Events(), CrdEvents();
        ResyncNext(items[n], total, c, d, listed, meanwhile, crdMeanwhile);
        GrewTwice(c0, c1, Events());
        GrewTwice(d0, d1, CrdEvents());
        assert (done + items[..n]) + [items[n]] == done + items[..n + 1];
        total, listed, n := total + 1, listed + [items[n]], n + 1;
      }
      assert done + items[..n] == done + items;
    }

    method ResyncNext(o: Object, before: nat, ghost c: Channel<ResourceEvent>, ghost d: Channel<CrdEvent>,
                      ghost done: seq<Object>, meanwhile: Meanwhile<ResourceEvent>, crdMeanwhile: Meanwhile<CrdEvent>)
      requires before == |done| && (!stopped ==> SentAll(c, d, done, meanwhile, crdMeanwhile))
      modifies this`events, this`crdEvents, this`received, this`crdReceived
      ensures !stopped ==> SentAll(c, d, done + [o], meanwhile, crdMeanwhile)
      ensures Grew(old(Events()), Events()) && Grew(old(CrdEvents()), CrdEvents())
    {
      ghost var c0, d0 := Events(), CrdEvents();
      ResyncItem(o, meanwhile(before), crdMeanwhile(before));
      SendsOne(done, o);
      if !stopped {
        ReachesOne(c, c0, EventSends(done), ItemEvents(o), meanwhile, EVENTS_CAPACITY);
        ReachesOne(d, d0, CrdSends(done), ItemCrdEvents(o), crdMeanwhile, CRD_EVENTS_CAPACITY);
      }
    }

    method ResyncItem(o: Object, acts: seq<Act<ResourceEvent>>, crdActs: seq<Act<CrdEvent>>)
      modifies this`events, this`crdEvents, this`received, this`crdReceived
      ensures !stopped ==>
                Events() == old(Events()).Ran(acts, EVENTS_CAPACITY).Ran(Pushes(ItemEvents(o)), EVENTS_CAPACITY)
      ensures !stopped ==>
                CrdEvents() ==
                old(CrdEvents()).Ran(crdActs, CRD_EVENTS_CAPACITY).Ran(Pushes(ItemCrdEvents(o)), CRD_EVENTS_CAPACITY)
      ensures Grew(old(Events()), Events()) && Grew(old(CrdEvents()), CrdEvents())
    {
      Others(acts);
      CrdOthers(crdActs);
      RanGrew(old(Events()), acts, EVENTS_CAPACITY);
      RanGrew(old(CrdEvents()), crdActs, CRD_EVENTS_CAPACITY);
      ghost var c1, d1 := Events(), CrdEvents();
      ResyncSend(o);
      GrewTwice(old(Events()), c1, Events());
      GrewTwice(old(CrdEvents()), d1, CrdEvents());
    }

    method ResyncSend(o: Object)
      modifies this`events, this`crdEvents, this`crdReceived
      ensures !stopped ==> Events() == old(Events()).Ran(Pushes(ItemEvents(o)), EVENTS_CAPACITY)
      ensures !stopped ==> CrdEvents() == old(CrdEvents()).Ran(Pushes(ItemCrdEvents(o)), CRD_EVENTS_CAPACITY)
      ensures Grew(old(Events()), Events()) && Grew(old(CrdEvents()), CrdEvents())
    {
      PushesOne(Events(), ResourceEvent(Add, Extracted(o)), EVENTS_CAPACITY);
      PushesOne(CrdEvents(), CrdEvent(Add, o.name), CRD_EVENTS_CAPACITY);
      if IsCrd(o) {
        var _ := EmitCrd(CrdEvent(Add, o.name), []);
        DidAccepts(old(CrdEvents()), Push(CrdEvent(Add, o.name)), CRD_EVENTS_CAPACITY);
      } else {
        var instance := Extract(o);
        Emit(ResourceEvent(Add, instance));
        DidAccepts(old(Events()), Push(ResourceEvent(Add, instance)), EVENTS_CAPACITY);
      }
    }
  }

  /** The notification is a CRD's delete, and the channel is full. */
  ghost predicate WaitsForRoom(w: Watcher, n: Notification, queue: seq<CrdEvent>)
    reads w`stopped
  {
    Route(n).ToCrdEvents? && w.Blocks(Route(n).crdEvent, queue)
  }

  /**
   The informers' side: one notification after another, while the watcher runs and the other threads go on. A
   delete that finds no room waits, and what comes after it with it: `told` says how far they came, `waiting`
   that the last send has not happened.
   */
  method NotifyAll(w: Watcher, ns: seq<Notification>, meanwhile: Meanwhile<ResourceEvent>,
                   crdMeanwhile: Meanwhile<CrdEvent>) returns (told: nat, waiting: bool)
    requires !w.stopped
    modifies w`events, w`crdEvents, w`received, w`crdReceived
    ensures told <= |ns| && (!waiting ==> told == |ns|)
    ensures ToldSoFar(w, old(w.Events()), old(w.CrdEvents()), ns[..told], meanwhile, crdMeanwhile)
    ensures waiting ==> told > 0 && WaitsForRoom(w, ns[told - 1], w.crdEvents)
  {
    ghost var c, d := w.Events(), w.CrdEvents();
    told, waiting := 0, false;
    while told < |ns| && !waiting
      invariant told <= |ns| && ToldSoFar(w, c, d, ns[..told], meanwhile, crdMeanwhile)
      invariant waiting ==> told > 0 && WaitsForRoom(w, ns[told - 1], w.crdEvents)
    {
      waiting := NotifyAfter(w, ns[..told], ns[told], c, d, meanwhile, crdMeanwhile);
      TakenOneMore(ns, told);
      told := told + 1;
    }
  }

  /** The channels are where sending what these notifications send, among the other threads, takes them. */
  ghost predicate ToldSoFar(w: Watcher, c: Channel<ResourceEvent>, d: Channel<CrdEvent>, done: seq<Notification>,
                            meanwhile: Meanwhile<ResourceEvent>, crdMeanwhile: Meanwhile<CrdEvent>)
    reads w
  {
    && Reaches(c, w.Events(), NoticeSends(done), meanwhile, EVENTS_CAPACITY)
    && Reaches(d, w.CrdEvents(), CrdNoticeSends(done), crdMeanwhile, CRD_EVENTS_CAPACITY)
  }

  method NotifyAfter(w: Watcher, done: seq<Notification>, n: Notification, ghost c: Channel<ResourceEvent>,
                     ghost d: Channel<CrdEvent>, meanwhile: Meanwhile<ResourceEvent>, crdMeanwhile: Meanwhile<CrdEvent>)
    returns (waiting: bool)
    requires !w.stopped && ToldSoFar(w, c, d, done, meanwhile, crdMeanwhile)
    modifies w`events, w`crdEvents, w`received, w`crdReceived
    ensures ToldSoFar(w, c, d, done + [n], meanwhile, crdMeanwhile)
    ensures waiting ==> WaitsForRoom(w, n, w.crdEvents)
  {
    ghost var c0, d0 := w.Events(), w.CrdEvents();
    waiting := NotifyNext(w, n, meanwhile(|done|), crdMeanwhile(|done|));
    NoticesOne(done, n);
    ReachesOne(c, c0, NoticeSends(done), RoutedEvents(n), meanwhile, EVENTS_CAPACITY);
    ReachesOne(d, d0, CrdNoticeSends(done), RoutedCrdEvents(n), crdMeanwhile, CRD_EVENTS_CAPACITY);
  }

  /** One notification, once the others have gone on; a send that finds no room changes nothing. */
  method NotifyNext(w: Watcher, n: Notification, acts: seq<Act<ResourceEvent>>, crdActs: seq<Act<CrdEvent>>)
    returns (waiting: bool)
    requires !w.stopped
    modifies w`events, w`crdEvents, w`received, w`crdReceived
    ensures w.Events() == old(w.Events()).Ran(acts, EVENTS_CAPACITY).Ran(Pushes(RoutedEvents(n)), EVENTS_CAPACITY)
    ensures w.CrdEvents() ==
            old(w.CrdEvents()).Ran(crdActs, CRD_EVENTS_CAPACITY).Ran(Pushes(RoutedCrdEvents(n)), CRD_EVENTS_CAPACITY)
    ensures waiting <==> WaitsForRoom(w, n, old(w.CrdEvents()).Ran(crdActs, CRD_EVENTS_CAPACITY).queue)
    ensures waiting ==> WaitsForRoom(w, n, w.crdEvents)
  {
    w.Others(acts);
    w.CrdOthers(crdActs);
    match Route(n) {
      case ToEvents(e) => PushesOne(w.Events(), e, EVENTS_CAPACITY);
      case ToCrdEvents(e) => PushesOne(w.CrdEvents(), e, CRD_EVENTS_CAPACITY);
      case Ignored =>
    }
    waiting := w.Notify(n, []);
  }
}
