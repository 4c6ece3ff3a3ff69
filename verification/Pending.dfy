/**
 The table of debounced changes and what one locked region does to it. A region that ranges over
 the table visits the keys in an order that Go leaves open: the order is a parameter here.
 */
module Pending {
  import opened Downstream

  /** `timer` names the timer the entry was armed with; timers are never reused. */
  datatype PendingChange = PendingChange(change: Change, timer: nat, ready: bool, gen: nat)

  type Table = map<string, PendingChange>

  /** Generations are uint64. */
  const GEN_MODULUS: nat := 0x1_0000_0000_0000_0000

  function Successor(gen: nat): nat {
    (gen + 1) % GEN_MODULUS
  }

  function ReadyKeys(p: Table): set<string> {
    set k | k in p && p[k].ready
  }

  /** The timer closure's locked region: only an entry of the captured generation becomes ready. */
  function MarkReady(p: Table, k: string, gen: nat): Table {
    if k in p && p[k].gen == gen then p[k := p[k].(ready := true)] else p
  }

  predicate OwnKeys(p: Table) {
    forall k :: k in p ==> p[k].change.Key() == k
  }

  /** A visiting order: every key of the set, once. */
  predicate Enumerates(order: seq<string>, keys: set<string>) {
    && (forall k :: k in order ==> k in keys)
    && (forall k :: k in keys ==> k in order)
    && (forall i, j :: 0 <= i < j < |order| ==> order[i] != order[j])
  }

  function Collect(p: Table, order: seq<string>): seq<Change>
    requires forall k :: k in order ==> k in p
  {
    seq(|order|, i requires 0 <= i < |order| => p[order[i]].change)
  }

  function Stamps(p: Table, order: seq<string>): seq<nat>
    requires forall k :: k in order ==> k in p
  {
    seq(|order|, i requires 0 <= i < |order| => p[order[i]].timer)
  }

  lemma {:induction false} EnumerationSize(order: seq<string>, keys: set<string>)
    requires Enumerates(order, keys)
    ensures |order| == |keys|
  {
    if order != [] {
      var n := |order| - 1;
      assert order == order[..n] + [order[n]];
      EnumerationSize(order[..n], keys - {order[n]});
    } else {
      assert keys == {};
    }
  }

  lemma OrderExists(keys: set<string>) returns (order: seq<string>)
    ensures Enumerates(order, keys)
  {
    if keys == {} {
      order := [];
    } else {
      var k :| k in keys;
      var rest := OrderExists(keys - {k});
      order := rest + [k];
    }
  }

  /** Whatever the order, the batch says for each taken key what the table said, and nothing else. */
  lemma {:induction false} CollectedMap(p: Table, order: seq<string>, keys: set<string>)
    requires OwnKeys(p) && Enumerates(order, keys) && keys <= p.Keys
    ensures AsMap(Collect(p, order)) == map k | k in keys :: p[k].change
  {
    var us := Collect(p, order);
    if order == [] {
      assert keys == {};
    } else {
      var n := |order| - 1;
      var last := order[n];
      assert order == order[..n] + [last];
      CollectedMap(p, order[..n], keys - {last});
      assert us[..n] == Collect(p, order[..n]);
      assert AsMap(us) == AsMap(us[..n])[last := p[last].change];
    }
  }

  /**
   * Batches taken in different orders have the same effect on every store, name no key twice, and are as long
   * as the set taken.
   */
  lemma OrderIrrelevant(p: Table, one: seq<string>, other: seq<string>, keys: set<string>, st: Store)
    requires OwnKeys(p) && Enumerates(one, keys) && Enumerates(other, keys) && keys <= p.Keys
    ensures ApplyUpserts(Collect(p, one), st) == ApplyUpserts(Collect(p, other), st)
    ensures ApplyUpserts(Collect(p, one), st) == st + map k | k in keys :: p[k].change
    ensures |Collect(p, one)| == |keys|
    ensures forall i, j :: 0 <= i < j < |one| ==> Collect(p, one)[i].Key() != Collect(p, one)[j].Key()
  {
    CollectedMap(p, one, keys);
    CollectedMap(p, other, keys);
    UpsertsOverlay(Collect(p, one), st);
    UpsertsOverlay(Collect(p, other), st);
    EnumerationSize(one, keys);
  }
}
