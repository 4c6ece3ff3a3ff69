/**
 Conservation: every handled event is in exactly one place, and the payload or entry that has it
 carries that event's effect. Places only move forward, so nothing is sent twice or forgotten.
 */
module Ledger {
  import opened Downstream
  import opened Pending
  import opened Machine

  /** The payload has this upsert, and event `i` asked for it. */
  ghost predicate Asked(events: seq<Event>, i: nat, c: Change) {
    i < |events| && events[i] == Upsert(c)
  }

  /**
   * Some upserts, each the change of the event it is stamped with and no key twice, or exactly the delete of
   * the event it is stamped with.
   */
  ghost predicate ParcelHolds(events: seq<Event>, p: Parcel) {
    if p.payload.deletes == [] then
      && |p.stamps| == |p.payload.upserts| && p.stamps != []
      && (forall n :: 0 <= n < |p.stamps| ==> Asked(events, p.stamps[n], p.payload.upserts[n]))
      && (forall m, n :: 0 <= m < n < |p.stamps| ==> p.payload.upserts[m].Key() != p.payload.upserts[n].Key())
    else
      && p.payload.upserts == [] && |p.payload.deletes| == 1 && |p.stamps| == 1
      && p.stamps[0] < |events| && events[p.stamps[0]] == Delete(p.payload.deletes[0])
  }

  /** `n` is the first event after `i` for the key of event `i`. */
  ghost predicate NextForKey(events: seq<Event>, i: nat, n: nat) {
    && i < n < |events| && events[n].Key() == events[i].Key()
    && (forall j :: i < j < n ==> events[j].Key() != events[i].Key())
  }

  /** The place recorded for event `i` is where it is; a delete is in flight with Run, or in one of the logs. */
  ghost predicate FateHolds(s: State, i: nat)
    requires i in s.fate && i < |s.events|
  {
    match s.fate[i]
    case Waiting => s.events[i].Upsert? && s.events[i].Key() in s.pending && s.pending[s.events[i].Key()].timer == i
    case InFlight(h) => h in s.flight && i in s.flight[h].stamps && (s.events[i].Delete? ==> h == RUN)
    case Enqueued(j) => j < |s.enqueued| && i in s.enqueued[j].stamps
    case Dropped(j) => j < |s.dropped| && i in s.dropped[j].stamps
    case Superseded(n) => s.events[i].Upsert? && NextForKey(s.events, i, n) && s.events[n].Upsert?
    case Cancelled(n) => s.events[i].Upsert? && NextForKey(s.events, i, n) && s.events[n].Delete?
  }

  ghost predicate AllStamped(fate: map<nat, Fate>, stamps: seq<nat>, f: Fate) {
    forall i :: i in stamps ==> i in fate && fate[i] == f
  }

  /** The ledger has one line per handled event. */
  ghost predicate Indexed(events: seq<Event>, fate: map<nat, Fate>) {
    forall i: nat :: i in fate <==> i < |events|
  }

  ghost predicate Accounted(s: State) {
    && Indexed(s.events, s.fate)
    && (forall i :: i in s.fate ==> FateHolds(s, i))
  }

  /** Whatever has an event is the place recorded for it. */
  ghost predicate PendingPlaced(s: State) {
    forall k :: k in s.pending ==> s.pending[k].timer in s.fate && s.fate[s.pending[k].timer] == Waiting
  }

  ghost predicate FlightPlaced(events: seq<Event>, fate: map<nat, Fate>, flight: map<int, Parcel>) {
    forall h :: h in flight ==> ParcelHolds(events, flight[h]) && AllStamped(fate, flight[h].stamps, InFlight(h))
  }

  function LogFate(lost: bool, j: nat): Fate {
    if lost then Dropped(j) else Enqueued(j)
  }

  ghost predicate LogPlaced(events: seq<Event>, fate: map<nat, Fate>, log: seq<Parcel>, lost: bool) {
    forall j :: 0 <= j < |log| ==> ParcelHolds(events, log[j]) && AllStamped(fate, log[j].stamps, LogFate(lost, j))
  }

  ghost predicate Placed(s: State) {
    && PendingPlaced(s)
    && FlightPlaced(s.events, s.fate, s.flight)
    && LogPlaced(s.events, s.fate, s.enqueued, false)
    && LogPlaced(s.events, s.fate, s.dropped, true)
  }

  ghost predicate Books(s: State) {
    Accounted(s) && Placed(s)
  }

  // ----- What no step undoes -----

  /** Only waiting events, and those held by `h`, may have been moved. */
  ghost predicate OnlyMoved(fate: map<nat, Fate>, fate': map<nat, Fate>, h: int) {
    forall i :: i in fate ==> fate[i] == Waiting || fate[i] == InFlight(h) || (i in fate' && fate'[i] == fate[i])
  }

  lemma ParcelGrows(events: seq<Event>, more: seq<Event>, p: Parcel)
    requires ParcelHolds(events, p)
    ensures ParcelHolds(events + more, p)
  {
  }

  lemma FlightPlacedKept(events: seq<Event>, more: seq<Event>, fate: map<nat, Fate>, fate': map<nat, Fate>,
                         flight: map<int, Parcel>, h: int)
    requires FlightPlaced(events, fate, flight) && OnlyMoved(fate, fate', h) && h !in flight
    ensures FlightPlaced(events + more, fate', flight)
  {
    forall g | g in flight
      ensures ParcelHolds(events + more, flight[g]) && AllStamped(fate', flight[g].stamps, InFlight(g))
    {
      ParcelGrows(events, more, flight[g]);
    }
  }

  lemma LogKept(events: seq<Event>, more: seq<Event>, fate: map<nat, Fate>, fate': map<nat, Fate>, log: seq<Parcel>,
                lost: bool, h: int)
    requires LogPlaced(events, fate, log, lost) && OnlyMoved(fate, fate', h)
    ensures LogPlaced(events + more, fate', log, lost)
  {
    forall j | 0 <= j < |log|
      ensures ParcelHolds(events + more, log[j]) && AllStamped(fate', log[j].stamps, LogFate(lost, j))
    {
      ParcelGrows(events, more, log[j]);
    }
  }

  lemma PlacedKept(s: State, more: seq<Event>, fate': map<nat, Fate>, h: int)
    requires Placed(s) && OnlyMoved(s.fate, fate', h)
    ensures h !in s.flight ==> FlightPlaced(s.events + more, fate', s.flight)
    ensures LogPlaced(s.events + more, fate', s.enqueued, false)
    ensures LogPlaced(s.events + more, fate', s.dropped, true)
  {
    if h !in s.flight {
      FlightPlacedKept(s.events, more, s.fate, fate', s.flight, h);
    }
    LogKept(s.events, more, s.fate, fate', s.enqueued, false, h);
    LogKept(s.events, more, s.fate, fate', s.dropped, true, h);
  }

  // ----- The books are kept -----

  lemma IndexedOneMore(events: seq<Event>, fate: map<nat, Fate>, fate': map<nat, Fate>, e: Event)
    requires Indexed(events, fate)
    requires fate'.Keys == fate.Keys + {|events|}
    ensures Indexed(events + [e], fate')
  {
    assert forall i: nat :: i in fate' <==> i in fate'.Keys;
  }

  lemma FateUpserted(cfg: Config, s: State, c: Change, i: nat)
    requires Basic(s) && Accounted(s) && i in Upserted(cfg, s, c).fate
    ensures i <= |s.events| && FateHolds(Upserted(cfg, s, c), i)
  {
    assert c.Key() in s.pending ==> EntryHolds(s, c.Key());
    assert i in s.fate ==> FateHolds(s, i);
  }

  lemma AccountedUpserted(cfg: Config, s: State, c: Change)
    requires Basic(s) && Accounted(s)
    ensures Accounted(Upserted(cfg, s, c))
  {
    var s' := Upserted(cfg, s, c);
    assert c.Key() in s.pending ==> EntryHolds(s, c.Key());
    IndexedOneMore(s.events, s.fate, s'.fate, Upsert(c));
    forall i | i in s'.fate ensures FateHolds(s', i) {
      FateUpserted(cfg, s, c, i);
    }
  }

  lemma PendingPlacedUpserted(cfg: Config, s: State, c: Change)
    requires EntriesHold(s) && PendingPlaced(s)
    ensures PendingPlaced(Upserted(cfg, s, c))
  {
    assert forall k :: k in s.pending ==> EntryHolds(s, k);
  }

  lemma PendingPlacedDeleted(s: State, id: string)
    requires EntriesHold(s) && PendingPlaced(s)
    ensures PendingPlaced(Deleted(s, id))
  {
    assert forall k :: k in s.pending ==> EntryHolds(s, k);
  }

  lemma OnlyMovedHandled(s: State, k: string, f: Fate, g: Fate)
    requires EntriesHold(s) && PendingPlaced(s)
    ensures |s.events| !in s.fate ==> OnlyMoved(s.fate, Retire(s, k, f)[|s.events| := g], RUN)
  {
    assert k in s.pending ==> EntryHolds(s, k);
  }

  lemma BooksUpserted(cfg: Config, s: State, c: Change)
    requires Basic(s) && Books(s) && RUN !in s.flight
    ensures Books(Upserted(cfg, s, c))
  {
    AccountedUpserted(cfg, s, c);
    PendingPlacedUpserted(cfg, s, c);
    OnlyMovedHandled(s, c.Key(), Superseded(|s.events|), Waiting);
    PlacedKept(s, [Upsert(c)], Upserted(cfg, s, c).fate, RUN);
  }

  lemma FateDeleted(s: State, id: string, i: nat)
    requires Basic(s) && Accounted(s) && RUN !in s.flight && i in s.fate
    ensures i in Deleted(s, id).fate && i < |s.events| && FateHolds(Deleted(s, id), i)
  {
    assert id in s.pending ==> EntryHolds(s, id);
    assert FateHolds(s, i);
  }

  lemma FateOfDelete(s: State, id: string)
    ensures |s.events| in Deleted(s, id).fate && FateHolds(Deleted(s, id), |s.events|)
  {
    assert |s.events| in [|s.events|];
  }

  lemma AccountedDeleted(s: State, id: string)
    requires Basic(s) && Accounted(s) && RUN !in s.flight
    ensures Accounted(Deleted(s, id))
  {
    var s' := Deleted(s, id);
    assert id in s.pending ==> EntryHolds(s, id);
    IndexedOneMore(s.events, s.fate, s'.fate, Delete(id));
    FateOfDelete(s, id);
    forall i | i in s.fate ensures i in s'.fate && i < |s.events| && FateHolds(s', i) {
      FateDeleted(s, id, i);
    }
  }

  lemma BooksDeleted(s: State, id: string)
    requires Basic(s) && Books(s) && RUN !in s.flight
    ensures Books(Deleted(s, id))
  {
    AccountedDeleted(s, id);
    PendingPlacedDeleted(s, id);
    OnlyMovedHandled(s, id, Cancelled(|s.events|), InFlight(RUN));
    PlacedKept(s, [Delete(id)], Deleted(s, id).fate, RUN);
    assert AllStamped(Deleted(s, id).fate, [|s.events|], InFlight(RUN));
    assert ParcelHolds(s.events + [Delete(id)], Deleted(s, id).flight[RUN]);
  }

  lemma TakenParcelHolds(s: State, order: seq<string>)
    requires EntriesHold(s) && Enumerates(order, set k | k in order) && order != []
    requires forall k :: k in order ==> k in s.pending
    ensures ParcelHolds(s.events, Parcel(Payload(Collect(s.pending, order), []), Stamps(s.pending, order)))
  {
    forall n | 0 <= n < |order|
      ensures var e := s.pending[order[n]];
              e.timer < |s.events| && s.events[e.timer] == Upsert(e.change) && e.change.Key() == order[n]
    {
      assert order[n] in order && EntryHolds(s, order[n]);
    }
  }

  lemma StampsOf(s: State, order: seq<string>, k: string)
    requires (forall k :: k in order ==> k in s.pending) && k in order
    ensures s.pending[k].timer in Stamps(s.pending, order)
  {
    var n :| 0 <= n < |order| && order[n] == k;
    assert Stamps(s.pending, order)[n] == s.pending[k].timer;
  }

  /** A timer is taken exactly when the key it belongs to is. */
  lemma TakenTimers(s: State, order: seq<string>)
    requires EntriesHold(s) && forall k :: k in order ==> k in s.pending
    ensures forall k :: k in s.pending ==> (s.pending[k].timer in Stamps(s.pending, order) <==> k in order)
    ensures forall i :: i in Stamps(s.pending, order) ==>
            i < |s.events| && s.events[i].Key() in order && s.pending[s.events[i].Key()].timer == i
  {
    forall k | k in order ensures s.pending[k].timer in Stamps(s.pending, order) {
      StampsOf(s, order, k);
    }
    forall i | i in Stamps(s.pending, order)
      ensures i < |s.events| && s.events[i].Key() in order && s.pending[s.events[i].Key()].timer == i
    {
      var n :| 0 <= n < |order| && Stamps(s.pending, order)[n] == i;
      assert order[n] in order && EntryHolds(s, order[n]);
    }
    forall k | k in s.pending && s.pending[k].timer in Stamps(s.pending, order) ensures k in order {
      assert EntryHolds(s, k);
    }
  }

  lemma AccountedTaken(s: State, h: int, order: seq<string>)
    requires Basic(s) && Accounted(s) && PendingPlaced(s) && h !in s.flight && order != []
    requires forall k :: k in order ==> k in s.pending
    ensures Accounted(Take(s, h, order))
  {
    var s' := Take(s, h, order);
    TakenTimers(s, order);
    forall i | i in s'.fate ensures FateHolds(s', i) {
      assert FateHolds(s, i);
    }
  }

  lemma PlacedTaken(s: State, h: int, order: seq<string>)
    requires Basic(s) && Placed(s) && h !in s.flight && order != []
    requires Enumerates(order, set k | k in order) && forall k :: k in order ==> k in s.pending
    ensures Placed(Take(s, h, order))
  {
    var s' := Take(s, h, order);
    var stamps := Stamps(s.pending, order);
    TakenTimers(s, order);
    TakenParcelHolds(s, order);
    assert forall i :: i in stamps ==> i in s.fate && s.fate[i] == Waiting;
    PlacedKept(s, [], s'.fate, h);
    assert s.events + [] == s.events;
  }

  lemma FateEmitted(s: State, h: int, i: nat)
    requires Accounted(s) && h in s.flight && AllStamped(s.fate, s.flight[h].stamps, InFlight(h)) && i in s.fate
    ensures i in Emit(s, h).fate && i < |s.events| && FateHolds(Emit(s, h), i)
  {
    assert FateHolds(s, i);
  }

  lemma AccountedEmitted(s: State, h: int)
    requires Accounted(s) && h in s.flight && AllStamped(s.fate, s.flight[h].stamps, InFlight(h))
    ensures Accounted(Emit(s, h))
  {
    forall i | i in s.fate ensures i in Emit(s, h).fate && i < |s.events| && FateHolds(Emit(s, h), i) {
      FateEmitted(s, h, i);
    }
  }

  lemma PlacedEmitted(s: State, h: int)
    requires Placed(s) && h in s.flight
    ensures Placed(Emit(s, h))
  {
    var s' := Emit(s, h);
    var parcel := s.flight[h];
    var left := s.(flight := s'.flight);
    assert s.events + [] == s.events;
    assert Placed(left);
    PlacedKept(left, [], s'.fate, h);
    assert ParcelHolds(s.events, parcel) && AllStamped(s.fate, parcel.stamps, InFlight(h));
  }

  lemma BooksQuiet(s: State, s': State)
    requires Books(s) && Quiet(s, s')
    ensures Books(s')
  {
    forall i | i in s'.fate ensures FateHolds(s', i) {
      assert FateHolds(s, i);
    }
  }

  lemma BooksStep(cfg: Config, s: State, step: Step)
    requires Basic(s) && Books(s) && Enabled(cfg, s, step)
    ensures Books(Do(cfg, s, step))
  {
    StepShape(cfg, s, step);
    if step.HandleUpsert? {
      BooksUpserted(cfg, s, step.change);
    } else if step.HandleDelete? {
      BooksDeleted(s, step.id);
    } else if Takes(step) {
      HolderFree(cfg, s, step);
      if step.order != [] {
        AccountedTaken(s, Holder(step), step.order);
        PlacedTaken(s, Holder(step), step.order);
      }
    } else if Emits(step) {
      AccountedEmitted(s, Holder(step));
      PlacedEmitted(s, Holder(step));
    }
    BooksQuiet(Core(cfg, s, step), Do(cfg, s, step));
  }

  lemma {:induction false} BooksAlways(cfg: Config, steps: seq<Step>)
    requires Valid(cfg, steps)
    ensures Books(Exec(cfg, steps))
  {
    if steps != [] {
      var n := |steps| - 1;
      BasicAlways(cfg, steps[..n]);
      BooksAlways(cfg, steps[..n]);
      BooksStep(cfg, Exec(cfg, steps[..n]), steps[n]);
    }
  }

  // ----- The ledger -----

  ghost predicate HeldBy(log: seq<Parcel>, j: nat, i: nat) {
    j < |log| && i in log[j].stamps
  }

  /**
   Each place has an event exactly when the ledger says so; the ledger gives one place to each. A
   delete is in flight with Run, enqueued or dropped, never anything else.
   */
  lemma {:induction false} EveryEventInOnePlace(cfg: Config, steps: seq<Step>, i: nat)
    requires Valid(cfg, steps) && i < |Exec(cfg, steps).events|
    ensures var s := Exec(cfg, steps); i in s.fate && FateHolds(s, i)
    ensures var s := Exec(cfg, steps);
            s.events[i].Delete? ==> s.fate[i] == InFlight(RUN) || s.fate[i].Enqueued? || s.fate[i].Dropped?
    ensures var s := Exec(cfg, steps); s.fate[i] == Waiting <==> exists k :: k in s.pending && s.pending[k].timer == i
    ensures var s := Exec(cfg, steps);
            forall h :: s.fate[i] == InFlight(h) <==> h in s.flight && i in s.flight[h].stamps
    ensures var s := Exec(cfg, steps); forall j: nat :: s.fate[i] == Enqueued(j) <==> HeldBy(s.enqueued, j, i)
    ensures var s := Exec(cfg, steps); forall j: nat :: s.fate[i] == Dropped(j) <==> HeldBy(s.dropped, j, i)
  {
    BooksAlways(cfg, steps);
    assert FateHolds(Exec(cfg, steps), i);
  }

  /** A payload in the log carries the very change of each event it is stamped with, and is well formed. */
  lemma {:induction false} EnqueuedIsHonest(cfg: Config, steps: seq<Step>, j: nat)
    requires Valid(cfg, steps) && j < |Exec(cfg, steps).enqueued|
    ensures ParcelHolds(Exec(cfg, steps).events, Exec(cfg, steps).enqueued[j])
  {
    BooksAlways(cfg, steps);
  }

  function Rank(f: Fate): nat {
    match f
    case Waiting => 0
    case InFlight(_) => 1
    case _ => 2
  }

  /**
   * A finished upsert never moves again, and one in flight only leaves for a log; a drop needs a full or
   * closed channel.
   */
  ghost predicate Forward(s: State, s': State, i: nat)
    requires i in s.fate
  {
    && i in s'.fate
    && (s'.fate[i] == s.fate[i] || Rank(s.fate[i]) < Rank(s'.fate[i]))
    && (s.fate[i].InFlight? && s'.fate[i] != s.fate[i] ==> s'.fate[i].Enqueued? || s'.fate[i].Dropped?)
    && (s'.fate[i].Dropped? && !s.fate[i].Dropped? ==> s.closed || |s.chan| >= CAPACITY)
  }

  lemma ForwardHandled(cfg: Config, s: State, step: Step, i: nat)
    requires Basic(s) && Books(s) && Enabled(cfg, s, step) && Handles(step) && i in s.fate
    ensures Forward(s, Core(cfg, s, step), i)
  {
    assert i < |s.events|;
  }

  lemma ForwardTaken(s: State, h: int, order: seq<string>, i: nat)
    requires Basic(s) && PendingPlaced(s) && i in s.fate && forall k :: k in order ==> k in s.pending
    ensures Forward(s, Take(s, h, order), i)
  {
    TakenTimers(s, order);
  }

  lemma ForwardEmitted(s: State, h: int, i: nat)
    requires Books(s) && h in s.flight && i in s.fate
    ensures Forward(s, Emit(s, h), i)
  {
    assert AllStamped(s.fate, s.flight[h].stamps, InFlight(h));
  }

  /** Places only move forward, at every step of every run. */
  lemma PlacesMoveForward(cfg: Config, steps: seq<Step>, step: Step, i: nat)
    requires Valid(cfg, steps) && Enabled(cfg, Exec(cfg, steps), step) && i in Exec(cfg, steps).fate
    ensures Forward(Exec(cfg, steps), Do(cfg, Exec(cfg, steps), step), i)
  {
    var s := Exec(cfg, steps);
    BasicAlways(cfg, steps);
    BooksAlways(cfg, steps);
    StepShape(cfg, s, step);
    if Handles(step) {
      ForwardHandled(cfg, s, step, i);
    } else if Takes(step) {
      HolderFree(cfg, s, step);
      ForwardTaken(s, Holder(step), step.order, i);
    } else if Emits(step) {
      ForwardEmitted(s, Holder(step), i);
    }
  }

  // ----- The counts -----

  function EventCount(events: seq<Event>, deletes: bool): nat {
    if events == [] then 0
    else EventCount(events[..|events| - 1], deletes) + if events[|events| - 1].Delete? == deletes then 1 else 0
  }

  ghost function Indices(events: seq<Event>, deletes: bool): set<nat> {
    set i: nat | i < |events| && events[i].Delete? == deletes
  }

  lemma {:induction false} CountIsSize(events: seq<Event>, deletes: bool)
    ensures |Indices(events, deletes)| == EventCount(events, deletes)
  {
    if events != [] {
      var n := |events| - 1;
      CountIsSize(events[..n], deletes);
      var before := Indices(events[..n], deletes);
      if events[n].Delete? == deletes {
        assert Indices(events, deletes) == before + {n};
      } else {
        assert Indices(events, deletes) == before;
      }
    }
  }

  function Kind(f: Fate): nat {
    match f
    case Waiting => 0
    case InFlight(_) => 1
    case Enqueued(_) => 2
    case Dropped(_) => 3
    case Superseded(_) => 4
    case Cancelled(_) => 5
  }

  ghost function OfKind(fate: map<nat, Fate>, kind: nat): set<nat> {
    set i | i in fate && Kind(fate[i]) == kind
  }

  ghost function Below(fate: map<nat, Fate>, kind: nat): set<nat> {
    set i | i in fate && Kind(fate[i]) < kind
  }

  lemma Peel(fate: map<nat, Fate>, kind: nat)
    ensures |Below(fate, kind + 1)| == |Below(fate, kind)| + |OfKind(fate, kind)|
  {
    assert Below(fate, kind + 1) == Below(fate, kind) + OfKind(fate, kind);
  }

  /** Waiting, in flight, enqueued, dropped, superseded and cancelled, counted one by one. */
  ghost function Total(fate: map<nat, Fate>): nat {
    |OfKind(fate, Kind(Waiting))| + |OfKind(fate, Kind(InFlight(RUN)))|
    + |OfKind(fate, Kind(Enqueued(0)))| + |OfKind(fate, Kind(Dropped(0)))|
    + |OfKind(fate, Kind(Superseded(0)))| + |OfKind(fate, Kind(Cancelled(0)))|
  }

  lemma SixKinds(fate: map<nat, Fate>)
    ensures Total(fate) == |fate.Keys|
  {
    assert Below(fate, 0) == {};
    Peel(fate, 0);
    Peel(fate, 1);
    Peel(fate, 2);
    Peel(fate, 3);
    Peel(fate, 4);
    Peel(fate, 5);
    assert Below(fate, 6) == fate.Keys;
  }

  /** The lines of the ledger for the upserts, or for the deletes. */
  ghost function Lines(s: State, deletes: bool): map<nat, Fate> {
    map i | i in s.fate && i < |s.events| && s.events[i].Delete? == deletes :: s.fate[i]
  }

  lemma AccountedCount(s: State, deletes: bool)
    requires Accounted(s)
    ensures Total(Lines(s, deletes)) == EventCount(s.events, deletes)
  {
    CountIsSize(s.events, deletes);
    SixKinds(Lines(s, deletes));
    assert Indices(s.events, deletes) == Lines(s, deletes).Keys;
  }

  lemma NoSuchDeletes(s: State, f: Fate)
    requires Accounted(s) && (f.Waiting? || f.Superseded? || f.Cancelled?)
    ensures OfKind(Lines(s, true), Kind(f)) == {}
  {
    forall i | i in Lines(s, true) ensures Kind(s.fate[i]) != Kind(f) {
      assert FateHolds(s, i);
    }
  }

  /** The six places add up to the upserts handled, and three of them to the deletes handled. */
  lemma {:induction false} CountsAddUp(cfg: Config, steps: seq<Step>)
    requires Valid(cfg, steps)
    ensures var s := Exec(cfg, steps); Total(Lines(s, false)) == EventCount(s.events, false)
    ensures var s := Exec(cfg, steps);
            var d := Lines(s, true);
            |OfKind(d, Kind(InFlight(RUN)))| + |OfKind(d, Kind(Enqueued(0)))| + |OfKind(d, Kind(Dropped(0)))| ==
            EventCount(s.events, true)
  {
    var s := Exec(cfg, steps);
    BooksAlways(cfg, steps);
    AccountedCount(s, false);
    AccountedCount(s, true);
    NoSuchDeletes(s, Waiting);
    NoSuchDeletes(s, Superseded(0));
    NoSuchDeletes(s, Cancelled(0));
  }

  // ----- When an event is lost -----

  predicate Logged(f: Fate) {
    f.Enqueued? || f.Dropped?
  }

  /** Taking logs nothing. */
  lemma TakenNotLogged(s: State, h: int, order: seq<string>, i: nat)
    requires EntriesHold(s) && PendingPlaced(s) && i in s.fate && forall k :: k in order ==> k in s.pending
    ensures var f := Take(s, h, order).fate; i in f && (Logged(f[i]) || Logged(s.fate[i]) ==> f[i] == s.fate[i])
  {
    TakenTimers(s, order);
  }

  lemma HandledNotLogged(cfg: Config, s: State, step: Step, i: nat)
    requires Basic(s) && Books(s) && Enabled(cfg, s, step) && Handles(step) && i in s.fate
    ensures var f := Core(cfg, s, step).fate; i in f && (Logged(f[i]) || Logged(s.fate[i]) ==> f[i] == s.fate[i])
  {
    assert i < |s.events|;
  }

  /** Emitting logs exactly what the holder had. */
  lemma EmittedLogged(s: State, h: int, i: nat)
    requires Books(s) && h in s.flight && i in s.fate
    ensures i in Emit(s, h).fate
    ensures Emit(s, h).fate[i] ==
            if s.fate[i] != InFlight(h) then s.fate[i]
            else if Accepts(s) then Enqueued(|s.enqueued|) else Dropped(|s.dropped|)
  {
    assert FateHolds(s, i);
    assert AllStamped(s.fate, s.flight[h].stamps, InFlight(h));
  }

  /** What a step that does not emit does to the logged events: nothing. */
  lemma KeepsLogged(cfg: Config, s: State, step: Step, i: nat)
    requires Basic(s) && Books(s) && Enabled(cfg, s, step) && !Emits(step) && i in s.fate
    ensures var f := Do(cfg, s, step).fate; i in f && (Logged(f[i]) || Logged(s.fate[i]) ==> f[i] == s.fate[i])
  {
    StepShape(cfg, s, step);
    if Handles(step) {
      HandledNotLogged(cfg, s, step, i);
    } else if Takes(step) {
      TakenNotLogged(s, Holder(step), step.order, i);
    }
  }

  /**
   At every step of every run: an event is lost exactly when the thread that holds it emits into a channel
   that is closed or full, and enqueued exactly when it emits into one that is neither.
   */
  lemma {:induction false} LostExactlyWhen(cfg: Config, steps: seq<Step>, step: Step, i: nat)
    requires Valid(cfg, steps) && Enabled(cfg, Exec(cfg, steps), step) && i < |Exec(cfg, steps).events|
    ensures var s, s' := Exec(cfg, steps), Do(cfg, Exec(cfg, steps), step);
            && i in s.fate && i in s'.fate
            && (!s.fate[i].Dropped? && s'.fate[i].Dropped? <==>
                  Emits(step) && s.fate[i] == InFlight(Holder(step)) && (s.closed || |s.chan| >= CAPACITY))
            && (!s.fate[i].Enqueued? && s'.fate[i].Enqueued? <==>
                  Emits(step) && s.fate[i] == InFlight(Holder(step)) && !s.closed && |s.chan| < CAPACITY)
  {
    var s := Exec(cfg, steps);
    BasicAlways(cfg, steps);
    BooksAlways(cfg, steps);
    if Emits(step) {
      EmittedLogged(s, Holder(step), i);
      StepShape(cfg, s, step);
    } else {
      KeepsLogged(cfg, s, step, i);
    }
  }

  /**
   A delete leaves its place in one way: Run emits it, while the channel is still open. It is lost
   exactly when the channel is full at that step, and enqueued otherwise.
   */
  lemma {:induction false} DeleteLostExactlyWhen(cfg: Config, steps: seq<Step>, step: Step, i: nat)
    requires Valid(cfg, steps) && Enabled(cfg, Exec(cfg, steps), step)
    requires i < |Exec(cfg, steps).events| && Exec(cfg, steps).events[i].Delete?
    ensures var s, s' := Exec(cfg, steps), Do(cfg, Exec(cfg, steps), step);
            && i in s.fate && i in s'.fate
            && (!s.fate[i].Dropped? && s'.fate[i].Dropped? <==>
                  s.fate[i].InFlight? && step.RunEmit? && |s.chan| >= CAPACITY)
            && (!s.fate[i].Enqueued? && s'.fate[i].Enqueued? <==>
                  s.fate[i].InFlight? && step.RunEmit? && |s.chan| < CAPACITY)
    ensures step.RunEmit? ==> !Exec(cfg, steps).closed
  {
    BasicAlways(cfg, steps);
    LostExactlyWhen(cfg, steps, step, i);
    EveryEventInOnePlace(cfg, steps, i);
    assert step.CallbackEmit? ==> Holder(step) != RUN;
  }
}
