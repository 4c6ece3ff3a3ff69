/**
 The buffer agrees with direct replay of the events, under every interleaving: for a key that is
 not stained, what is pending, else what is in flight, else what the enqueued payloads built, is
 what applying every handled event at once would have built, from any initial store.
 */
module Coherence {
  import opened Downstream
  import opened Pending
  import opened Machine

  function Payloads(log: seq<Parcel>): seq<Payload> {
    seq(|log|, i requires 0 <= i < |log| => log[i].payload)
  }

  /** The store built by every payload the channel ever accepted. */
  function Built(s: State, init: Store): Store {
    ApplyAll(Payloads(s.enqueued), init)
  }

  /** The payloads that the channel accepted from position `from` on. */
  function Later(s: State, from: nat): seq<Payload> {
    if from <= |s.enqueued| then Payloads(s.enqueued[from..]) else []
  }

  /** What those payloads make of a store. */
  function BuiltFrom(s: State, from: nat, st: Store): Store {
    ApplyAll(Later(s, from), st)
  }

  function Truth(s: State, init: Store, k: string): Option<Change> {
    Lookup(Replay(s.events, init), k)
  }

  /** The read-through view of one key. */
  ghost function View(s: State, init: Store, k: string): Option<Change> {
    if k in s.pending then Some(s.pending[k].change)
    else if Touched(s.flight, k) then
      var h :| Carries(s.flight, h, k);
      Effect(s.flight[h].payload, k)
    else Lookup(Built(s, init), k)
  }

  ghost predicate Agrees(s: State, init: Store, k: string) {
    && (k in s.pending ==> Truth(s, init, k) == Some(s.pending[k].change))
    && (forall h :: Carries(s.flight, h, k) ==> k !in s.pending && Truth(s, init, k) == Effect(s.flight[h].payload, k))
    && (forall h, g :: Carries(s.flight, h, k) && Carries(s.flight, g, k) ==> h == g)
    && (k !in s.pending && !Touched(s.flight, k) ==> Truth(s, init, k) == Lookup(Built(s, init), k))
  }

  lemma TruthAfter(s: State, e: Event, init: Store, k: string)
    ensures Lookup(Replay(s.events + [e], init), k) == if e.Key() == k then LeftBy(e) else Truth(s, init, k)
  {
    ReplayOne(s.events, e, init);
  }

  lemma AgreesUpserted(cfg: Config, s: State, c: Change, init: Store, k: string)
    requires k !in s.stained ==> Agrees(s, init, k)
    requires k !in Upserted(cfg, s, c).stained
    ensures Agrees(Upserted(cfg, s, c), init, k)
  {
    TruthAfter(s, Upsert(c), init, k);
    if c.Key() == k {
      assert forall h :: !Carries(s.flight, h, k);
    }
  }

  lemma DeleteInFlight(s: State, id: string, k: string)
    requires RUN !in s.flight
    ensures forall h :: Carries(Deleted(s, id).flight, h, k) <==> Carries(s.flight, h, k) || (h == RUN && k == id)
  {
  }

  lemma AgreesDeleted(s: State, id: string, init: Store, k: string)
    requires RUN !in s.flight
    requires k !in s.stained ==> Agrees(s, init, k)
    requires k !in Deleted(s, id).stained
    ensures Agrees(Deleted(s, id), init, k)
  {
    var s' := Deleted(s, id);
    TruthAfter(s, Delete(id), init, k);
    DeleteInFlight(s, id, k);
    if k == id {
      assert forall h :: !Carries(s.flight, h, k);
      assert Carries(s'.flight, RUN, k);
    }
  }

  lemma AgreesHandled(cfg: Config, s: State, step: Step, init: Store, k: string)
    requires Basic(s) && Enabled(cfg, s, step) && Handles(step)
    requires k !in s.stained ==> Agrees(s, init, k)
    requires k !in Do(cfg, s, step).stained
    ensures Agrees(Do(cfg, s, step), init, k)
  {
    match step
    case HandleUpsert(c) => AgreesUpserted(cfg, s, c, init, k);
    case HandleDelete(id) => AgreesDeleted(s, id, init, k);
  }

  lemma TakenPayload(s: State, order: seq<string>)
    requires Basic(s) && Enumerates(order, set k | k in order) && forall k :: k in order ==> k in s.pending
    ensures var p := Payload(Collect(s.pending, order), []);
            Touches(p) == (set k | k in order) &&
            forall k :: k in order ==> Effect(p, k) == Some(s.pending[k].change)
  {
    assert forall k :: k in s.pending ==> EntryHolds(s, k);
    CollectedMap(s.pending, order, set k | k in order);
  }

  lemma TakenFlight(s: State, holder: int, order: seq<string>, k: string)
    requires Basic(s) && holder !in s.flight
    requires Enumerates(order, set k | k in order) && forall k :: k in order ==> k in s.pending
    ensures forall h :: Carries(Take(s, holder, order).flight, h, k) <==>
            Carries(s.flight, h, k) || (h == holder && k in order)
    ensures k in order ==> Effect(Take(s, holder, order).flight[holder].payload, k) == Some(s.pending[k].change)
  {
    TakenPayload(s, order);
  }

  lemma TakenTable(s: State, holder: int, order: seq<string>, k: string)
    requires forall k :: k in order ==> k in s.pending
    ensures var r := Take(s, holder, order);
            && r.events == s.events && r.enqueued == s.enqueued
            && (k in r.pending <==> k in s.pending && k !in order) && (k in r.pending ==> r.pending[k] == s.pending[k])
  {
  }

  lemma AgreesTaken(s: State, holder: int, order: seq<string>, init: Store, k: string)
    requires Basic(s) && holder !in s.flight && Agrees(s, init, k)
    requires Enumerates(order, set k | k in order) && forall k :: k in order ==> k in s.pending
    ensures Agrees(Take(s, holder, order), init, k)
  {
    TakenFlight(s, holder, order, k);
    TakenTable(s, holder, order, k);
    if k in order {
      assert Carries(Take(s, holder, order).flight, holder, k);
      assert forall h :: !Carries(s.flight, h, k);
    }
  }

  lemma BuiltAfter(s: State, p: Parcel, init: Store, k: string)
    ensures Lookup(ApplyAll(Payloads(s.enqueued + [p]), init), k) ==
            if k in Touches(p.payload) then Effect(p.payload, k) else Lookup(Built(s, init), k)
  {
    assert Payloads(s.enqueued + [p]) == Payloads(s.enqueued) + [p.payload];
    ApplyAllOne(Payloads(s.enqueued), p.payload, init);
    ApplyAtKey(p.payload, Built(s, init), k);
  }

  lemma BuiltFromAfter(s: State, r: State, p: Parcel, from: nat, st: Store, k: string)
    requires from <= |s.enqueued| && r.enqueued == s.enqueued + [p]
    ensures Lookup(BuiltFrom(r, from, st), k) ==
            if k in Touches(p.payload) then Effect(p.payload, k) else Lookup(BuiltFrom(s, from, st), k)
  {
    assert Later(r, from) == Later(s, from) + [p.payload];
    ApplyAllOne(Later(s, from), p.payload, st);
    ApplyAtKey(p.payload, BuiltFrom(s, from, st), k);
  }

  lemma BuiltFromEnds(s: State, st: Store)
    ensures BuiltFrom(s, 0, st) == Built(s, st) && BuiltFrom(s, |s.enqueued|, st) == st
  {
    assert s.enqueued[0..] == s.enqueued;
    assert Later(s, |s.enqueued|) == [];
  }

  lemma AgreesAccepted(s: State, holder: int, init: Store, k: string)
    requires holder in s.flight && Agrees(s, init, k) && Accepts(s)
    ensures Agrees(Emit(s, holder), init, k)
  {
    BuiltAfter(s, s.flight[holder], init, k);
    assert forall h :: Carries(Emit(s, holder).flight, h, k) <==> Carries(s.flight, h, k) && h != holder;
  }

  lemma AgreesLost(s: State, holder: int, init: Store, k: string)
    requires holder in s.flight && Agrees(s, init, k) && !Accepts(s)
    requires k !in Emit(s, holder).stained
    ensures Agrees(Emit(s, holder), init, k)
  {
    assert !Carries(s.flight, holder, k);
    assert forall h :: Carries(Emit(s, holder).flight, h, k) <==> Carries(s.flight, h, k);
  }

  lemma AgreesQuiet(s: State, s': State, init: Store, k: string)
    requires Agrees(s, init, k) && Quiet(s, s')
    ensures Agrees(s', init, k)
  {
  }

  lemma AgreesStep(cfg: Config, s: State, step: Step, init: Store, k: string)
    requires Basic(s) && Enabled(cfg, s, step)
    requires k !in s.stained ==> Agrees(s, init, k)
    requires k !in Do(cfg, s, step).stained
    ensures Agrees(Do(cfg, s, step), init, k)
  {
    if Handles(step) {
      AgreesHandled(cfg, s, step, init, k);
    } else {
      StepShape(cfg, s, step);
      var m := Core(cfg, s, step);
      if Takes(step) {
        HolderFree(cfg, s, step);
        AgreesTaken(s, Holder(step), step.order, init, k);
      } else if Emits(step) {
        if Accepts(s) {
          AgreesAccepted(s, Holder(step), init, k);
        } else {
          AgreesLost(s, Holder(step), init, k);
        }
      }
      AgreesQuiet(m, Do(cfg, s, step), init, k);
    }
  }

  lemma {:induction false} AgreesAlways(cfg: Config, steps: seq<Step>, init: Store, k: string)
    requires Valid(cfg, steps) && k !in Exec(cfg, steps).stained
    ensures Agrees(Exec(cfg, steps), init, k)
  {
    if steps == [] {
      assert forall h :: !Carries(Init.flight, h, k);
    } else {
      var n := |steps| - 1;
      var s := Exec(cfg, steps[..n]);
      BasicAlways(cfg, steps[..n]);
      if k !in s.stained {
        AgreesAlways(cfg, steps[..n], init, k);
      }
      AgreesStep(cfg, s, steps[n], init, k);
    }
  }

  /** Coalescing agrees with replay in every reachable state. */
  lemma {:induction false} CoalescingAgreesWithReplay(cfg: Config, steps: seq<Step>, init: Store, k: string)
    requires Valid(cfg, steps) && k !in Exec(cfg, steps).stained
    ensures View(Exec(cfg, steps), init, k) == Lookup(Replay(Exec(cfg, steps).events, init), k)
  {
    var s := Exec(cfg, steps);
    AgreesAlways(cfg, steps, init, k);
  }

  /**
   * What `pending` holds for a key is the change of the last event handled for that key, whatever was dropped
   * or raced.
   */
  lemma {:induction false} LastStateWins(cfg: Config, steps: seq<Step>, k: string)
    requires Valid(cfg, steps) && k in Exec(cfg, steps).pending
    ensures var s := Exec(cfg, steps);
            var i := LastIndex(s.events, k);
            0 <= i && s.pending[k].timer == i && s.events[i] == Upsert(s.pending[k].change)
  {
    BasicAlways(cfg, steps);
    assert EntryHolds(Exec(cfg, steps), k);
  }

  /** Every batch taken by a flush carries, for each of its keys, the outcome of that key's last event. */
  lemma BatchIsLatest(cfg: Config, steps: seq<Step>, step: Step, n: nat)
    requires Valid(cfg, steps) && Enabled(cfg, Exec(cfg, steps), step) && Takes(step) && n < |step.order|
    ensures var s := Exec(cfg, steps); var s' := Do(cfg, s, step);
            Holder(step) in s'.flight && n < |s'.flight[Holder(step)].payload.upserts| &&
            0 <= LastIndex(s.events, step.order[n]) &&
            s.events[LastIndex(s.events, step.order[n])] == Upsert(s'.flight[Holder(step)].payload.upserts[n])
  {
    BasicAlways(cfg, steps);
    HolderFree(cfg, Exec(cfg, steps), step);
    StepShape(cfg, Exec(cfg, steps), step);
    assert step.order[n] in step.order;
    LastStateWins(cfg, steps, step.order[n]);
  }

  // ----- When a key is not stained -----

  function HandledKey(step: Step): string
    requires Handles(step)
  {
    if step.HandleUpsert? then step.change.Key() else step.id
  }

  /** From step `m` on, no event for the key was handled while a payload for it was in flight. */
  ghost predicate NoOverlapFrom(cfg: Config, steps: seq<Step>, m: nat, k: string) {
    forall n :: m <= n < |steps| && Handles(steps[n]) && HandledKey(steps[n]) == k ==>
      !Touched(Exec(cfg, steps[..n]).flight, k)
  }

  ghost predicate NoOverlap(cfg: Config, steps: seq<Step>, k: string) {
    NoOverlapFrom(cfg, steps, 0, k)
  }

  /** No payload for the key is among the dropped ones, but for the first `from` of them. */
  ghost predicate NothingDroppedFrom(s: State, from: nat, k: string) {
    forall j :: from <= j < |s.dropped| ==> k !in Touches(s.dropped[j].payload)
  }

  ghost predicate NothingDropped(s: State, k: string) {
    NothingDroppedFrom(s, 0, k)
  }

  /** From step `m` on, no event of the key overlapped a payload for it, and no payload for it was dropped. */
  ghost predicate CleanFrom(cfg: Config, steps: seq<Step>, m: nat, k: string)
    requires m <= |steps|
  {
    NoOverlapFrom(cfg, steps, m, k) && NothingDroppedFrom(Exec(cfg, steps), |Exec(cfg, steps[..m]).dropped|, k)
  }

  predicate HandlesKey(step: Step, k: string) {
    Handles(step) && HandledKey(step) == k
  }

  /** Drops are only ever added; a step adds at most one, by emitting into a channel that does not accept. */
  lemma DroppedGrows(cfg: Config, s: State, step: Step)
    requires Enabled(cfg, s, step)
    ensures Do(cfg, s, step).dropped ==
            if Emits(step) && !Accepts(s) then s.dropped + [s.flight[Holder(step)]] else s.dropped
  {
    StepShape(cfg, s, step);
  }

  /** How one step moves a key in and out of the stained ones. */
  lemma StainMoves(cfg: Config, s: State, step: Step, k: string)
    requires Enabled(cfg, s, step)
    ensures k in Do(cfg, s, step).stained <==>
            if HandlesKey(step, k) then Touched(s.flight, k)
            else k in s.stained || (Emits(step) && !Accepts(s) && k in Touches(s.flight[Holder(step)].payload))
  {
    StepShape(cfg, s, step);
  }

  lemma {:induction false} DroppedPrefix(cfg: Config, steps: seq<Step>, m: nat)
    requires Valid(cfg, steps) && m <= |steps|
    ensures Exec(cfg, steps[..m]).dropped <= Exec(cfg, steps).dropped
  {
    if m == |steps| {
      assert steps[..m] == steps;
    } else {
      var n := |steps| - 1;
      DroppedPrefix(cfg, steps[..n], m);
      assert steps[..n][..m] == steps[..m];
      DroppedGrows(cfg, Exec(cfg, steps[..n]), steps[n]);
    }
  }

  lemma EnqueuedGrows(cfg: Config, s: State, step: Step)
    requires Enabled(cfg, s, step)
    ensures |s.enqueued| <= |Do(cfg, s, step).enqueued|
  {
    StepShape(cfg, s, step);
  }

  lemma {:induction false} EnqueuedSince(cfg: Config, steps: seq<Step>, m: nat, n: nat)
    requires Valid(cfg, steps) && m <= n <= |steps|
    ensures |Exec(cfg, steps[..m]).enqueued| <= |Exec(cfg, steps[..n]).enqueued|
  {
    if m < n {
      EnqueuedSince(cfg, steps, m, n - 1);
      ValidPrefix(cfg, steps, n);
      assert steps[..n][..n - 1] == steps[..n - 1];
      EnqueuedGrows(cfg, Exec(cfg, steps[..n - 1]), steps[n - 1]);
    }
  }

  lemma NoOverlapOneMore(cfg: Config, steps: seq<Step>, m: nat, k: string)
    requires m < |steps|
    ensures var n := |steps| - 1;
            NoOverlapFrom(cfg, steps, m, k) <==>
              NoOverlapFrom(cfg, steps[..n], m, k) &&
                (HandlesKey(steps[n], k) ==> !Touched(Exec(cfg, steps[..n]).flight, k))
  {
    var n := |steps| - 1;
    assert forall i :: 0 <= i < n ==> steps[..n][i] == steps[i] && steps[..n][..i] == steps[..i];
  }

  lemma DroppedOneMore(cfg: Config, s: State, step: Step, from: nat, k: string)
    requires Enabled(cfg, s, step) && from <= |s.dropped|
    ensures NothingDroppedFrom(Do(cfg, s, step), from, k) <==>
              && NothingDroppedFrom(s, from, k)
              && (Emits(step) && !Accepts(s) ==> k !in Touches(s.flight[Holder(step)].payload))
  {
    var s' := Do(cfg, s, step);
    DroppedGrows(cfg, s, step);
    assert forall j :: 0 <= j < |s.dropped| ==> s'.dropped[j] == s.dropped[j];
    if Emits(step) && !Accepts(s) {
      assert s'.dropped[|s.dropped|] == s.flight[Holder(step)];
    }
  }

  /** The step does not disturb the key. */
  ghost predicate StaysClean(cfg: Config, s: State, step: Step, k: string)
    requires Enabled(cfg, s, step)
  {
    && (HandlesKey(step, k) ==> !Touched(s.flight, k))
    && (Emits(step) && !Accepts(s) ==> k !in Touches(s.flight[Holder(step)].payload))
  }

  /** What a longer run adds to staying clean. */
  lemma CleanOneMore(cfg: Config, steps: seq<Step>, m: nat, k: string)
    requires Valid(cfg, steps) && m < |steps|
    ensures var n := |steps| - 1;
            CleanFrom(cfg, steps, m, k) <==>
              CleanFrom(cfg, steps[..n], m, k) && StaysClean(cfg, Exec(cfg, steps[..n]), steps[n], k)
  {
    var n := |steps| - 1;
    assert steps[..n][..m] == steps[..m];
    DroppedPrefix(cfg, steps[..n], m);
    NoOverlapOneMore(cfg, steps, m, k);
    DroppedOneMore(cfg, Exec(cfg, steps[..n]), steps[n], |Exec(cfg, steps[..m]).dropped|, k);
  }

  /**
   * The key is not stained, seen from the run: its last undisturbed event has not been disturbed since, or
   * nothing ever was.
   */
  ghost predicate Undisturbed(cfg: Config, steps: seq<Step>, k: string) {
    CleanFrom(cfg, steps, 0, k) ||
    exists m :: 0 <= m < |steps| && HandlesKey(steps[m], k) && CleanFrom(cfg, steps, m, k)
  }

  /** In a clean stretch, an event of the key removes the stain, and nothing brings it back. */
  lemma CleanStep(cfg: Config, steps: seq<Step>, m: nat, k: string)
    requires Valid(cfg, steps) && m < |steps| && CleanFrom(cfg, steps, m, k)
    requires HandlesKey(steps[|steps| - 1], k) || k !in Exec(cfg, steps[..|steps| - 1]).stained
    ensures CleanFrom(cfg, steps[..|steps| - 1], m, k) && k !in Exec(cfg, steps).stained
  {
    CleanOneMore(cfg, steps, m, k);
    StainMoves(cfg, Exec(cfg, steps[..|steps| - 1]), steps[|steps| - 1], k);
  }

  lemma CleanBefore(cfg: Config, steps: seq<Step>, m: nat, k: string)
    requires Valid(cfg, steps) && m < |steps| && CleanFrom(cfg, steps, m, k)
    ensures CleanFrom(cfg, steps[..|steps| - 1], m, k)
  {
    CleanOneMore(cfg, steps, m, k);
  }

  lemma {:induction false} CleanIsUnstained(cfg: Config, steps: seq<Step>, m: nat, k: string)
    requires Valid(cfg, steps) && m <= |steps| && CleanFrom(cfg, steps, m, k)
    requires m == 0 || (m < |steps| && HandlesKey(steps[m], k))
    ensures k !in Exec(cfg, steps).stained
  {
    if steps != [] {
      var n := |steps| - 1;
      CleanBefore(cfg, steps, m, k);
      if !HandlesKey(steps[n], k) {
        CleanIsUnstained(cfg, steps[..n], m, k);
      }
      CleanStep(cfg, steps, m, k);
    }
  }

  lemma CleanAtLast(cfg: Config, steps: seq<Step>, k: string)
    requires Valid(cfg, steps) && steps != []
    requires var n := |steps| - 1; HandlesKey(steps[n], k) && !Touched(Exec(cfg, steps[..n]).flight, k)
    ensures CleanFrom(cfg, steps, |steps| - 1, k)
  {
    var n := |steps| - 1;
    assert steps[..n][..n] == steps[..n];
    CleanOneMore(cfg, steps, n, k);
  }

  lemma {:induction false} UnstainedIsUndisturbed(cfg: Config, steps: seq<Step>, k: string)
    requires Valid(cfg, steps) && k !in Exec(cfg, steps).stained
    ensures Undisturbed(cfg, steps, k)
  {
    if steps == [] {
      assert steps[..0] == steps;
    } else {
      var n := |steps| - 1;
      StainMoves(cfg, Exec(cfg, steps[..n]), steps[n], k);
      if HandlesKey(steps[n], k) {
        CleanAtLast(cfg, steps, k);
      } else {
        UnstainedIsUndisturbed(cfg, steps[..n], k);
        UndisturbedOneMore(cfg, steps, k);
      }
    }
  }

  lemma UndisturbedOneMore(cfg: Config, steps: seq<Step>, k: string)
    requires Valid(cfg, steps) && steps != []
    requires var n := |steps| - 1;
             && Undisturbed(cfg, steps[..n], k) && !HandlesKey(steps[n], k)
             && k !in Exec(cfg, steps).stained
    ensures Undisturbed(cfg, steps, k)
  {
    var n := |steps| - 1;
    StainMoves(cfg, Exec(cfg, steps[..n]), steps[n], k);
    if CleanFrom(cfg, steps[..n], 0, k) {
      CleanOneMore(cfg, steps, 0, k);
    } else {
      var m :| 0 <= m < n && HandlesKey(steps[..n][m], k) && CleanFrom(cfg, steps[..n], m, k);
      CleanOneMore(cfg, steps, m, k);
      assert HandlesKey(steps[m], k);
    }
  }

  /**
   A key is not stained exactly when it has been undisturbed since some event of its own that met no
   payload for it in flight, or since the beginning: whatever happened before that event is repaired.
   */
  lemma {:induction false} StainedExactlyWhen(cfg: Config, steps: seq<Step>, k: string)
    requires Valid(cfg, steps)
    ensures k in Exec(cfg, steps).stained <==> !Undisturbed(cfg, steps, k)
  {
    if k !in Exec(cfg, steps).stained {
      UnstainedIsUndisturbed(cfg, steps, k);
    } else if Undisturbed(cfg, steps, k) {
      var m: nat :| m <= |steps| && CleanFrom(cfg, steps, m, k) && (m == 0 || (m < |steps| && HandlesKey(steps[m], k)));
      CleanIsUnstained(cfg, steps, m, k);
    }
  }

  lemma EventsGrow(cfg: Config, s: State, step: Step)
    requires Enabled(cfg, s, step)
    ensures Do(cfg, s, step).events ==
            match step
            case HandleUpsert(c) => s.events + [Upsert(c)]
            case HandleDelete(id) => s.events + [Delete(id)]
            case _ => s.events
  {
    StepShape(cfg, s, step);
  }

  ghost predicate HasEvent(events: seq<Event>, from: nat, k: string) {
    exists i :: from <= i < |events| && events[i].Key() == k
  }

  lemma HasEventOneMore(events: seq<Event>, e: Event, from: nat, k: string)
    requires from <= |events|
    ensures HasEvent(events + [e], from, k) <==> HasEvent(events, from, k) || e.Key() == k
  {
    assert (events + [e])[|events|] == e;
    assert forall i :: 0 <= i < |events| ==> (events + [e])[i] == events[i];
  }

  lemma EventsOneMore(cfg: Config, s: State, step: Step, from: nat, k: string)
    requires Enabled(cfg, s, step) && from <= |s.events|
    ensures from <= |Do(cfg, s, step).events|
    ensures HasEvent(Do(cfg, s, step).events, from, k) <==> HasEvent(s.events, from, k) || HandlesKey(step, k)
  {
    EventsGrow(cfg, s, step);
    match step
    case HandleUpsert(c) => HasEventOneMore(s.events, Upsert(c), from, k);
    case HandleDelete(id) => HasEventOneMore(s.events, Delete(id), from, k);
    case _ =>
  }

  /** Some step from `m` on handles the key. */
  ghost predicate HandledSince(steps: seq<Step>, m: nat, k: string) {
    exists n :: m <= n < |steps| && HandlesKey(steps[n], k)
  }

  lemma HandledOneMore(steps: seq<Step>, m: nat, k: string)
    requires m < |steps|
    ensures HandledSince(steps, m, k) <==>
            HandledSince(steps[..|steps| - 1], m, k) || HandlesKey(steps[|steps| - 1], k)
  {
    var before := steps[..|steps| - 1];
    assert forall i :: 0 <= i < |before| ==> before[i] == steps[i];
  }

  lemma {:induction false} EventsOf(cfg: Config, steps: seq<Step>, m: nat, k: string)
    requires Valid(cfg, steps) && m <= |steps|
    ensures |Exec(cfg, steps[..m]).events| <= |Exec(cfg, steps).events|
    ensures HasEvent(Exec(cfg, steps).events, |Exec(cfg, steps[..m]).events|, k) <==> HandledSince(steps, m, k)
  {
    if m == |steps| {
      assert steps[..m] == steps;
    } else {
      var before := steps[..|steps| - 1];
      assert before[..m] == steps[..m];
      EventsOf(cfg, before, m, k);
      EventsOneMore(cfg, Exec(cfg, before), steps[|steps| - 1], |Exec(cfg, steps[..m]).events|, k);
      HandledOneMore(steps, m, k);
    }
  }

  /** In a clean stretch of a run, a key is unstained from its first event on. */
  lemma {:induction false} CleanSince(cfg: Config, steps: seq<Step>, m: nat, n: nat, k: string)
    requires Valid(cfg, steps) && m <= n < |steps| && CleanFrom(cfg, steps, m, k) && HandlesKey(steps[n], k)
    ensures k !in Exec(cfg, steps).stained
  {
    CleanBefore(cfg, steps, m, k);
    if n < |steps| - 1 {
      CleanSince(cfg, steps[..|steps| - 1], m, n, k);
    }
    CleanStep(cfg, steps, m, k);
  }

  /** With no overlap and no drop for a key over a whole run, it is not stained. */
  lemma UnstainedWhen(cfg: Config, steps: seq<Step>, k: string)
    requires Valid(cfg, steps) && NoOverlap(cfg, steps, k) && NothingDropped(Exec(cfg, steps), k)
    ensures k !in Exec(cfg, steps).stained
  {
    assert steps[..0] == [];
    CleanIsUnstained(cfg, steps, 0, k);
  }

  /**
   * With no overlap and no drop for a key, reading through the buffer is replaying the events, at every moment
   * of every run.
   */
  lemma {:induction false} CoalescingAgrees(cfg: Config, steps: seq<Step>, init: Store, k: string)
    requires Valid(cfg, steps) && NoOverlap(cfg, steps, k) && NothingDropped(Exec(cfg, steps), k)
    ensures View(Exec(cfg, steps), init, k) == Lookup(Replay(Exec(cfg, steps).events, init), k)
  {
    UnstainedWhen(cfg, steps, k);
    CoalescingAgreesWithReplay(cfg, steps, init, k);
  }

  // ----- Shutdown -----

  lemma {:induction false} ReturnedStays(cfg: Config, steps: seq<Step>, more: seq<Step>)
    requires Valid(cfg, steps + more) && Exec(cfg, steps).run.Returned?
    ensures var s := Exec(cfg, steps); var s' := Exec(cfg, steps + more);
            s'.run.Returned? && s'.pending == map[] && s'.events == s.events && s'.enqueued == s.enqueued
  {
    if more == [] {
      assert steps + more == steps;
      BasicAlways(cfg, steps);
    } else {
      var all := steps + more;
      var n := |all| - 1;
      assert all[..n] == steps + more[..|more| - 1];
      ReturnedStays(cfg, steps, more[..|more| - 1]);
      BasicAlways(cfg, all[..n]);
      BasicAlways(cfg, all);
      StepShape(cfg, Exec(cfg, all[..n]), all[n]);
    }
  }

  /**
   Once Run has returned nothing is pending. If no thread holds a payload and no key is stained, the
   payloads the channel accepted build exactly the store that direct replay of every handled event builds.
   */
  lemma ShutdownComplete(cfg: Config, steps: seq<Step>, init: Store)
    requires Valid(cfg, steps) && Exec(cfg, steps).run.Returned?
    ensures Exec(cfg, steps).pending == map[]
    ensures Exec(cfg, steps).flight == map[] && Exec(cfg, steps).stained == {} ==>
              Built(Exec(cfg, steps), init) == Replay(Exec(cfg, steps).events, init)
  {
    var s := Exec(cfg, steps);
    BasicAlways(cfg, steps);
    if s.flight == map[] && s.stained == {} {
      forall k ensures Lookup(Built(s, init), k) == Lookup(Replay(s.events, init), k) {
        CoalescingAgreesWithReplay(cfg, steps, init, k);
      }
      StoresAgree(Built(s, init), Replay(s.events, init));
    }
  }
}
