/**
 When a newer event can lose. An event handled while an older payload for its key is in flight races
 with that payload. It prevails in every continuation exactly when no payload in flight for its key
 says otherwise; and if one does, there is a run in which nothing is dropped and the older one prevails.
 */
module Overlap {
  import opened Metadata
  import opened Downstream
  import opened Pending
  import opened Machine
  import opened Runs
  import opened Coherence
  import opened Ledger
  import opened Protocol

  function HandleStep(e: Event): Step {
    match e
    case Upsert(c) => HandleUpsert(c)
    case Delete(id) => HandleDelete(id)
  }

  // ----- When the newer event prevails -----

  /** Wherever the key is, it is on its way to `v`, or the payloads since position `from` have left it there. */
  ghost predicate Heads(s: State, from: nat, st: Store, k: string, v: Option<Change>) {
    && from <= |s.enqueued|
    && (k in s.pending ==> v == Some(s.pending[k].change))
    && (forall h :: Carries(s.flight, h, k) ==> Effect(s.flight[h].payload, k) == v)
    && (k !in s.pending && !Touched(s.flight, k) ==> Lookup(BuiltFrom(s, from, st), k) == v)
  }

  /** Every payload in flight for the key of the event agrees with it. */
  ghost predicate Unopposed(s: State, e: Event) {
    forall h :: Carries(s.flight, h, e.Key()) ==> Effect(s.flight[h].payload, e.Key()) == LeftBy(e)
  }

  lemma HeadsBegins(cfg: Config, s: State, e: Event, from: nat, st: Store)
    requires Basic(s) && s.run.Selecting? && Unopposed(s, e) && from <= |s.enqueued|
    ensures Heads(Do(cfg, s, HandleStep(e)), from, st, e.Key(), LeftBy(e))
  {
    if e.Delete? {
      DeleteInFlight(s, e.id, e.id);
      assert Carries(Deleted(s, e.id).flight, RUN, e.id);
    }
  }

  lemma HeadsHandled(cfg: Config, s: State, step: Step, from: nat, st: Store, k: string, v: Option<Change>)
    requires Basic(s) && Heads(s, from, st, k, v) && Enabled(cfg, s, step) && Handles(step) && HandledKey(step) != k
    ensures Heads(Do(cfg, s, step), from, st, k, v)
  {
    if step.HandleDelete? {
      DeleteInFlight(s, step.id, k);
    }
  }

  lemma HeadsTaken(s: State, h: int, order: seq<string>, from: nat, st: Store, k: string, v: Option<Change>)
    requires Basic(s) && Heads(s, from, st, k, v) && h !in s.flight
    requires Enumerates(order, set k | k in order) && forall k :: k in order ==> k in s.pending
    ensures Heads(Take(s, h, order), from, st, k, v)
  {
    TakenFlight(s, h, order, k);
    if k in order {
      assert Carries(Take(s, h, order).flight, h, k);
    }
  }

  lemma HeadsEmitted(s: State, h: int, from: nat, st: Store, k: string, v: Option<Change>)
    requires Heads(s, from, st, k, v) && h in s.flight
    requires !Accepts(s) ==> k !in Touches(s.flight[h].payload)
    ensures Heads(Emit(s, h), from, st, k, v)
  {
    if Accepts(s) {
      BuiltFromAfter(s, Emit(s, h), s.flight[h], from, st, k);
    }
    assert forall g :: Carries(Emit(s, h).flight, g, k) <==> Carries(s.flight, g, k) && g != h;
  }

  lemma HeadsQuiet(s: State, s': State, from: nat, st: Store, k: string, v: Option<Change>)
    requires Heads(s, from, st, k, v) && Quiet(s, s')
    ensures Heads(s', from, st, k, v)
  {
  }

  lemma HeadsStep(cfg: Config, s: State, step: Step, from: nat, st: Store, k: string, v: Option<Change>)
    requires Basic(s) && Heads(s, from, st, k, v) && Enabled(cfg, s, step) && !HandlesKey(step, k)
    requires Emits(step) && !Accepts(s) ==> k !in Touches(s.flight[Holder(step)].payload)
    ensures Heads(Do(cfg, s, step), from, st, k, v)
  {
    if Handles(step) {
      HeadsHandled(cfg, s, step, from, st, k, v);
    } else {
      StepShape(cfg, s, step);
      if Takes(step) {
        HolderFree(cfg, s, step);
        HeadsTaken(s, Holder(step), step.order, from, st, k, v);
      } else if Emits(step) {
        HeadsEmitted(s, Holder(step), from, st, k, v);
      }
      HeadsQuiet(Core(cfg, s, step), Do(cfg, s, step), from, st, k, v);
    }
  }

  lemma {:induction false} HeadsAlong(cfg: Config, all: seq<Step>, m: nat, e: Event, from: nat, st: Store)
    requires Valid(cfg, all) && m < |all| && all[m] == HandleStep(e) && Unopposed(Exec(cfg, all[..m]), e)
    requires forall n :: m < n < |all| ==> !HandlesKey(all[n], e.Key())
    requires from <= |Exec(cfg, all[..m]).enqueued|
    requires NothingDroppedFrom(Exec(cfg, all), |Exec(cfg, all[..m]).dropped|, e.Key())
    ensures Heads(Exec(cfg, all), from, st, e.Key(), LeftBy(e))
  {
    var n := |all| - 1;
    var s := Exec(cfg, all[..n]);
    BasicAlways(cfg, all[..n]);
    if m == n {
      HeadsBegins(cfg, s, e, from, st);
    } else {
      assert all[..n][..m] == all[..m];
      DroppedPrefix(cfg, all[..n], m);
      DroppedOneMore(cfg, s, all[n], |Exec(cfg, all[..m]).dropped|, e.Key());
      HeadsAlong(cfg, all[..n], m, e, from, st);
      HeadsStep(cfg, s, all[n], from, st, e.Key(), LeftBy(e));
    }
  }

  // ----- A key that rests -----

  /** Nothing of the key is on its way. */
  ghost predicate AtRest(s: State, k: string) {
    k !in s.pending && !Touched(s.flight, k)
  }

  lemma RestStep(cfg: Config, s: State, step: Step, k: string)
    requires Basic(s) && AtRest(s, k) && Enabled(cfg, s, step) && !HandlesKey(step, k)
    ensures AtRest(Do(cfg, s, step), k)
  {
    StepShape(cfg, s, step);
    assert forall h :: !Carries(s.flight, h, k);
    if step.HandleDelete? {
      DeleteInFlight(s, step.id, k);
    } else if Takes(step) {
      HolderFree(cfg, s, step);
      TakenFlight(s, Holder(step), step.order, k);
    } else if Emits(step) {
      assert forall g :: Carries(Emit(s, Holder(step)).flight, g, k) ==> Carries(s.flight, g, k);
    }
  }

  /** A key at rest stays at rest, and no payload touches what a store has for it, until the key's next event. */
  lemma {:induction false} RestKept(cfg: Config, steps: seq<Step>, m: nat, st: Store, k: string)
    requires Valid(cfg, steps) && m <= |steps| && AtRest(Exec(cfg, steps[..m]), k)
    requires forall n :: m <= n < |steps| ==> !HandlesKey(steps[n], k)
    ensures AtRest(Exec(cfg, steps), k)
    ensures Heads(Exec(cfg, steps), |Exec(cfg, steps[..m]).enqueued|, st, k, Lookup(st, k))
  {
    if m == |steps| {
      assert steps[..m] == steps;
      BuiltFromEnds(Exec(cfg, steps), st);
      assert forall h :: !Carries(Exec(cfg, steps).flight, h, k);
    } else {
      var n := |steps| - 1;
      var s := Exec(cfg, steps[..n]);
      assert steps[..n][..m] == steps[..m];
      RestKept(cfg, steps[..n], m, st, k);
      BasicAlways(cfg, steps[..n]);
      RestStep(cfg, s, steps[n], k);
      assert Emits(steps[n]) ==> !Carries(s.flight, Holder(steps[n]), k);
      HeadsStep(cfg, s, steps[n], |Exec(cfg, steps[..m]).enqueued|, st, k, Lookup(st, k));
    }
  }

  /**
   An event that met no opposition, was the last of its key, and had no payload dropped since, is what the
   payloads enqueued since leave at its key, over any store, as soon as the key is at rest.
   */
  lemma LastEventBuilds(cfg: Config, all: seq<Step>, m: nat, e: Event, from: nat, st: Store)
    requires Valid(cfg, all) && m < |all| && all[m] == HandleStep(e) && Unopposed(Exec(cfg, all[..m]), e)
    requires forall n :: m < n < |all| ==> !HandlesKey(all[n], e.Key())
    requires from <= |Exec(cfg, all[..m]).enqueued| && AtRest(Exec(cfg, all), e.Key())
    requires NothingDroppedFrom(Exec(cfg, all), |Exec(cfg, all[..m]).dropped|, e.Key())
    ensures Lookup(BuiltFrom(Exec(cfg, all), from, st), e.Key()) == LeftBy(e)
  {
    HeadsAlong(cfg, all, m, e, from, st);
  }

  /**
   A run that goes on from `steps` by handling `e`, handles no other event of that key and drops nothing
   for it, and ends with the key at rest.
   */
  ghost predicate FollowUp(cfg: Config, steps: seq<Step>, e: Event, all: seq<Step>) {
    && Valid(cfg, all) && steps + [HandleStep(e)] <= all
    && (forall n :: |steps| < n < |all| ==> !HandlesKey(all[n], e.Key()))
    && NothingDroppedFrom(Exec(cfg, all), |Exec(cfg, steps).dropped|, e.Key())
    && AtRest(Exec(cfg, all), e.Key())
  }

  /** However the run goes on, the event is what the key is left with downstream. */
  ghost predicate Prevails(cfg: Config, steps: seq<Step>, e: Event) {
    forall all, init: Store :: FollowUp(cfg, steps, e, all) ==>
      Lookup(Built(Exec(cfg, all), init), e.Key()) == LeftBy(e)
  }

  lemma UnopposedPrevails(cfg: Config, steps: seq<Step>, e: Event)
    requires Valid(cfg, steps) && Unopposed(Exec(cfg, steps), e)
    ensures Prevails(cfg, steps, e)
  {
    forall all, init: Store | FollowUp(cfg, steps, e, all)
      ensures Lookup(Built(Exec(cfg, all), init), e.Key()) == LeftBy(e)
    {
      assert all[|steps|] == (steps + [HandleStep(e)])[|steps|];
      assert all[..|steps|] == steps;
      LastEventBuilds(cfg, all, |steps|, e, 0, init);
      BuiltFromEnds(Exec(cfg, all), init);
    }
  }

  // ----- When it can lose -----

  /** `more` goes on from `steps`, and handles nothing on the way. */
  predicate GoesOn(steps: seq<Step>, more: seq<Step>) {
    steps <= more && forall n :: |steps| <= n < |more| ==> !Handles(more[n])
  }

  lemma GoesOnBy(steps: seq<Step>, step: Step)
    requires !Handles(step)
    ensures GoesOn(steps, steps + [step])
  {
  }

  lemma GoesOnFurther(steps: seq<Step>, middle: seq<Step>, more: seq<Step>)
    requires GoesOn(steps, middle) && GoesOn(middle, more)
    ensures GoesOn(steps, more)
  {
    forall n | |steps| <= n < |more| ensures !Handles(more[n]) {
      if n < |middle| {
        assert more[n] == middle[n];
      }
    }
  }

  ghost predicate CaughtUp(s: State, r: State) {
    r == s.(chan := [], received := s.received + s.chan)
  }

  lemma CaughtUpOne(cfg: Config, s: State, r: State)
    requires s.chan != [] && CaughtUp(Do(cfg, s, Receive), r)
    ensures CaughtUp(s, r)
  {
    assert s.received + [s.chan[0]] + s.chan[1..] == s.received + s.chan;
  }

  /** The sender can always catch up. */
  lemma {:induction false} Drain(cfg: Config, steps: seq<Step>) returns (more: seq<Step>)
    requires Valid(cfg, steps)
    ensures Valid(cfg, more) && GoesOn(steps, more) && CaughtUp(Exec(cfg, steps), Exec(cfg, more))
    decreases |Exec(cfg, steps).chan|
  {
    var s := Exec(cfg, steps);
    if s.chan == [] {
      more := steps;
    } else {
      Extend(cfg, steps, Receive);
      more := Drain(cfg, steps + [Receive]);
      GoesOnBy(steps, Receive);
      GoesOnFurther(steps, steps + [Receive], more);
      CaughtUpOne(cfg, s, Exec(cfg, more));
    }
  }

  /** The buffer's table, history of events and losses have not changed. */
  ghost predicate SameSoFar(s: State, r: State) {
    r.pending == s.pending && r.events == s.events && r.dropped == s.dropped && r.run == s.run
  }

  lemma OneEmits(cfg: Config, s: State, h: nat)
    requires Basic(s) && s.run.Selecting? && h in s.flight && s.chan == []
    ensures Enabled(cfg, s, CallbackEmit(h)) && Accepts(s)
    ensures var r := Do(cfg, s, CallbackEmit(h));
            SameSoFar(s, r) && r.flight == s.flight - {h} && r.enqueued == s.enqueued + [s.flight[h]]
  {
  }

  /** Sender and one callback: room is made, and the callback's payload goes in. */
  lemma DrainAndEmit(cfg: Config, steps: seq<Step>, h: nat) returns (more: seq<Step>)
    requires Valid(cfg, steps) && Exec(cfg, steps).run.Selecting? && h in Exec(cfg, steps).flight
    ensures Valid(cfg, more) && GoesOn(steps, more)
    ensures var s, r := Exec(cfg, steps), Exec(cfg, more);
            SameSoFar(s, r) && r.flight == s.flight - {h} && r.enqueued == s.enqueued + [s.flight[h]]
  {
    var drained := Drain(cfg, steps);
    BasicAlways(cfg, drained);
    OneEmits(cfg, Exec(cfg, drained), h);
    Extend(cfg, drained, CallbackEmit(h));
    more := drained + [CallbackEmit(h)];
    GoesOnBy(drained, CallbackEmit(h));
    GoesOnFurther(steps, drained, more);
  }

  lemma HoldersAreCallbacks(s: State)
    requires Basic(s) && s.run.Selecting?
    ensures forall h :: h in s.flight ==> h >= 0
  {
    assert FlightHolds(s);
    forall h | h in s.flight ensures h >= 0 {
      assert h != RUN;
    }
  }

  function Only(flight: map<int, Parcel>, t: int): map<int, Parcel> {
    map h | h in flight && h == t :: flight[h]
  }

  lemma OnlyOne(flight: map<int, Parcel>, t: int)
    requires t in flight
    ensures t in Only(flight, t) && Only(flight, t)[t] == flight[t] && Only(flight, t) - {t} == map[]
  {
  }

  lemma OneFewer(flight: map<int, Parcel>, h: int, t: int)
    requires h in flight && h != t
    ensures |flight - {h}| < |flight| && Only(flight - {h}, t) == Only(flight, t)
  {
    assert (flight - {h}).Keys == flight.Keys - {h};
    assert |flight.Keys - {h}| == |flight.Keys| - 1;
    assert |(flight - {h}).Keys| == |flight - {h}| && |flight.Keys| == |flight|;
  }

  /** Every callback but `t` emits what it holds. */
  lemma {:induction false} EmitAllBut(cfg: Config, steps: seq<Step>, t: int) returns (more: seq<Step>)
    requires Valid(cfg, steps) && Exec(cfg, steps).run.Selecting?
    ensures Valid(cfg, more) && GoesOn(steps, more)
    ensures SameSoFar(Exec(cfg, steps), Exec(cfg, more))
    ensures Exec(cfg, more).flight == Only(Exec(cfg, steps).flight, t)
    decreases |Exec(cfg, steps).flight|
  {
    var flight := Exec(cfg, steps).flight;
    if h :| h in flight && h != t {
      BasicAlways(cfg, steps);
      HoldersAreCallbacks(Exec(cfg, steps));
      var next := DrainAndEmit(cfg, steps, h);
      OneFewer(flight, h, t);
      more := EmitAllBut(cfg, next, t);
      GoesOnFurther(steps, next, more);
    } else {
      more := steps;
      assert Only(flight, t) == flight;
    }
  }

  /** After a tick took the settled change, the channel has it. */
  lemma TickDelivers(cfg: Config, s: State, order: seq<string>, k: string)
    requires Basic(s) && s.run.Selecting? && Enumerates(order, ReadyKeys(s.pending)) && k in order && s.chan == []
    ensures Enabled(cfg, s, Tick(order)) && Enabled(cfg, Do(cfg, s, Tick(order)), RunEmit)
    ensures var r := Do(cfg, Do(cfg, s, Tick(order)), RunEmit);
            r.run.Selecting? && k !in r.pending && r.events == s.events && r.flight == s.flight &&
              r.dropped == s.dropped
  {
    var taken := Do(cfg, s, Tick(order));
    assert taken.flight - {RUN} == s.flight;
  }

  lemma SettledKeeps(cfg: Config, s: State, c: Change)
    requires s.run.Selecting?
    ensures var r := Settled(cfg, s, c);
            r.flight == s.flight && r.run == s.run && r.dropped == s.dropped && r.events == s.events + [Upsert(c)] &&
            c.Key() in ReadyKeys(r.pending)
  {
  }

  /** The event has been handled and delivered, and whatever was in flight still is. */
  ghost predicate Overtaken(cfg: Config, steps: seq<Step>, e: Event, more: seq<Step>) {
    && Valid(cfg, more) && GoesOn(steps + [HandleStep(e)], more)
    && var s, r := Exec(cfg, steps), Exec(cfg, more);
       r.run.Selecting? && e.Key() !in r.pending && r.flight == s.flight && r.events == s.events + [e] &&
         r.dropped == s.dropped
  }

  lemma SettleGoesOn(cfg: Config, steps: seq<Step>, c: Change)
    ensures GoesOn(steps + [HandleUpsert(c)], steps + Settle(cfg, Exec(cfg, steps), c))
  {
  }

  /** A settled change is taken by a tick and delivered. */
  lemma DrainAndTick(cfg: Config, steps: seq<Step>, k: string) returns (more: seq<Step>)
    requires Valid(cfg, steps) && Exec(cfg, steps).run.Selecting? && k in ReadyKeys(Exec(cfg, steps).pending)
    ensures Valid(cfg, more) && GoesOn(steps, more)
    ensures var s, r := Exec(cfg, steps), Exec(cfg, more);
            r.run.Selecting? && k !in r.pending && r.events == s.events && r.flight == s.flight &&
              r.dropped == s.dropped
  {
    var drained := Drain(cfg, steps);
    more := TickRuns(cfg, drained, k);
    GoesOnFurther(steps, drained, more);
  }

  lemma TickRuns(cfg: Config, steps: seq<Step>, k: string) returns (more: seq<Step>)
    requires Valid(cfg, steps) && Exec(cfg, steps).run.Selecting? && Exec(cfg, steps).chan == []
    requires k in ReadyKeys(Exec(cfg, steps).pending)
    ensures Valid(cfg, more) && GoesOn(steps, more)
    ensures var s, r := Exec(cfg, steps), Exec(cfg, more);
            r.run.Selecting? && k !in r.pending && r.events == s.events && r.flight == s.flight &&
              r.dropped == s.dropped
  {
    BasicAlways(cfg, steps);
    var order := OrderExists(ReadyKeys(Exec(cfg, steps).pending));
    TickDelivers(cfg, Exec(cfg, steps), order, k);
    Extend2(cfg, steps, Tick(order), RunEmit);
    more := steps + [Tick(order), RunEmit];
  }

  lemma UpsertOvertakes(cfg: Config, steps: seq<Step>, c: Change) returns (more: seq<Step>)
    requires Valid(cfg, steps) && Exec(cfg, steps).run.Selecting?
    ensures Overtaken(cfg, steps, Upsert(c), more)
  {
    var s := Exec(cfg, steps);
    var settled := steps + Settle(cfg, s, c);
    SettleRuns(cfg, steps, c);
    SettledKeeps(cfg, s, c);
    SettleGoesOn(cfg, steps, c);
    more := DrainAndTick(cfg, settled, c.Key());
    GoesOnFurther(steps + [HandleUpsert(c)], settled, more);
  }

  lemma DeleteBegins(cfg: Config, s: State, id: string)
    requires Basic(s) && s.run.Selecting?
    ensures Enabled(cfg, s, HandleDelete(id))
    ensures var d := Do(cfg, s, HandleDelete(id));
            && d.run.Emitting? && !d.closed && RUN in d.flight && id !in d.pending
            && d.events == s.events + [Delete(id)] && d.dropped == s.dropped && d.flight - {RUN} == s.flight
  {
  }

  /** From the delete to its delivery, with the sender catching up between the two. */
  lemma DeleteDelivers(cfg: Config, s: State, id: string, r: State)
    requires Basic(s) && s.run.Selecting? && CaughtUp(Do(cfg, s, HandleDelete(id)), r)
    ensures Enabled(cfg, r, RunEmit)
    ensures var e := Do(cfg, r, RunEmit);
            && e.run.Selecting? && id !in e.pending && e.flight == s.flight
            && e.events == s.events + [Delete(id)] && e.dropped == s.dropped
  {
    DeleteBegins(cfg, s, id);
  }

  lemma DeleteOvertakes(cfg: Config, steps: seq<Step>, id: string) returns (more: seq<Step>)
    requires Valid(cfg, steps) && Exec(cfg, steps).run.Selecting?
    ensures Overtaken(cfg, steps, Delete(id), more)
  {
    BasicAlways(cfg, steps);
    var handled := steps + [HandleDelete(id)];
    Extend(cfg, steps, HandleDelete(id));
    var drained := Drain(cfg, handled);
    DeleteDelivers(cfg, Exec(cfg, steps), id, Exec(cfg, drained));
    Extend(cfg, drained, RunEmit);
    more := drained + [RunEmit];
    GoesOnBy(drained, RunEmit);
    GoesOnFurther(handled, drained, more);
  }

  lemma LateEmission(s: State, p: Parcel, r: State, k: string)
    requires r.enqueued == s.enqueued + [p] && k in Touches(p.payload)
    ensures forall init :: Lookup(Built(r, init), k) == Effect(p.payload, k)
  {
    forall init ensures Lookup(Built(r, init), k) == Effect(p.payload, k) {
      BuiltAfter(s, p, init, k);
    }
  }

  lemma LastEventReplayed(s: State, r: State, e: Event)
    requires r.events == s.events + [e]
    ensures forall init :: Lookup(Replay(r.events, init), e.Key()) == LeftBy(e)
  {
    forall init ensures Lookup(Replay(r.events, init), e.Key()) == LeftBy(e) {
      TruthAfter(s, e, init, e.Key());
    }
  }

  /** Once the event has been delivered, the others emit, and `t` last. */
  lemma EmitLast(cfg: Config, steps: seq<Step>, t: int, k: string) returns (more: seq<Step>)
    requires Valid(cfg, steps) && Exec(cfg, steps).run.Selecting? && Carries(Exec(cfg, steps).flight, t, k)
    ensures Valid(cfg, more) && GoesOn(steps, more)
    ensures SameSoFar(Exec(cfg, steps), Exec(cfg, more)) && Exec(cfg, more).flight == map[]
    ensures forall init :: Lookup(Built(Exec(cfg, more), init), k) == Effect(Exec(cfg, steps).flight[t].payload, k)
  {
    var s := Exec(cfg, steps);
    BasicAlways(cfg, steps);
    HoldersAreCallbacks(s);
    OnlyOne(s.flight, t);
    var p := s.flight[t];
    var alone := EmitAllBut(cfg, steps, t);
    more := DrainAndEmit(cfg, alone, t);
    GoesOnFurther(steps, alone, more);
    LateEmission(Exec(cfg, alone), p, Exec(cfg, more), k);
  }

  lemma GoesOnFollows(cfg: Config, steps: seq<Step>, e: Event, all: seq<Step>)
    requires Valid(cfg, all) && GoesOn(steps + [HandleStep(e)], all)
    requires Exec(cfg, all).dropped == Exec(cfg, steps).dropped
    requires e.Key() !in Exec(cfg, all).pending && Exec(cfg, all).flight == map[]
    ensures FollowUp(cfg, steps, e, all)
  {
  }

  /**
   Whenever a callback holds a payload for a key while Run is at its select, some continuation handles
   `e`, delivers it, and only then lets the callback emit: nothing is dropped, the run comes to rest, and
   the receiver is left with the older payload although `e` is the last event.
   */
  lemma {:induction false} OverlapCanLose(cfg: Config, steps: seq<Step>, t: int, e: Event) returns (more: seq<Step>)
    requires Valid(cfg, steps) && Exec(cfg, steps).run.Selecting? && Carries(Exec(cfg, steps).flight, t, e.Key())
    ensures FollowUp(cfg, steps, e, more)
    ensures var s, r := Exec(cfg, steps), Exec(cfg, more);
            r.events == s.events + [e] && r.dropped == s.dropped && r.flight == map[] && e.Key() !in r.pending
    ensures forall init :: Lookup(Replay(Exec(cfg, more).events, init), e.Key()) == LeftBy(e)
    ensures forall init ::
              Lookup(Built(Exec(cfg, more), init), e.Key()) == Effect(Exec(cfg, steps).flight[t].payload, e.Key())
  {
    var overtaken;
    match e {
      case Upsert(c) => overtaken := UpsertOvertakes(cfg, steps, c);
      case Delete(id) => overtaken := DeleteOvertakes(cfg, steps, id);
    }
    assert Overtaken(cfg, steps, e, overtaken);
    more := EmitLast(cfg, overtaken, t, e.Key());
    GoesOnFurther(steps + [HandleStep(e)], overtaken, more);
    GoesOnFollows(cfg, steps, e, more);
    LastEventReplayed(Exec(cfg, steps), Exec(cfg, more), e);
  }

  /** There is always a continuation that comes to rest. */
  lemma SomeFollowUp(cfg: Config, steps: seq<Step>, e: Event) returns (all: seq<Step>)
    requires Valid(cfg, steps) && Exec(cfg, steps).run.Selecting?
    ensures FollowUp(cfg, steps, e, all) && Exec(cfg, all).dropped == Exec(cfg, steps).dropped
  {
    var overtaken;
    match e {
      case Upsert(c) => overtaken := UpsertOvertakes(cfg, steps, c);
      case Delete(id) => overtaken := DeleteOvertakes(cfg, steps, id);
    }
    assert Overtaken(cfg, steps, e, overtaken);
    BasicAlways(cfg, overtaken);
    all := EmitAllBut(cfg, overtaken, RUN);
    assert Exec(cfg, all).flight == map[];
    GoesOnFurther(steps + [HandleStep(e)], overtaken, all);
    GoesOnFollows(cfg, steps, e, all);
  }

  // ----- Exactly when -----

  /**
   * An event handled at Run's select prevails in every continuation exactly when no payload in flight for its
   * key says otherwise.
   */
  lemma PrevailsExactlyWhen(cfg: Config, steps: seq<Step>, e: Event)
    requires Valid(cfg, steps) && Exec(cfg, steps).run.Selecting?
    ensures Prevails(cfg, steps, e) <==> Unopposed(Exec(cfg, steps), e)
  {
    if Unopposed(Exec(cfg, steps), e) {
      UnopposedPrevails(cfg, steps, e);
    } else {
      var t :| Carries(Exec(cfg, steps).flight, t, e.Key()) &&
        Effect(Exec(cfg, steps).flight[t].payload, e.Key()) != LeftBy(e);
      var all := OverlapCanLose(cfg, steps, t, e);
      assert Lookup(Built(Exec(cfg, all), map[]), e.Key()) != LeftBy(e);
    }
  }

  lemma DeletesHeldByRun(s: State, h: int)
    requires Books(s) && h in s.flight
    ensures s.flight[h].payload.deletes != [] ==> h == RUN
  {
    var p := s.flight[h];
    assert ParcelHolds(s.events, p) && AllStamped(s.fate, p.stamps, InFlight(h));
    if p.payload.deletes != [] {
      assert p.stamps[0] in p.stamps;
      assert FateHolds(s, p.stamps[0]);
    }
  }

  lemma CallbackHoldsUpserts(cfg: Config, steps: seq<Step>, h: int, k: string)
    requires Valid(cfg, steps) && Exec(cfg, steps).run.Selecting? && Carries(Exec(cfg, steps).flight, h, k)
    ensures Effect(Exec(cfg, steps).flight[h].payload, k).Some?
  {
    BasicAlways(cfg, steps);
    BooksAlways(cfg, steps);
    DeletesHeldByRun(Exec(cfg, steps), h);
  }

  /** A delete prevails exactly when no payload for its key is in flight. */
  lemma DeletePrevailsExactlyWhen(cfg: Config, steps: seq<Step>, k: string)
    requires Valid(cfg, steps) && Exec(cfg, steps).run.Selecting?
    ensures Prevails(cfg, steps, Delete(k)) <==> !Touched(Exec(cfg, steps).flight, k)
  {
    PrevailsExactlyWhen(cfg, steps, Delete(k));
    forall h | Carries(Exec(cfg, steps).flight, h, k) ensures Effect(Exec(cfg, steps).flight[h].payload, k).Some? {
      CallbackHoldsUpserts(cfg, steps, h, k);
    }
  }

  lemma AnotherChange(k: string, v: Option<Change>) returns (c: Change)
    ensures c.Key() == k && v != Some(c)
  {
    var one := ResourceInstance(k, "", "", "", "", "", NilMap, NilMap, "one");
    c := if v == Some(Resource(one)) then Resource(one.(createdAt := "other")) else Resource(one);
  }

  /** So every upsert of a key, whatever it carries, prevails exactly when no payload for the key is in flight. */
  lemma UpsertsPrevailExactlyWhen(cfg: Config, steps: seq<Step>, k: string)
    requires Valid(cfg, steps) && Exec(cfg, steps).run.Selecting?
    ensures (forall c: Change :: c.Key() == k ==> Prevails(cfg, steps, Upsert(c))) <==>
            !Touched(Exec(cfg, steps).flight, k)
  {
    var s := Exec(cfg, steps);
    if !Touched(s.flight, k) {
      forall c: Change | c.Key() == k ensures Prevails(cfg, steps, Upsert(c)) {
        PrevailsExactlyWhen(cfg, steps, Upsert(c));
      }
    } else {
      var t :| t in s.flight && Carries(s.flight, t, k);
      var c := AnotherChange(k, Effect(s.flight[t].payload, k));
      PrevailsExactlyWhen(cfg, steps, Upsert(c));
    }
  }

  // ----- Such states are reached -----

  /** Everything is ready, and there is enough of it for the marked callback to flush. */
  lemma ReadyToFlush(cfg: Config, s: State, c: Change, n: nat)
    requires Staged(s, c.Key(), n, 0) && n == Max(0, cfg.maxBatch - 1)
    ensures var r := Settled(cfg, s, c);
            && Untaken(r) && In(r, |s.events|, Marked) && ReadyKeys(r.pending) == r.pending.Keys
            && |ReadyKeys(r.pending)| >= cfg.maxBatch && c.Key() in r.pending && r.pending[c.Key()].change == c
  {
    UntakenSettled(cfg, s, c);
    TableSettled(cfg, s, c);
    var p := Settled(cfg, s, c).pending;
    assert ReadyKeys(p) == p.Keys && |p.Keys| == |p|;
  }

  lemma CountedReady(cfg: Config, s: State, t: nat)
    requires In(s, t, Marked) && |ReadyKeys(s.pending)| >= cfg.maxBatch
    ensures var r := Do(cfg, s, Count(t)); r == s.(callbacks := r.callbacks) && In(r, t, Flushing)
  {
  }

  /** A callback holds the change, it is the only thing left to do, and nothing has been enqueued or lost. */
  ghost predicate Held(s: State, t: nat, c: Change) {
    && s.run.Selecting? && In(s, t, Holding) && s.pending == map[]
    && s.enqueued == [] && s.dropped == [] && s.stained == {}
    && Carries(s.flight, t, c.Key()) && Effect(s.flight[t].payload, c.Key()) == Some(c)
  }

  lemma TakenHeld(cfg: Config, s: State, t: nat, order: seq<string>, c: Change)
    requires Basic(s) && Untaken(s) && In(s, t, Flushing) && ReadyKeys(s.pending) == s.pending.Keys
    requires Enumerates(order, ReadyKeys(s.pending)) && c.Key() in s.pending && s.pending[c.Key()].change == c
    ensures Held(Do(cfg, s, CallbackTake(t, order)), t, c)
  {
    assert (set k | k in order) == s.pending.Keys;
    TakenFlight(s, t, order, c.Key());
    var r := Do(cfg, s, CallbackTake(t, order));
    assert r.flight == Take(s, t, order).flight && r.pending == map[];
  }

  /** Whatever the configuration some callback comes to hold a given change while Run is at its select. */
  lemma {:induction false} HoldingReachable(cfg: Config, c: Change) returns (steps: seq<Step>, t: nat)
    ensures Valid(cfg, steps) && Held(Exec(cfg, steps), t, c)
  {
    var n := Max(0, cfg.maxBatch - 1);
    var before := ManyFinished(cfg, c.Key(), n);
    t := |Exec(cfg, before).events|;
    SettleRuns(cfg, before, c);
    ReadyToFlush(cfg, Exec(cfg, before), c, n);
    var settled := before + Settle(cfg, Exec(cfg, before), c);
    CountedReady(cfg, Exec(cfg, settled), t);
    Extend(cfg, settled, Count(t));
    steps := TakeHeld(cfg, settled + [Count(t)], t, c);
  }

  lemma TakeHeld(cfg: Config, steps: seq<Step>, t: nat, c: Change) returns (more: seq<Step>)
    requires Valid(cfg, steps)
    requires var s := Exec(cfg, steps);
             && Untaken(s) && In(s, t, Flushing) && ReadyKeys(s.pending) == s.pending.Keys
             && c.Key() in s.pending && s.pending[c.Key()].change == c
    ensures Valid(cfg, more) && Held(Exec(cfg, more), t, c)
  {
    var order := OrderExists(ReadyKeys(Exec(cfg, steps).pending));
    BasicAlways(cfg, steps);
    TakenHeld(cfg, Exec(cfg, steps), t, order, c);
    Extend(cfg, steps, CallbackTake(t, order));
    more := steps + [CallbackTake(t, order)];
  }

  /**
   * A run in which nothing is dropped, everything handled has been delivered, and a deleted key is still
   * downstream.
   */
  lemma SomeRunLoses(cfg: Config, c: Change) returns (steps: seq<Step>)
    ensures Valid(cfg, steps)
    ensures var s := Exec(cfg, steps); s.dropped == [] && s.flight == map[] && c.Key() !in s.pending
    ensures forall init :: Lookup(Replay(Exec(cfg, steps).events, init), c.Key()) == None
    ensures forall init :: Lookup(Built(Exec(cfg, steps), init), c.Key()) == Some(c)
  {
    var before, t := HoldingReachable(cfg, c);
    steps := OverlapCanLose(cfg, before, t, Delete(c.Key()));
  }
}
