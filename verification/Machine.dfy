/**
 A debounce buffer as an interleaved transition system. One step is one locked region, one timer
 expiry, one receive by the sender, or the passing of time. The Run goroutine and every timer
 callback are threads of their own, so a batch can be out of `pending` and not yet in the channel
 while other threads move.
 */
module Machine {
  import opened Downstream
  import opened Pending

  /**
   How generations are chosen: restarting per key (the instance buffer), from one counter for the
   buffer (the CRD buffer), or as the identity of the timer itself (the ideal, generation-free
   debouncer: a callback then matches only the entry it was armed for).
   */
  datatype Policy = PerKey | BufferWide | ByTimer

  datatype Config = Config(policy: Policy, window: int, interval: int, maxBatch: int)

  const CAPACITY: nat := 100

  /**
   * Where a timer and its callback are. `Marked` is about to count, `Flushing` is about to take, `Holding` is
   * about to emit.
   */
  datatype Phase = Armed | Stopped | Fired | Marked | Flushing | Holding | Finished

  datatype Callback = Callback(key: string, gen: nat, armedAt: int, phase: Phase)

  /** Where the Run goroutine is: at its select, emitting in the loop, emitting the final batch, closing, or gone. */
  datatype RunState = Selecting | Emitting | EmittingFinal | Closing | Returned

  /** A payload on its way to the channel, with the positions of the events it carries. */
  datatype Parcel = Parcel(payload: Payload, stamps: seq<nat>)

  /** What became of a handled event; positions are those of an event, a holder, or a log entry. */
  datatype Fate =
    | Waiting
    | InFlight(holder: int)
    | Enqueued(at: nat)
    | Dropped(at: nat)
    | Superseded(next: nat)
    | Cancelled(next: nat)

  /** Run's place in `flight`; a callback's place is its timer. */
  const RUN: int := -1

  datatype State = State(
    // the buffer's fields
    pending: Table, nextGen: nat, chan: seq<Payload>, closed: bool,
    // the threads
    run: RunState, callbacks: map<nat, Callback>, flight: map<int, Parcel>,
    // the clock
    now: int, lastTick: int,
    // history
    events: seq<Event>, enqueued: seq<Parcel>, dropped: seq<Parcel>, received: seq<Payload>,
    fate: map<nat, Fate>, stained: set<string>, closes: nat)

  const Init := State(map[], 0, [], false, Selecting, map[], map[], 0, 0, [], [], [], [], map[], {}, 0)

  datatype Step =
    | HandleUpsert(change: Change)
    | HandleDelete(id: string)
    | Tick(order: seq<string>)
    | RunEmit
    | Shutdown(order: seq<string>)
    | Close
    | Fire(timer: nat)
    | Mark(timer: nat)
    | Count(timer: nat)
    | CallbackTake(timer: nat, order: seq<string>)
    | CallbackEmit(timer: nat)
    | Receive
    | Elapse(duration: nat)

  // ----- Pieces of steps -----

  predicate Carries(flight: map<int, Parcel>, h: int, k: string) {
    h in flight && k in Touches(flight[h].payload)
  }

  predicate Touched(flight: map<int, Parcel>, k: string) {
    exists h | h in flight :: Carries(flight, h, k)
  }

  /**
   Keys whose latest event may fail to win downstream: it was handled while an older payload for
   the key was in flight, or a payload for the key was dropped since.
   */
  function Restain(s: State, k: string): set<string> {
    if Touched(s.flight, k) then s.stained + {k} else s.stained - {k}
  }

  /** Stop() keeps a timer from ever firing, unless it has fired already. */
  function StopTimer(callbacks: map<nat, Callback>, t: nat): map<nat, Callback> {
    if t in callbacks && callbacks[t].phase.Armed? then callbacks[t := callbacks[t].(phase := Stopped)] else callbacks
  }

  function StopEntry(s: State, k: string): map<nat, Callback> {
    if k in s.pending then StopTimer(s.callbacks, s.pending[k].timer) else s.callbacks
  }

  function StopAll(s: State): map<nat, Callback> {
    map t | t in s.callbacks ::
      var c := s.callbacks[t];
      if c.phase.Armed? && c.key in s.pending && s.pending[c.key].timer == t then c.(phase := Stopped) else c
  }

  function At(s: State, t: nat, phase: Phase): map<nat, Callback>
    requires t in s.callbacks
  {
    s.callbacks[t := s.callbacks[t].(phase := phase)]
  }

  function Move(fate: map<nat, Fate>, stamps: seq<nat>, f: Fate): map<nat, Fate> {
    map i | i in fate :: if i in stamps then f else fate[i]
  }

  function Retire(s: State, k: string, f: Fate): map<nat, Fate> {
    if k in s.pending then s.fate[s.pending[k].timer := f] else s.fate
  }

  function ChosenGen(policy: Policy, s: State, k: string): nat {
    match policy
    case PerKey => if k in s.pending then Successor(s.pending[k].gen) else 0
    case BufferWide => Successor(s.nextGen)
    case ByTimer => |s.events|
  }

  /** The locked region of a flush: the keys leave the table and their changes go in flight. */
  function Take(s: State, holder: int, order: seq<string>): State
    requires forall k :: k in order ==> k in s.pending
  {
    if order == [] then s
    else
      var stamps := Stamps(s.pending, order);
      s.(pending := s.pending - (set k | k in order),
         flight := s.flight[holder := Parcel(Payload(Collect(s.pending, order), []), stamps)],
         fate := Move(s.fate, stamps, InFlight(holder)))
  }

  predicate Accepts(s: State) {
    !s.closed && |s.chan| < CAPACITY
  }

  /** emitPayload: the channel takes the payload, or it is lost. */
  function Emit(s: State, holder: int): State
    requires holder in s.flight
  {
    var parcel := s.flight[holder];
    if Accepts(s) then
      s.(flight := s.flight - {holder},
         chan := s.chan + [parcel.payload],
         enqueued := s.enqueued + [parcel],
         fate := Move(s.fate, parcel.stamps, Enqueued(|s.enqueued|)))
    else
      s.(flight := s.flight - {holder},
         dropped := s.dropped + [parcel],
         stained := s.stained + Touches(parcel.payload),
         fate := Move(s.fate, parcel.stamps, Dropped(|s.dropped|)))
  }

  function Upserted(cfg: Config, s: State, c: Change): State {
    var k := c.Key();
    var t := |s.events|;
    var gen := ChosenGen(cfg.policy, s, k);
    s.(pending := s.pending[k := PendingChange(c, t, false, gen)],
       nextGen := if cfg.policy.BufferWide? then Successor(s.nextGen) else s.nextGen,
       callbacks := StopEntry(s, k)[t := Callback(k, gen, s.now, Armed)],
       events := s.events + [Upsert(c)],
       stained := Restain(s, k),
       fate := Retire(s, k, Superseded(t))[t := Waiting])
  }

  function Deleted(s: State, k: string): State {
    s.(pending := s.pending - {k},
       callbacks := StopEntry(s, k),
       run := Emitting,
       flight := s.flight[RUN := Parcel(Payload([], [k]), [|s.events|])],
       events := s.events + [Delete(k)],
       stained := Restain(s, k),
       fate := Retire(s, k, Cancelled(|s.events|))[|s.events| := InFlight(RUN)])
  }

  // ----- The steps -----

  predicate In(s: State, t: nat, phase: Phase) {
    t in s.callbacks && s.callbacks[t].phase == phase
  }

  predicate Enabled(cfg: Config, s: State, step: Step) {
    match step
    case HandleUpsert(_) => s.run.Selecting?
    case HandleDelete(_) => s.run.Selecting?
    case Tick(order) => s.run.Selecting? && Enumerates(order, ReadyKeys(s.pending))
    case RunEmit => (s.run.Emitting? || s.run.EmittingFinal?) && RUN in s.flight
    case Shutdown(order) => s.run.Selecting? && Enumerates(order, s.pending.Keys)
    case Close => s.run.Closing?
    case Fire(t) => In(s, t, Armed) && s.callbacks[t].armedAt + cfg.window <= s.now
    case Mark(t) => In(s, t, Fired)
    case Count(t) => In(s, t, Marked)
    case CallbackTake(t, order) => In(s, t, Flushing) && Enumerates(order, ReadyKeys(s.pending))
    case CallbackEmit(t) => In(s, t, Holding) && t in s.flight
    case Receive => s.chan != []
    case Elapse(_) => true
  }

  function Do(cfg: Config, s: State, step: Step): State
    requires Enabled(cfg, s, step)
  {
    match step
    case HandleUpsert(c) => Upserted(cfg, s, c)
    case HandleDelete(k) => Deleted(s, k)
    case Tick(order) =>
      Take(s, RUN, order).(run := if order == [] then Selecting else Emitting, lastTick := s.now)
    case RunEmit =>
      Emit(s, RUN).(run := if s.run.Emitting? then Selecting else Closing)
    case Shutdown(order) =>
      Take(s, RUN, order).(run := if order == [] then Closing else EmittingFinal, callbacks := StopAll(s))
    case Close => s.(run := Returned, closed := true, closes := if s.closed then s.closes else s.closes + 1)
    case Fire(t) => s.(callbacks := At(s, t, Fired))
    case Mark(t) =>
      s.(pending := MarkReady(s.pending, s.callbacks[t].key, s.callbacks[t].gen), callbacks := At(s, t, Marked))
    case Count(t) =>
      s.(callbacks := At(s, t, if |ReadyKeys(s.pending)| >= cfg.maxBatch then Flushing else Finished))
    case CallbackTake(t, order) =>
      Take(s, t, order).(callbacks := At(s, t, if order == [] then Finished else Holding))
    case CallbackEmit(t) => Emit(s, t).(callbacks := At(s, t, Finished))
    case Receive => s.(chan := s.chan[1..], received := s.received + [s.chan[0]])
    case Elapse(d) => s.(now := s.now + d)
  }

  // ----- Runs -----

  /** The state after a run; a step that is not enabled would change nothing. */
  ghost function Exec(cfg: Config, steps: seq<Step>): State {
    if steps == [] then Init
    else
      var s := Exec(cfg, steps[..|steps| - 1]);
      if Enabled(cfg, s, steps[|steps| - 1]) then Do(cfg, s, steps[|steps| - 1]) else s
  }

  /** Every step of the run was enabled when it was taken. */
  ghost predicate Valid(cfg: Config, steps: seq<Step>) {
    steps == [] ||
    (Valid(cfg, steps[..|steps| - 1]) && Enabled(cfg, Exec(cfg, steps[..|steps| - 1]), steps[|steps| - 1]))
  }

  lemma Extend(cfg: Config, steps: seq<Step>, step: Step)
    requires Valid(cfg, steps) && Enabled(cfg, Exec(cfg, steps), step)
    ensures Valid(cfg, steps + [step]) && Exec(cfg, steps + [step]) == Do(cfg, Exec(cfg, steps), step)
  {
    assert (steps + [step])[..|steps|] == steps;
  }

  lemma Unfold(cfg: Config, steps: seq<Step>, step: Step)
    requires Valid(cfg, steps + [step])
    ensures Valid(cfg, steps) && Enabled(cfg, Exec(cfg, steps), step)
    ensures Exec(cfg, steps + [step]) == Do(cfg, Exec(cfg, steps), step)
  {
    assert (steps + [step])[..|steps|] == steps;
  }

  lemma {:induction false} ValidPrefix(cfg: Config, steps: seq<Step>, n: nat)
    requires Valid(cfg, steps) && n <= |steps|
    ensures Valid(cfg, steps[..n])
  {
    if n < |steps| {
      ValidPrefix(cfg, steps[..|steps| - 1], n);
      assert steps[..|steps| - 1][..n] == steps[..n];
    } else {
      assert steps[..n] == steps;
    }
  }

  // ----- The basic invariant -----

  /** An entry is the last event of its key, armed its own timer, and shares that timer's generation. */
  ghost predicate EntryHolds(s: State, k: string)
    requires k in s.pending
  {
    var e := s.pending[k];
    && e.change.Key() == k
    && e.timer in s.callbacks && s.callbacks[e.timer].gen == e.gen
    && e.timer < |s.events| && s.events[e.timer] == Upsert(e.change)
    && (forall j :: e.timer < j < |s.events| ==> s.events[j].Key() != k)
    && (!e.ready ==> s.callbacks[e.timer].phase.Armed? || s.callbacks[e.timer].phase.Fired?)
  }

  ghost predicate EntriesHold(s: State) {
    forall k :: k in s.pending ==> EntryHolds(s, k)
  }

  /** One timer per handled upsert. */
  ghost predicate TimersHold(s: State) {
    && (forall t :: t in s.callbacks ==>
          t < |s.events| && s.events[t].Upsert? && s.events[t].Key() == s.callbacks[t].key)
    && (forall t: nat :: t < |s.events| && s.events[t].Upsert? ==> t in s.callbacks)
  }

  /** A thread is in flight exactly while its control state says it holds a payload. */
  ghost predicate FlightHolds(s: State) {
    && (RUN in s.flight <==> s.run.Emitting? || s.run.EmittingFinal?)
    && (forall h: int :: h in s.flight && h != RUN ==> h >= 0 && In(s, h, Holding))
    && (forall t :: In(s, t, Holding) ==> t in s.flight)
  }

  ghost predicate ControlHolds(s: State) {
    && (s.closed <==> s.run.Returned?)
    && (s.run.EmittingFinal? || s.run.Closing? || s.run.Returned? ==> s.pending == map[])
  }

  ghost predicate Basic(s: State) {
    EntriesHold(s) && TimersHold(s) && FlightHolds(s) && ControlHolds(s)
  }

  predicate Handles(step: Step) {
    step.HandleUpsert? || step.HandleDelete?
  }

  predicate Takes(step: Step) {
    step.Tick? || step.Shutdown? || step.CallbackTake?
  }

  predicate Emits(step: Step) {
    step.RunEmit? || step.CallbackEmit?
  }

  function Holder(step: Step): int {
    if step.CallbackTake? || step.CallbackEmit? then step.timer else RUN
  }

  /** The part of a step that moves events and payloads; what is left only moves threads and the clock. */
  ghost function Core(cfg: Config, s: State, step: Step): State
    requires Enabled(cfg, s, step)
  {
    match step
    case HandleUpsert(c) => Upserted(cfg, s, c)
    case HandleDelete(k) => Deleted(s, k)
    case Tick(order) => Take(s, RUN, order)
    case Shutdown(order) => Take(s, RUN, order)
    case CallbackTake(t, order) => Take(s, t, order)
    case RunEmit => Emit(s, RUN)
    case CallbackEmit(t) => Emit(s, t)
    case _ => s
  }

  ghost predicate SameEntry(e: PendingChange, e': PendingChange) {
    e' == e.(ready := e'.ready) && (e.ready ==> e'.ready)
  }

  ghost predicate SameTimer(c: Callback, c': Callback) {
    c' == c.(phase := c'.phase)
  }

  /** No event was handled and no payload moved; entries may have become ready and threads may have moved on. */
  ghost predicate Quiet(s: State, s': State) {
    && s'.pending.Keys == s.pending.Keys && (forall k :: k in s.pending ==> SameEntry(s.pending[k], s'.pending[k]))
    && s'.callbacks.Keys == s.callbacks.Keys &&
       (forall t :: t in s.callbacks ==> SameTimer(s.callbacks[t], s'.callbacks[t]))
    && s'.nextGen == s.nextGen && s'.flight == s.flight && s'.events == s.events
    && s'.enqueued == s.enqueued && s'.dropped == s.dropped
    && s'.fate == s.fate && s'.stained == s.stained
  }

  lemma ShapeOfQuiet(cfg: Config, s: State, step: Step)
    requires Enabled(cfg, s, step) && !Handles(step) && !Takes(step) && !Emits(step)
    ensures Quiet(s, Do(cfg, s, step))
  {
  }

  lemma ShapeOfMove(cfg: Config, s: State, step: Step)
    requires Enabled(cfg, s, step) && (Handles(step) || Takes(step) || Emits(step))
    ensures Quiet(Core(cfg, s, step), Do(cfg, s, step))
  {
  }

  lemma StepShape(cfg: Config, s: State, step: Step)
    requires Enabled(cfg, s, step)
    ensures Quiet(Core(cfg, s, step), Do(cfg, s, step))
  {
    if Handles(step) || Takes(step) || Emits(step) {
      ShapeOfMove(cfg, s, step);
    } else {
      ShapeOfQuiet(cfg, s, step);
    }
  }

  lemma HolderFree(cfg: Config, s: State, step: Step)
    requires Basic(s) && Enabled(cfg, s, step) && Takes(step)
    ensures Holder(step) !in s.flight
    ensures forall k :: k in step.order ==> k in s.pending
    ensures Enumerates(step.order, set k | k in step.order)
    ensures Core(cfg, s, step) == Take(s, Holder(step), step.order)
  {
  }

  // ----- The basic invariant is kept -----

  lemma EntryUpserted(cfg: Config, s: State, c: Change, k: string)
    requires EntriesHold(s) && TimersHold(s) && k in Upserted(cfg, s, c).pending
    ensures EntryHolds(Upserted(cfg, s, c), k)
  {
    assert k in s.pending ==> EntryHolds(s, k);
  }

  lemma EntryDeleted(s: State, id: string, k: string)
    requires EntriesHold(s) && k in s.pending && k != id
    ensures EntryHolds(Deleted(s, id), k)
  {
    assert EntryHolds(s, k);
    assert id in s.pending ==> EntryHolds(s, id);
  }

  lemma EntryShutdown(cfg: Config, s: State, order: seq<string>)
    requires Enumerates(order, s.pending.Keys)
    ensures Take(s, RUN, order).pending == map[]
  {
  }

  lemma EntryTaken(s: State, h: int, order: seq<string>, k: string)
    requires EntriesHold(s) && (forall k :: k in order ==> k in s.pending) && k in Take(s, h, order).pending
    ensures EntryHolds(Take(s, h, order), k)
  {
    assert k in s.pending && EntryHolds(s, k);
  }

  /** Threads that move on leave an unready entry's own timer armed or fired. */
  lemma EntryQuiet(s: State, s': State, k: string)
    requires k in s.pending && EntryHolds(s, k) && Quiet(s, s')
    requires var t := s.pending[k].timer;
             !s'.pending[k].ready ==> s'.callbacks[t].phase == s.callbacks[t].phase || s'.callbacks[t].phase.Fired?
    ensures k in s'.pending && EntryHolds(s', k)
  {
  }

  /** An entry that is not ready has its own timer still armed or fired. */
  ghost predicate OwnTimerWaits(s: State, s': State, k: string)
    requires k in s.pending && s.pending[k].timer in s.callbacks
  {
    && k in s'.pending && s.pending[k].timer in s'.callbacks
    && (!s'.pending[k].ready ==>
          var before := s.callbacks[s.pending[k].timer].phase;
          var after := s'.callbacks[s.pending[k].timer].phase;
          after == before || after.Fired?)
  }

  /** Marking one's own timer makes the entry ready. */
  lemma OwnTimerMarked(cfg: Config, s: State, t: nat, k: string)
    requires TimersHold(s) && Enabled(cfg, s, Mark(t)) && k in s.pending && EntryHolds(s, k)
    ensures OwnTimerWaits(s, Do(cfg, s, Mark(t)), k)
  {
  }

  /** Otherwise only its firing, or a stop, touches a timer that is armed or fired. */
  lemma OwnTimerMoves(cfg: Config, s: State, step: Step, k: string)
    requires Enabled(cfg, s, step) && !Handles(step) && !step.Shutdown? && !step.Mark? && k in s.pending &&
             EntryHolds(s, k)
    requires k in Core(cfg, s, step).pending
    ensures OwnTimerWaits(s, Do(cfg, s, step), k)
  {
  }

  lemma EntryCore(cfg: Config, s: State, step: Step, k: string)
    requires EntriesHold(s) && Enabled(cfg, s, step) && !Handles(step) && k in Core(cfg, s, step).pending
    ensures EntryHolds(Core(cfg, s, step), k)
  {
    assert EntryHolds(s, k);
    match step
    case Tick(order) => EntryTaken(s, RUN, order, k);
    case Shutdown(order) => EntryTaken(s, RUN, order, k);
    case CallbackTake(t, order) => EntryTaken(s, t, order, k);
    case _ =>
  }

  lemma EntryKept(cfg: Config, s: State, step: Step, k: string)
    requires EntriesHold(s) && TimersHold(s)
    requires Enabled(cfg, s, step) && !Handles(step) && !step.Shutdown? && k in Core(cfg, s, step).pending
    ensures k in Do(cfg, s, step).pending && EntryHolds(Do(cfg, s, step), k)
  {
    var m := Core(cfg, s, step);
    assert k in s.pending && EntryHolds(s, k);
    if step.Mark? {
      OwnTimerMarked(cfg, s, step.timer, k);
    } else {
      OwnTimerMoves(cfg, s, step, k);
    }
    StepShape(cfg, s, step);
    EntryCore(cfg, s, step, k);
    EntryQuiet(m, Do(cfg, s, step), k);
  }

  lemma EntryStep(cfg: Config, s: State, step: Step, k: string)
    requires EntriesHold(s) && TimersHold(s) && Enabled(cfg, s, step) && k in Do(cfg, s, step).pending
    ensures EntryHolds(Do(cfg, s, step), k)
  {
    if step.HandleUpsert? {
      EntryUpserted(cfg, s, step.change, k);
    } else if step.HandleDelete? {
      EntryDeleted(s, step.id, k);
    } else if step.Shutdown? {
      EntryShutdown(cfg, s, step.order);
    } else {
      StepShape(cfg, s, step);
      EntryKept(cfg, s, step, k);
    }
  }

  lemma TimersQuiet(s: State, s': State)
    requires TimersHold(s) && Quiet(s, s')
    ensures TimersHold(s')
  {
  }

  lemma TimersCore(cfg: Config, s: State, step: Step)
    requires TimersHold(s) && Enabled(cfg, s, step)
    ensures TimersHold(Core(cfg, s, step))
  {
  }

  lemma FlightTaken(cfg: Config, s: State, step: Step)
    requires FlightHolds(s) && Enabled(cfg, s, step) && Takes(step)
    ensures FlightHolds(Do(cfg, s, step))
  {
  }

  lemma FlightEmitted(cfg: Config, s: State, step: Step)
    requires FlightHolds(s) && Enabled(cfg, s, step) && Emits(step)
    ensures FlightHolds(Do(cfg, s, step))
  {
  }

  lemma FlightKept(cfg: Config, s: State, step: Step)
    requires FlightHolds(s) && TimersHold(s) && Enabled(cfg, s, step) && !Takes(step) && !Emits(step)
    ensures FlightHolds(Do(cfg, s, step))
  {
  }

  lemma ControlStep(cfg: Config, s: State, step: Step)
    requires FlightHolds(s) && ControlHolds(s) && Enabled(cfg, s, step)
    ensures ControlHolds(Do(cfg, s, step))
  {
  }

  lemma BasicStep(cfg: Config, s: State, step: Step)
    requires Basic(s) && Enabled(cfg, s, step)
    ensures Basic(Do(cfg, s, step))
  {
    forall k | k in Do(cfg, s, step).pending ensures EntryHolds(Do(cfg, s, step), k) {
      EntryStep(cfg, s, step, k);
    }
    TimersCore(cfg, s, step);
    StepShape(cfg, s, step);
    TimersQuiet(Core(cfg, s, step), Do(cfg, s, step));
    if Takes(step) {
      FlightTaken(cfg, s, step);
    } else if Emits(step) {
      FlightEmitted(cfg, s, step);
    } else {
      FlightKept(cfg, s, step);
    }
    ControlStep(cfg, s, step);
  }

  lemma {:induction false} BasicAlways(cfg: Config, steps: seq<Step>)
    requires Valid(cfg, steps)
    ensures Basic(Exec(cfg, steps))
  {
    if steps != [] {
      var n := |steps| - 1;
      BasicAlways(cfg, steps[..n]);
      BasicStep(cfg, Exec(cfg, steps[..n]), steps[n]);
    }
  }
}
