/**
 A machine state as a buffer's fields show it, and what each step does to the fields. The clock, the
 armed timers and the callbacks at work are fields too: they are the runtime's.
 */
module Fields {
  import opened Downstream
  import opened Pending
  import opened Machine
  import opened Coherence
  import opened Protocol

  /** A timer that is neither stopped nor fired: when it is due, and what its closure captured. */
  datatype Task = Task(due: int, key: string, gen: nat)

  ghost function ArmedTasks(cfg: Config, s: State): map<nat, Task> {
    map t | t in s.callbacks && s.callbacks[t].phase.Armed? ::
      Task(s.callbacks[t].armedAt + cfg.window, s.callbacks[t].key, s.callbacks[t].gen)
  }

  /** What a callback has still to do, and what it holds meanwhile. */
  datatype Work = ToMark(key: string, gen: nat) | ToCount | ToTake | ToEmit(payload: Payload)

  predicate Busy(phase: Phase) {
    phase.Fired? || phase.Marked? || phase.Flushing? || phase.Holding?
  }

  ghost function WorkAt(s: State, t: nat): Work
    requires t in s.callbacks
  {
    match s.callbacks[t].phase
    case Marked => ToCount
    case Flushing => ToTake
    case Holding => if t in s.flight then ToEmit(s.flight[t].payload) else ToCount
    case _ => ToMark(s.callbacks[t].key, s.callbacks[t].gen)
  }

  ghost function WorkOf(s: State): map<nat, Work> {
    map t | t in s.callbacks && Busy(s.callbacks[t].phase) :: WorkAt(s, t)
  }

  /** The steps of Run itself, of the sender, and of time. */
  predicate NoCallback(step: Step) {
    Handles(step) || step.Tick? || step.RunEmit? || step.Shutdown? || step.Close? || step.Receive? || step.Elapse?
  }

  /** A callback's own steps. */
  predicate CallbackStep(step: Step, t: nat) {
    (step.Fire? || step.Mark? || step.Count? || step.CallbackTake? || step.CallbackEmit?) && step.timer == t
  }

  lemma WorkAdded(s: State, r: State, t: nat)
    requires t !in s.callbacks && r.callbacks.Keys == s.callbacks.Keys + {t} && !Busy(r.callbacks[t].phase)
    requires forall u: nat :: u in s.callbacks && (Busy(s.callbacks[u].phase) || Busy(r.callbacks[u].phase)) ==>
               r.callbacks[u] == s.callbacks[u]
    requires r.flight == s.flight
    ensures WorkOf(r) == WorkOf(s)
  {
  }

  lemma WorkUpserted(cfg: Config, s: State, c: Change)
    requires TimersHold(s)
    ensures WorkOf(Upserted(cfg, s, c)) == WorkOf(s)
  {
    assert |s.events| !in s.callbacks;
    WorkAdded(s, Upserted(cfg, s, c), |s.events|);
  }

  lemma WorkAllSame(s: State, r: State)
    requires r.callbacks.Keys == s.callbacks.Keys
    requires forall t: nat :: t in s.callbacks && (Busy(s.callbacks[t].phase) || Busy(r.callbacks[t].phase)) ==>
               r.callbacks[t] == s.callbacks[t] && WorkAt(r, t) == WorkAt(s, t)
    ensures WorkOf(r) == WorkOf(s)
  {
  }

  lemma WorkKept(cfg: Config, s: State, step: Step)
    requires TimersHold(s) && Enabled(cfg, s, step) && NoCallback(step)
    ensures WorkOf(Do(cfg, s, step)) == WorkOf(s)
  {
    if step.HandleUpsert? {
      WorkUpserted(cfg, s, step.change);
    } else {
      var r := Do(cfg, s, step);
      forall t: nat ensures t in r.callbacks <==> t in s.callbacks
      {
        WorkKeptAt(cfg, s, step, t);
      }
      assert r.callbacks.Keys == s.callbacks.Keys;
      forall t: nat | t in s.callbacks && (Busy(s.callbacks[t].phase) || Busy(r.callbacks[t].phase))
        ensures r.callbacks[t] == s.callbacks[t] && WorkAt(r, t) == WorkAt(s, t)
      {
        WorkKeptAt(cfg, s, step, t);
      }
      WorkAllSame(s, r);
    }
  }

  lemma WorkKeptAt(cfg: Config, s: State, step: Step, t: nat)
    requires Enabled(cfg, s, step) && NoCallback(step) && !step.HandleUpsert?
    ensures t in Do(cfg, s, step).callbacks <==> t in s.callbacks
    ensures t in s.callbacks ==>
              var c, d := s.callbacks[t], Do(cfg, s, step).callbacks[t];
              (Busy(c.phase) || Busy(d.phase) ==> c == d && WorkAt(Do(cfg, s, step), t) == WorkAt(s, t))
  {
  }

  /** Only the work of `t` differs. */
  lemma WorkOnlyAt(s: State, r: State, t: nat)
    requires t in s.callbacks && r.callbacks.Keys == s.callbacks.Keys
    requires forall u: nat :: u in s.callbacks && u != t ==>
             r.callbacks[u] == s.callbacks[u] && WorkAt(r, u) == WorkAt(s, u)
    ensures WorkOf(r) == if Busy(r.callbacks[t].phase) then WorkOf(s)[t := WorkAt(r, t)] else WorkOf(s) - {t}
  {
  }

  /** A callback's step changes nothing of what the others have to do. */
  lemma WorkOfOthers(cfg: Config, s: State, step: Step, t: nat)
    requires Enabled(cfg, s, step) && CallbackStep(step, t)
    ensures var r := Do(cfg, s, step);
            && t in r.callbacks
            && WorkOf(r) == if Busy(r.callbacks[t].phase) then WorkOf(s)[t := WorkAt(r, t)] else WorkOf(s) - {t}
  {
    var r := Do(cfg, s, step);
    assert t in s.callbacks && r.callbacks.Keys == s.callbacks.Keys;
    forall u: nat | u in s.callbacks && u != t
      ensures r.callbacks[u] == s.callbacks[u] && WorkAt(r, u) == WorkAt(s, u) {
      WorkOfOther(cfg, s, step, t, u);
    }
    WorkOnlyAt(s, r, t);
  }

  lemma WorkOfOther(cfg: Config, s: State, step: Step, t: nat, u: nat)
    requires Enabled(cfg, s, step) && CallbackStep(step, t) && u in s.callbacks && u != t
    ensures u in Do(cfg, s, step).callbacks && Do(cfg, s, step).callbacks[u] == s.callbacks[u]
    ensures WorkAt(Do(cfg, s, step), u) == WorkAt(s, u)
  {
  }

  // ----- What the others leave to Run -----

  lemma RunKeptTwice(s: State, r: State, q: State)
    requires RunKept(s, r) && RunKept(r, q)
    ensures RunKept(s, q)
  {
  }

  /** Run is where it was, holding what it held, with the same events behind it. */
  ghost predicate RunKept(s: State, r: State) {
    && r.run == s.run && r.events == s.events && r.closed == s.closed
    && (RUN in r.flight <==> RUN in s.flight) && (RUN in s.flight ==> r.flight[RUN] == s.flight[RUN])
  }

  /** The timer of a key's entry, if it has one. */
  function TimerIn(p: Table, k: string): set<nat> {
    if k in p then {p[k].timer} else {}
  }

  lemma TasksUpserted(cfg: Config, s: State, c: Change)
    ensures ArmedTasks(cfg, Upserted(cfg, s, c)) ==
            (ArmedTasks(cfg, s) - TimerIn(s.pending, c.Key()))
            [|s.events| := Task(s.now + cfg.window, c.Key(), ChosenGen(cfg.policy, s, c.Key()))]
  {
  }

  lemma TasksDeleted(cfg: Config, s: State, id: string)
    ensures ArmedTasks(cfg, Deleted(s, id)) == ArmedTasks(cfg, s) - TimerIn(s.pending, id)
  {
  }

  lemma TasksFired(cfg: Config, s: State, t: nat)
    requires Enabled(cfg, s, Fire(t))
    ensures ArmedTasks(cfg, Do(cfg, s, Fire(t))) == ArmedTasks(cfg, s) - {t}
  {
  }

  /** Past the firing of a timer, and in the steps of Run but Shutdown, no other timer is armed or disarmed. */
  lemma TasksKept(cfg: Config, s: State, step: Step)
    requires Enabled(cfg, s, step) && !Handles(step) && !step.Fire? && !step.Shutdown?
    ensures ArmedTasks(cfg, Do(cfg, s, step)) == ArmedTasks(cfg, s)
  {
  }

  lemma EntryOfTimer(s: State, t: nat)
    requires Basic(s) && t in s.callbacks
    ensures t in EntryTimers(s.pending) <==>
            s.callbacks[t].key in s.pending && s.pending[s.callbacks[t].key].timer == t
  {
    forall k | k in s.pending && s.pending[k].timer == t ensures s.callbacks[t].key == k {
      assert EntryHolds(s, k);
    }
  }

  function EntryTimers(p: Table): set<nat> {
    set k | k in p :: p[k].timer
  }

  lemma TasksStopped(cfg: Config, s: State, r: State, stopped: set<nat>)
    requires r.callbacks.Keys == s.callbacks.Keys
    requires forall t :: t in s.callbacks ==> SameTimer(s.callbacks[t], r.callbacks[t])
    requires forall t :: t in s.callbacks ==> (In(r, t, Armed) <==> In(s, t, Armed) && t !in stopped)
    ensures ArmedTasks(cfg, r) == ArmedTasks(cfg, s) - stopped
  {
  }

  lemma StoppedAt(s: State, t: nat)
    requires Basic(s) && t in s.callbacks
    ensures StopAll(s)[t].phase.Armed? <==> In(s, t, Armed) && t !in EntryTimers(s.pending)
    ensures SameTimer(s.callbacks[t], StopAll(s)[t])
  {
    EntryOfTimer(s, t);
  }

  lemma TasksShutdown(cfg: Config, s: State, order: seq<string>)
    requires Basic(s) && Enabled(cfg, s, Shutdown(order))
    ensures ArmedTasks(cfg, Do(cfg, s, Shutdown(order))) == ArmedTasks(cfg, s) - EntryTimers(s.pending)
  {
    var r := Do(cfg, s, Shutdown(order));
    assert r.callbacks == StopAll(s);
    forall t | t in s.callbacks
      ensures SameTimer(s.callbacks[t], r.callbacks[t]) &&
              (In(r, t, Armed) <==> In(s, t, Armed) && t !in EntryTimers(s.pending))
    {
      StoppedAt(s, t);
    }
    TasksStopped(cfg, s, r, EntryTimers(s.pending));
  }

  lemma TookReady(s: State, h: int, order: seq<string>)
    requires Enumerates(order, ReadyKeys(s.pending))
    ensures Take(s, h, order).pending == s.pending - ReadyKeys(s.pending)
  {
    assert (set k | k in order) == ReadyKeys(s.pending);
  }

  function TakeStep(holder: int, order: seq<string>): Step
    requires RUN <= holder
  {
    if holder == RUN then Tick(order) else CallbackTake(holder, order)
  }

  function EmitStep(holder: int): Step
    requires RUN <= holder
  {
    if holder == RUN then RunEmit else CallbackEmit(holder)
  }

  /** A machine state as the fields of the buffer show it. */
  datatype Shown = Shown(
    pending: Table, nextGen: nat, payloads: seq<Payload>, closed: bool,
    clock: int, handled: nat, timers: map<nat, Task>, working: map<nat, Work>)

  ghost function Show(cfg: Config, s: State): Shown {
    Shown(s.pending, s.nextGen, s.chan, s.closed, s.now, |s.events|, ArmedTasks(cfg, s), WorkOf(s))
  }

  // each step, as the fields show it and as Run sees it

  function NextCount(policy: Policy, count: nat): nat {
    if policy.BufferWide? then Successor(count) else count
  }

  /** The fields after an entry has been put in the table under a new timer. */
  function ArmedShown(v: Shown, c: Change, gen: nat, window: int): Shown {
    var k := c.Key();
    v.(pending := v.pending[k := PendingChange(c, v.handled, false, gen)],
       handled := v.handled + 1,
       timers := (v.timers - TimerIn(v.pending, k))[v.handled := Task(v.clock + window, k, gen)])
  }

  ghost function UpsertedShown(cfg: Config, s: State, c: Change): Shown {
    var v := Show(cfg, s);
    ArmedShown(v.(nextGen := NextCount(cfg.policy, v.nextGen)), c, ChosenGen(cfg.policy, s, c.Key()), cfg.window)
  }

  lemma UpsertedShows(cfg: Config, s: State, c: Change)
    requires TimersHold(s)
    ensures Show(cfg, Upserted(cfg, s, c)) == UpsertedShown(cfg, s, c)
  {
    TasksUpserted(cfg, s, c);
    WorkUpserted(cfg, s, c);
  }

  lemma TimersOf(cfg: Config, steps: seq<Step>)
    requires Machine.Valid(cfg, steps)
    ensures TimersHold(Exec(cfg, steps))
  {
    BasicAlways(cfg, steps);
  }

  lemma UpsertShows(cfg: Config, steps: seq<Step>, c: Change)
    requires Machine.Valid(cfg, steps) && Exec(cfg, steps).run.Selecting?
    ensures Do(cfg, Exec(cfg, steps), HandleUpsert(c)) == Upserted(cfg, Exec(cfg, steps), c)
    ensures Show(cfg, Upserted(cfg, Exec(cfg, steps), c)) == UpsertedShown(cfg, Exec(cfg, steps), c)
    ensures Upserted(cfg, Exec(cfg, steps), c).run.Selecting?
    ensures Upserted(cfg, Exec(cfg, steps), c).events == Exec(cfg, steps).events + [Upsert(c)]
  {
    TimersOf(cfg, steps);
    UpsertedShows(cfg, Exec(cfg, steps), c);
  }

  function CancelledShown(v: Shown, id: string): Shown {
    v.(pending := v.pending - {id}, handled := v.handled + 1, timers := v.timers - TimerIn(v.pending, id))
  }

  lemma DeleteShows(cfg: Config, steps: seq<Step>, id: string)
    requires Machine.Valid(cfg, steps) && Exec(cfg, steps).run.Selecting?
    ensures var s := Exec(cfg, steps);
            var r := Do(cfg, s, HandleDelete(id));
            && Show(cfg, r) == CancelledShown(Show(cfg, s), id)
            && r.run.Emitting? && r.events == s.events + [Delete(id)]
            && RUN in r.flight && r.flight[RUN].payload == Payload([], [id])
  {
    var s := Exec(cfg, steps);
    BasicAlways(cfg, steps);
    TasksDeleted(cfg, s, id);
    WorkKept(cfg, s, HandleDelete(id));
  }

  function TickedShown(v: Shown): Shown {
    v.(pending := v.pending - ReadyKeys(v.pending))
  }

  /** Run's own flush. */
  lemma TickShows(cfg: Config, steps: seq<Step>, order: seq<string>)
    requires Machine.Valid(cfg, steps) && Enabled(cfg, Exec(cfg, steps), Tick(order))
    ensures var s := Exec(cfg, steps);
            var r := Do(cfg, s, Tick(order));
            && Show(cfg, r) == TickedShown(Show(cfg, s)) && r.events == s.events
            && (if order == [] then r.run.Selecting?
                else r.run.Emitting? && RUN in r.flight &&
                     r.flight[RUN].payload == Payload(Collect(s.pending, order), []))
  {
    var s := Exec(cfg, steps);
    BasicAlways(cfg, steps);
    TookReady(s, RUN, order);
    TasksKept(cfg, s, Tick(order));
    WorkKept(cfg, s, Tick(order));
  }

  /** The fields after the final flush: the table is empty and the timers of its entries are stopped. */
  function EmptiedShown(v: Shown): Shown {
    v.(pending := map[], timers := v.timers - EntryTimers(v.pending))
  }

  lemma ShutdownShows(cfg: Config, steps: seq<Step>, order: seq<string>)
    requires Machine.Valid(cfg, steps) && Enabled(cfg, Exec(cfg, steps), Shutdown(order))
    ensures var s := Exec(cfg, steps);
            var r := Do(cfg, s, Shutdown(order));
            && Show(cfg, r) == EmptiedShown(Show(cfg, s)) && r.events == s.events
            && (if order == [] then r.run.Closing?
                else r.run.EmittingFinal? && RUN in r.flight &&
                     r.flight[RUN].payload == Payload(Collect(s.pending, order), []))
  {
    var s := Exec(cfg, steps);
    BasicAlways(cfg, steps);
    TasksShutdown(cfg, s, order);
    WorkKept(cfg, s, Shutdown(order));
  }

  /** What a payload does to the channel, if it does anything. */
  function Sent(payloads: seq<Payload>, closed: bool, p: Payload): seq<Payload> {
    if !closed && |payloads| < CAPACITY then payloads + [p] else payloads
  }

  function SentShown(v: Shown, p: Payload): Shown {
    v.(payloads := Sent(v.payloads, v.closed, p))
  }

  lemma RunEmitShows(cfg: Config, steps: seq<Step>)
    requires Machine.Valid(cfg, steps) && Enabled(cfg, Exec(cfg, steps), RunEmit)
    ensures var s := Exec(cfg, steps);
            var r := Do(cfg, s, RunEmit);
            && Show(cfg, r) == SentShown(Show(cfg, s), s.flight[RUN].payload) && r.events == s.events
            && r.run == if s.run.Emitting? then Selecting else Closing
  {
    BasicAlways(cfg, steps);
    TasksKept(cfg, Exec(cfg, steps), RunEmit);
    WorkKept(cfg, Exec(cfg, steps), RunEmit);
  }

  lemma CloseShows(cfg: Config, steps: seq<Step>)
    requires Machine.Valid(cfg, steps) && Exec(cfg, steps).run.Closing?
    ensures var s := Exec(cfg, steps);
            var r := Do(cfg, s, Close);
            Show(cfg, r) == Show(cfg, s).(closed := true) && r.run.Returned? && r.events == s.events &&
              r.flight == s.flight
  {
    BasicAlways(cfg, steps);
    TasksKept(cfg, Exec(cfg, steps), Close);
    WorkKept(cfg, Exec(cfg, steps), Close);
  }

  lemma PassShows(cfg: Config, steps: seq<Step>, d: nat)
    requires Machine.Valid(cfg, steps)
    ensures var s := Exec(cfg, steps);
            var r := Do(cfg, s, Elapse(d));
            Show(cfg, r) == Show(cfg, s).(clock := s.now + d) && RunKept(s, r)
  {
    BasicAlways(cfg, steps);
    TasksKept(cfg, Exec(cfg, steps), Elapse(d));
    WorkKept(cfg, Exec(cfg, steps), Elapse(d));
  }

  lemma ReceiveShows(cfg: Config, steps: seq<Step>)
    requires Machine.Valid(cfg, steps) && Exec(cfg, steps).chan != []
    ensures var s := Exec(cfg, steps);
            var r := Do(cfg, s, Receive);
            Show(cfg, r) == Show(cfg, s).(payloads := s.chan[1..]) && RunKept(s, r)
  {
    BasicAlways(cfg, steps);
    TasksKept(cfg, Exec(cfg, steps), Receive);
    WorkKept(cfg, Exec(cfg, steps), Receive);
  }

  function FiredShown(v: Shown, t: nat, key: string, gen: nat): Shown {
    v.(timers := v.timers - {t}, working := v.working[t := ToMark(key, gen)])
  }

  lemma FireShows(cfg: Config, s: State, t: nat)
    requires Enabled(cfg, s, Fire(t))
    ensures var r := Do(cfg, s, Fire(t));
            && Show(cfg, r) == FiredShown(Show(cfg, s), t, s.callbacks[t].key, s.callbacks[t].gen)
            && RunKept(s, r) && In(r, t, Fired) && r.callbacks[t].key == s.callbacks[t].key &&
               r.callbacks[t].gen == s.callbacks[t].gen
  {
    TasksFired(cfg, s, t);
    WorkOfOthers(cfg, s, Fire(t), t);
  }

  function MarkedShown(v: Shown, t: nat, key: string, gen: nat): Shown {
    v.(pending := MarkReady(v.pending, key, gen), working := v.working[t := ToCount])
  }

  lemma MarkShows(cfg: Config, s: State, t: nat)
    requires Enabled(cfg, s, Mark(t))
    ensures var r := Do(cfg, s, Mark(t));
            && Show(cfg, r) == MarkedShown(Show(cfg, s), t, s.callbacks[t].key, s.callbacks[t].gen)
            && RunKept(s, r) && In(r, t, Marked)
  {
    TasksKept(cfg, s, Mark(t));
    WorkOfOthers(cfg, s, Mark(t), t);
  }

  function CountedShown(v: Shown, t: nat, maxBatch: int): Shown {
    v.(working := if |ReadyKeys(v.pending)| >= maxBatch then v.working[t := ToTake] else v.working - {t})
  }

  lemma CountShows(cfg: Config, s: State, t: nat)
    requires Enabled(cfg, s, Count(t))
    ensures var r := Do(cfg, s, Count(t));
            && Show(cfg, r) == CountedShown(Show(cfg, s), t, cfg.maxBatch)
            && RunKept(s, r) && In(r, t, if |ReadyKeys(s.pending)| >= cfg.maxBatch then Flushing else Finished)
  {
    TasksKept(cfg, s, Count(t));
    WorkOfOthers(cfg, s, Count(t), t);
  }

  /** The fields after a callback took the ready entries: it goes on to emit them, or is at its end. */
  function TakenShown(v: Shown, t: nat, order: seq<string>): Shown
    requires forall k :: k in order ==> k in v.pending
  {
    v.(pending := v.pending - ReadyKeys(v.pending),
       working := if order == [] then v.working - {t}
                  else v.working[t := ToEmit(Payload(Collect(v.pending, order), []))])
  }

  /** A callback's flush. */
  lemma TakeShows(cfg: Config, s: State, t: nat, order: seq<string>)
    requires Enabled(cfg, s, CallbackTake(t, order))
    ensures var r := Do(cfg, s, CallbackTake(t, order));
            && Show(cfg, r) == TakenShown(Show(cfg, s), t, order) && RunKept(s, r)
            && (if order == [] then In(r, t, Finished)
                else && Enabled(cfg, r, CallbackEmit(t))
                     && r.flight[t].payload == Payload(Collect(s.pending, order), []))
  {
    TookReady(s, t, order);
    TasksKept(cfg, s, CallbackTake(t, order));
    WorkOfOthers(cfg, s, CallbackTake(t, order), t);
  }

  /** The fields after a callback sent what it held. */
  function EmittedShown(v: Shown, p: Payload, t: nat): Shown {
    v.(payloads := Sent(v.payloads, v.closed, p), working := v.working - {t})
  }

  lemma CallbackEmitShows(cfg: Config, s: State, t: nat)
    requires Enabled(cfg, s, CallbackEmit(t))
    ensures var r := Do(cfg, s, CallbackEmit(t));
            && Show(cfg, r) == EmittedShown(Show(cfg, s), s.flight[t].payload, t)
            && RunKept(s, r) && In(r, t, Finished)
  {
    TasksKept(cfg, s, CallbackEmit(t));
    WorkOfOthers(cfg, s, CallbackEmit(t), t);
  }

  /** What a callback at work is about to do is where the machine has it. */
  lemma PhaseOf(cfg: Config, steps: seq<Step>, t: nat)
    requires Machine.Valid(cfg, steps) && t in WorkOf(Exec(cfg, steps))
    ensures var s := Exec(cfg, steps);
            match WorkOf(s)[t]
            case ToMark(key, gen) => In(s, t, Fired) && s.callbacks[t].key == key && s.callbacks[t].gen == gen
            case ToCount => In(s, t, Marked)
            case ToTake => In(s, t, Flushing)
            case ToEmit(p) => Enabled(cfg, s, CallbackEmit(t)) && s.flight[t].payload == p
  {
    BasicAlways(cfg, steps);
  }

  /** A flush is one locked region, and a second one if it took anything. */
  function FlushSteps(holder: int, order: seq<string>): seq<Step>
    requires RUN <= holder
  {
    if order == [] then [TakeStep(holder, order)] else [TakeStep(holder, order), EmitStep(holder)]
  }

  function HandleSteps(e: Event): seq<Step> {
    match e
    case Upsert(c) => [HandleUpsert(c)]
    case Delete(id) => [HandleDelete(id), RunEmit]
  }
}
