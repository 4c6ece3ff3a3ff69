/**
 The debounce window as a guarantee: what a flush takes was last upserted at least a window ago.
 Proved of the ideal debouncer and carried over to both buffers by refinement; where the instance
 buffer leaves the ideal, the guarantee fails, and exactly when is stated.
 */
module Guarantee {
  import opened Downstream
  import opened Pending
  import opened Machine
  import opened Runs
  import opened Generations

  predicate HasFired(phase: Phase) {
    !phase.Armed? && !phase.Stopped?
  }

  predicate HasMarked(phase: Phase) {
    HasFired(phase) && !phase.Fired?
  }

  ghost predicate FiredLate(cfg: Config, s: State) {
    forall t :: t in s.callbacks && HasFired(s.callbacks[t].phase) ==> s.callbacks[t].armedAt + cfg.window <= s.now
  }

  lemma FiredLateCore(cfg: Config, s: State, step: Step)
    requires FiredLate(cfg, s) && Enabled(cfg, s, step)
    ensures FiredLate(cfg, Core(cfg, s, step)) && Core(cfg, s, step).now == s.now
  {
  }

  lemma FiredLateMoved(cfg: Config, s: State, step: Step, t: nat)
    requires Enabled(cfg, s, step) && t in Do(cfg, s, step).callbacks && t in Core(cfg, s, step).callbacks
    ensures HasFired(Do(cfg, s, step).callbacks[t].phase) ==>
              HasFired(Core(cfg, s, step).callbacks[t].phase) || s.callbacks[t].armedAt + cfg.window <= s.now
    ensures s.now <= Do(cfg, s, step).now
  {
  }

  lemma {:induction false} FiredLateAlways(cfg: Config, steps: seq<Step>)
    requires Valid(cfg, steps)
    ensures FiredLate(cfg, Exec(cfg, steps))
  {
    if steps != [] {
      var n := |steps| - 1;
      var s := Exec(cfg, steps[..n]);
      var s' := Do(cfg, s, steps[n]);
      FiredLateAlways(cfg, steps[..n]);
      FiredLateCore(cfg, s, steps[n]);
      StepShape(cfg, s, steps[n]);
      forall t | t in s'.callbacks && HasFired(s'.callbacks[t].phase)
        ensures s'.callbacks[t].armedAt + cfg.window <= s'.now
      {
        FiredLateMoved(cfg, s, steps[n], t);
      }
    }
  }

  /** An entry is ready only because its own timer fired. */
  ghost predicate ReadyByOwn(s: State) {
    forall k :: k in s.pending && s.pending[k].ready ==>
      s.pending[k].timer in s.callbacks && HasMarked(s.callbacks[s.pending[k].timer].phase)
  }

  /** Handling, taking and emitting make no entry ready. */
  lemma ReadyBefore(cfg: Config, s: State, step: Step, k: string)
    requires Enabled(cfg, s, step) && k in Core(cfg, s, step).pending && Core(cfg, s, step).pending[k].ready
    ensures k in s.pending && s.pending[k] == Core(cfg, s, step).pending[k]
  {
    if !step.HandleUpsert? {
      PendingKeptCore(cfg, s, step, k);
    }
  }

  /** Nor do they take a timer back that has marked. */
  lemma MarkedCore(cfg: Config, s: State, step: Step, t: nat)
    requires TimersHold(s) && Enabled(cfg, s, step) && t in s.callbacks && HasMarked(s.callbacks[t].phase)
    ensures t in Core(cfg, s, step).callbacks && HasMarked(Core(cfg, s, step).callbacks[t].phase)
  {
    assert t != |s.events|;
  }

  lemma ReadyCore(cfg: Config, s: State, step: Step)
    requires Basic(s) && ReadyByOwn(s) && Enabled(cfg, s, step)
    ensures ReadyByOwn(Core(cfg, s, step))
  {
    var m := Core(cfg, s, step);
    forall k | k in m.pending && m.pending[k].ready
      ensures m.pending[k].timer in m.callbacks && HasMarked(m.callbacks[m.pending[k].timer].phase)
    {
      ReadyBefore(cfg, s, step, k);
      MarkedCore(cfg, s, step, s.pending[k].timer);
    }
  }

  lemma MarkedStays(cfg: Config, s: State, step: Step, t: nat)
    requires Enabled(cfg, s, step) && t in Core(cfg, s, step).callbacks &&
             HasMarked(Core(cfg, s, step).callbacks[t].phase)
    ensures t in Do(cfg, s, step).callbacks && HasMarked(Do(cfg, s, step).callbacks[t].phase)
  {
  }

  lemma ReadyKept(cfg: Config, s: State, step: Step, k: string)
    requires Enabled(cfg, s, step) && !step.Mark? && k in Do(cfg, s, step).pending
    ensures k in Core(cfg, s, step).pending && Do(cfg, s, step).pending[k] == Core(cfg, s, step).pending[k]
  {
  }

  lemma ReadyMarked(cfg: Config, s: State, t: nat)
    requires Enabled(cfg, s, Mark(t)) && ReadyByOwn(s) && MarksOwn(s)
    ensures ReadyByOwn(Do(cfg, s, Mark(t)))
  {
    var s' := Do(cfg, s, Mark(t));
    forall k | k in s'.pending && s'.pending[k].ready
      ensures s'.pending[k].timer in s'.callbacks && HasMarked(s'.callbacks[s'.pending[k].timer].phase)
    {
      assert s.pending[k].ready || (Matches(s, t) && k == s.callbacks[t].key);
    }
  }

  lemma ReadyStep(cfg: Config, s: State, step: Step)
    requires Basic(s) && ReadyByOwn(s) && MarksOwn(s) && Enabled(cfg, s, step)
    ensures ReadyByOwn(Do(cfg, s, step))
  {
    if step.Mark? {
      ReadyMarked(cfg, s, step.timer);
    } else {
      var s' := Do(cfg, s, step);
      ReadyCore(cfg, s, step);
      forall k | k in s'.pending && s'.pending[k].ready
        ensures s'.pending[k].timer in s'.callbacks && HasMarked(s'.callbacks[s'.pending[k].timer].phase)
      {
        ReadyKept(cfg, s, step, k);
        MarkedStays(cfg, s, step, s'.pending[k].timer);
      }
    }
  }

  lemma {:induction false} IdealReadyByOwn(cfg: Config, steps: seq<Step>)
    requires cfg.policy.ByTimer? && Valid(cfg, steps)
    ensures ReadyByOwn(Exec(cfg, steps))
  {
    if steps != [] {
      var n := |steps| - 1;
      var s := Exec(cfg, steps[..n]);
      IdealReadyByOwn(cfg, steps[..n]);
      BasicAlways(cfg, steps[..n]);
      IdealGens(cfg, steps[..n]);
      IdealMarksOwn(s);
      ReadyStep(cfg, s, steps[n]);
    }
  }

  /** The last event of every ready key is at least a window old. */
  ghost predicate ReadyIsOld(cfg: Config, s: State) {
    forall k :: k in s.pending && s.pending[k].ready ==>
      LastIndex(s.events, k) in s.callbacks && s.callbacks[LastIndex(s.events, k)].armedAt + cfg.window <= s.now
  }

  lemma IdealReadyIsOld(cfg: Config, steps: seq<Step>)
    requires cfg.policy.ByTimer? && Valid(cfg, steps)
    ensures ReadyIsOld(cfg, Exec(cfg, steps))
  {
    var s := Exec(cfg, steps);
    BasicAlways(cfg, steps);
    FiredLateAlways(cfg, steps);
    IdealReadyByOwn(cfg, steps);
    forall k | k in s.pending && s.pending[k].ready
      ensures LastIndex(s.events, k) in s.callbacks && s.callbacks[LastIndex(s.events, k)].armedAt + cfg.window <= s.now
    {
      assert EntryHolds(s, k);
      assert LastIndex(s.events, k) == s.pending[k].timer;
    }
  }

  lemma OldByRefinement(cfg: Config, s: State, a: State)
    requires Erased(s, a) && ReadyIsOld(Ideal(cfg), a)
    ensures ReadyIsOld(cfg, s)
  {
    forall k | k in s.pending && s.pending[k].ready
      ensures LastIndex(s.events, k) in s.callbacks && s.callbacks[LastIndex(s.events, k)].armedAt + cfg.window <= s.now
    {
      assert a.pending[k].ready && a.events == s.events && a.now == s.now;
      assert a.callbacks[LastIndex(s.events, k)].armedAt == s.callbacks[LastIndex(s.events, k)].armedAt;
    }
  }

  /**
   * What a flush takes from the CRD buffer was last added at least a window earlier, in every run of fewer
   * than 2^64 adds.
   */
  lemma {:induction false} CrdDebounceGuarantee(cfg: Config, steps: seq<Step>, step: Step, k: string)
    requires cfg.policy.BufferWide? && Valid(cfg, steps) && |Exec(cfg, steps).callbacks| < GEN_MODULUS
    requires Enabled(cfg, Exec(cfg, steps), step) && (step.Tick? || step.CallbackTake?) && k in step.order
    ensures var s := Exec(cfg, steps);
            LastIndex(s.events, k) in s.callbacks && s.callbacks[LastIndex(s.events, k)].armedAt + cfg.window <= s.now
  {
    CrdRefinesIdeal(cfg, steps);
    IdealReadyIsOld(Ideal(cfg), steps);
    OldByRefinement(cfg, Exec(cfg, steps), Exec(Ideal(cfg), steps));
    assert k in ReadyKeys(Exec(cfg, steps).pending);
  }

  /** The same of the instance buffer, in the runs that leave no live callback behind. */
  lemma {:induction false} InstanceDebounceGuarantee(cfg: Config, steps: seq<Step>, step: Step, k: string)
    requires cfg.policy.PerKey? && Valid(cfg, steps) && Tidy(cfg, steps) && |Exec(cfg, steps).callbacks| < GEN_MODULUS
    requires Enabled(cfg, Exec(cfg, steps), step) && (step.Tick? || step.CallbackTake?) && k in step.order
    ensures var s := Exec(cfg, steps);
            LastIndex(s.events, k) in s.callbacks && s.callbacks[LastIndex(s.events, k)].armedAt + cfg.window <= s.now
  {
    InstanceRefinesIdeal(cfg, steps);
    IdealReadyIsOld(Ideal(cfg), steps);
    OldByRefinement(cfg, Exec(cfg, steps), Exec(Ideal(cfg), steps));
    assert k in ReadyKeys(Exec(cfg, steps).pending);
  }

  // ----- When a left-over callback misfires -----

  function Repeat(step: Step, n: nat): seq<Step> {
    if n == 0 then [] else Repeat(step, n - 1) + [step]
  }

  /** A run in which `t` is still about to mark, and the entry of its key is another timer's, armed just now. */
  ghost predicate Foreign(s: State, t: nat) {
    && s.run.Selecting? && In(s, t, Fired)
    && var k := s.callbacks[t].key;
       k in s.pending && !s.pending[k].ready && s.pending[k].timer != t
       && s.pending[k].timer in s.callbacks && s.callbacks[s.pending[k].timer].armedAt == s.now
  }

  lemma OneUpsert(cfg: Config, s: State, t: nat, c: Change)
    requires TimersHold(s) && s.run.Selecting? && In(s, t, Fired) && c.Key() == s.callbacks[t].key
    ensures var s' := Upserted(cfg, s, c);
            Foreign(s', t) && s'.callbacks[t] == s.callbacks[t] && s'.now == s.now &&
            s'.pending[c.Key()].gen == ChosenGen(cfg.policy, s, c.Key()) &&
            (!cfg.policy.ByTimer? ==> ChosenGen(cfg.policy, s', c.Key()) == Successor(s'.pending[c.Key()].gen))
  {
  }

  /** State `r` is what n + 1 upserts of the key of timer `t`, and nothing else, make of state `s`. */
  ghost predicate Rearmed(cfg: Config, s: State, r: State, t: nat, k: string, n: nat) {
    && Foreign(r, t) && r.callbacks[t].key == k
    && t in s.callbacks && r.callbacks[t] == s.callbacks[t]
    && r.pending[k].gen == (ChosenGen(cfg.policy, s, k) + n) % GEN_MODULUS
    && ChosenGen(cfg.policy, r, k) == Successor(r.pending[k].gen)
  }

  lemma SuccessorOfRemainder(a: nat)
    ensures Successor(a % GEN_MODULUS) == (a + 1) % GEN_MODULUS
  {
  }

  lemma RearmedFirst(cfg: Config, s: State, t: nat, c: Change)
    requires TimersHold(s) && !cfg.policy.ByTimer?
    requires s.run.Selecting? && In(s, t, Fired) && c.Key() == s.callbacks[t].key
    ensures Rearmed(cfg, s, Upserted(cfg, s, c), t, c.Key(), 0)
  {
    OneUpsert(cfg, s, t, c);
  }

  lemma RearmedNext(cfg: Config, s: State, r: State, t: nat, c: Change, n: nat)
    requires TimersHold(r) && !cfg.policy.ByTimer? && 0 < n && Rearmed(cfg, s, r, t, c.Key(), n - 1)
    ensures Rearmed(cfg, s, Upserted(cfg, r, c), t, c.Key(), n)
  {
    OneUpsert(cfg, r, t, c);
    SuccessorOfRemainder(ChosenGen(cfg.policy, s, c.Key()) + n - 1);
  }

  /** One upsert of a change and `n` more, and nothing else. */
  ghost function UpsertedTimes(cfg: Config, s: State, c: Change, n: nat): State {
    Upserted(cfg, if n == 0 then s else UpsertedTimes(cfg, s, c, n - 1), c)
  }

  lemma TimersStillHold(cfg: Config, s: State, c: Change)
    requires TimersHold(s)
    ensures TimersHold(Upserted(cfg, s, c)) && Upserted(cfg, s, c).run == s.run
  {
  }

  lemma {:induction false} RearmedTimes(cfg: Config, s: State, t: nat, c: Change, n: nat)
    requires TimersHold(s) && !cfg.policy.ByTimer?
    requires s.run.Selecting? && In(s, t, Fired) && c.Key() == s.callbacks[t].key
    ensures TimersHold(UpsertedTimes(cfg, s, c, n)) && Rearmed(cfg, s, UpsertedTimes(cfg, s, c, n), t, c.Key(), n)
  {
    if n == 0 {
      TimersStillHold(cfg, s, c);
      RearmedFirst(cfg, s, t, c);
    } else {
      var r := UpsertedTimes(cfg, s, c, n - 1);
      RearmedTimes(cfg, s, t, c, n - 1);
      TimersStillHold(cfg, r, c);
      RearmedNext(cfg, s, r, t, c, n);
    }
  }

  lemma RepeatOnce(steps: seq<Step>, step: Step, n: nat)
    ensures steps + Repeat(step, n) + [step] == steps + Repeat(step, n + 1)
    ensures steps + Repeat(step, 0) == steps
  {
  }

  lemma UpsertRuns(cfg: Config, before: seq<Step>, r: State, c: Change)
    requires Valid(cfg, before) && Exec(cfg, before) == r && r.run.Selecting?
    ensures Valid(cfg, before + [HandleUpsert(c)]) && Exec(cfg, before + [HandleUpsert(c)]) == Upserted(cfg, r, c)
    ensures Upserted(cfg, r, c).run.Selecting?
  {
    Extend(cfg, before, HandleUpsert(c));
  }

  /** A run that only upserts arrives at the state that `UpsertedTimes` says. */
  lemma {:induction false} ManyUpserts(cfg: Config, steps: seq<Step>, s: State, c: Change, n: nat)
      returns (after: seq<Step>)
    requires Valid(cfg, steps) && Exec(cfg, steps) == s && s.run.Selecting?
    ensures after == steps + Repeat(HandleUpsert(c), n + 1)
    ensures Valid(cfg, after) && Exec(cfg, after) == UpsertedTimes(cfg, s, c, n) &&
            UpsertedTimes(cfg, s, c, n).run.Selecting?
  {
    var before, r := steps, s;
    if n == 0 {
      RepeatOnce(steps, HandleUpsert(c), 0);
    } else {
      before := ManyUpserts(cfg, steps, s, c, n - 1);
      r := UpsertedTimes(cfg, s, c, n - 1);
    }
    UpsertRuns(cfg, before, r, c);
    RepeatOnce(steps, HandleUpsert(c), n);
    after := before + [HandleUpsert(c)];
  }

  /** If timer `t` marks now, it makes an entry ready that another timer was armed for. */
  ghost predicate Misfires(cfg: Config, s: State, t: nat) {
    && Foreign(s, t) && Enabled(cfg, s, Mark(t))
    && var after := Do(cfg, s, Mark(t)).pending; s.callbacks[t].key in after && after[s.callbacks[t].key].ready
  }

  /** The generation of the (n + 1)th entry from now for the timer's key is the one the timer captured. */
  ghost predicate ComesRound(cfg: Config, s: State, t: nat, n: nat)
    requires t in s.callbacks
  {
    (ChosenGen(cfg.policy, s, s.callbacks[t].key) + n) % GEN_MODULUS == s.callbacks[t].gen
  }

  /** The entry of the key of timer `t` is another timer's, and `t` misfires exactly when `condition` holds. */
  ghost predicate MisfiresWhen(cfg: Config, s: State, t: nat, condition: bool) {
    Foreign(s, t) && (Misfires(cfg, s, t) <==> condition)
  }

  lemma TimersAlways(cfg: Config, steps: seq<Step>)
    requires Valid(cfg, steps)
    ensures TimersHold(Exec(cfg, steps))
  {
    BasicAlways(cfg, steps);
  }

  lemma MarkMatches(cfg: Config, s: State, r: State, t: nat, n: nat)
    requires t in s.callbacks && Rearmed(cfg, s, r, t, s.callbacks[t].key, n)
    ensures MisfiresWhen(cfg, r, t, ComesRound(cfg, s, t, n))
  {
  }

  lemma MisfireTimes(cfg: Config, s: State, t: nat, c: Change, n: nat)
    requires TimersHold(s) && !cfg.policy.ByTimer?
    requires s.run.Selecting? && In(s, t, Fired) && c.Key() == s.callbacks[t].key
    ensures MisfiresWhen(cfg, UpsertedTimes(cfg, s, c, n), t, ComesRound(cfg, s, t, n))
  {
    RearmedTimes(cfg, s, t, c, n);
    MarkMatches(cfg, s, UpsertedTimes(cfg, s, c, n), t, n);
  }

  /**
   After n + 1 more upserts of its key, a fired callback marks the entry, which it was not armed for,
   exactly when the counter has come round to its generation.
   */
  lemma MisfiresExactlyWhen(cfg: Config, steps: seq<Step>, t: nat, c: Change, n: nat)
    requires Valid(cfg, steps) && !cfg.policy.ByTimer?
    requires Exec(cfg, steps).run.Selecting? && In(Exec(cfg, steps), t, Fired) &&
             c.Key() == Exec(cfg, steps).callbacks[t].key
    ensures Valid(cfg, steps + Repeat(HandleUpsert(c), n + 1))
    ensures MisfiresWhen(cfg, Exec(cfg, steps + Repeat(HandleUpsert(c), n + 1)), t,
            ComesRound(cfg, Exec(cfg, steps), t, n))
  {
    TimersAlways(cfg, steps);
    MisfireTimes(cfg, Exec(cfg, steps), t, c, n);
    var after := ManyUpserts(cfg, steps, Exec(cfg, steps), c, n);
  }

  lemma {:induction false} GensSmall(cfg: Config, steps: seq<Step>, t: nat)
    requires Valid(cfg, steps) && !cfg.policy.ByTimer? && t in Exec(cfg, steps).callbacks
    ensures Exec(cfg, steps).callbacks[t].gen < GEN_MODULUS
  {
    if steps != [] {
      var n := |steps| - 1;
      var s := Exec(cfg, steps[..n]);
      if t in s.callbacks {
        GensSmall(cfg, steps[..n], t);
      }
      if !steps[n].HandleUpsert? {
        TimersKept(cfg, s, steps[n]);
      }
    }
  }

  lemma DeleteLeavesFired(cfg: Config, s: State, t: nat)
    requires Basic(s) && s.run.Selecting? && In(s, t, Fired)
    ensures var k := s.callbacks[t].key;
            && Enabled(cfg, s, HandleDelete(k)) && Enabled(cfg, Do(cfg, s, HandleDelete(k)), RunEmit)
            && var r := Do(cfg, Do(cfg, s, HandleDelete(k)), RunEmit);
               r.run.Selecting? && In(r, t, Fired) && r.callbacks[t] == s.callbacks[t] && k !in r.pending
  {
  }

  lemma DeletedFirst(cfg: Config, steps: seq<Step>, t: nat)
    requires Valid(cfg, steps) && Exec(cfg, steps).run.Selecting? && In(Exec(cfg, steps), t, Fired)
    ensures var k := Exec(cfg, steps).callbacks[t].key;
            var after := steps + [HandleDelete(k), RunEmit];
            && Valid(cfg, after) && Exec(cfg, after).run.Selecting? && In(Exec(cfg, after), t, Fired)
            && Exec(cfg, after).callbacks[t] == Exec(cfg, steps).callbacks[t] && k !in Exec(cfg, after).pending
  {
    var k := Exec(cfg, steps).callbacks[t].key;
    BasicAlways(cfg, steps);
    DeleteLeavesFired(cfg, Exec(cfg, steps), t);
    Extend2(cfg, steps, HandleDelete(k), RunEmit);
  }

  lemma RestartComesRound(cfg: Config, s: State, t: nat)
    requires cfg.policy.PerKey? && t in s.callbacks && s.callbacks[t].gen < GEN_MODULUS &&
             s.callbacks[t].key !in s.pending
    ensures ComesRound(cfg, s, t, s.callbacks[t].gen)
  {
  }

  /** Timer `t` has fired under generation `gen` for the key of `c`, and its callback is about to mark. */
  ghost predicate FiredFor(s: State, t: nat, c: Change, gen: nat) {
    s.run.Selecting? && In(s, t, Fired) && s.callbacks[t].key == c.Key() && s.callbacks[t].gen == gen
  }

  lemma LeftOverFrom(cfg: Config, steps: seq<Step>, t: nat, c: Change, gen: nat, after: seq<Step>)
    requires cfg.policy.PerKey? && Valid(cfg, steps)
    requires FiredFor(Exec(cfg, steps), t, c, gen) && c.Key() !in Exec(cfg, steps).pending
    requires after == steps + Repeat(HandleUpsert(c), gen + 1)
    ensures Valid(cfg, after) && Misfires(cfg, Exec(cfg, after), t)
  {
    GensSmall(cfg, steps, t);
    RestartComesRound(cfg, Exec(cfg, steps), t);
    MisfiresExactlyWhen(cfg, steps, t, c, gen);
  }

  /**
   * For the instance buffer: a fired callback whose key is not pending marks the entry made by its
   * generation's worth of upserts.
   */
  lemma LeftOverMisfires(cfg: Config, steps: seq<Step>, t: nat, c: Change, gen: nat) returns (after: seq<Step>)
    requires cfg.policy.PerKey? && Valid(cfg, steps)
    requires FiredFor(Exec(cfg, steps), t, c, gen) && c.Key() !in Exec(cfg, steps).pending
    ensures after == steps + Repeat(HandleUpsert(c), gen + 1)
    ensures Valid(cfg, after) && Misfires(cfg, Exec(cfg, after), t)
  {
    after := steps + Repeat(HandleUpsert(c), gen + 1);
    LeftOverFrom(cfg, steps, t, c, gen, after);
  }

  /**
   No fired callback of the instance buffer is ever harmless: a delete of its key and its generation's
   worth of upserts later, it marks an entry that it was not armed for.
   */
  lemma EveryFiredCallbackCanMisfire(cfg: Config, steps: seq<Step>, t: nat, c: Change, gen: nat)
      returns (after: seq<Step>)
    requires cfg.policy.PerKey? && Valid(cfg, steps) && FiredFor(Exec(cfg, steps), t, c, gen)
    ensures after == steps + [HandleDelete(c.Key()), RunEmit] + Repeat(HandleUpsert(c), gen + 1)
    ensures Valid(cfg, after) && Misfires(cfg, Exec(cfg, after), t)
  {
    var deleted := steps + [HandleDelete(c.Key()), RunEmit];
    DeletedFirst(cfg, steps, t);
    after := deleted + Repeat(HandleUpsert(c), gen + 1);
    LeftOverFrom(cfg, deleted, t, c, gen, after);
  }

  /** A first upsert's timer has fired, on the dot. */
  function FirstFired(cfg: Config, c: Change): State
    requires 0 < cfg.window
  {
    Upserted(cfg, Init, c).(
      now := cfg.window, callbacks := map[0 := Callback(c.Key(), ChosenGen(cfg.policy, Init, c.Key()), 0, Fired)])
  }

  /** A first upsert's timer fires, and the key is deleted before its callback takes the lock. */
  function LeftOver(cfg: Config, c: Change): State
    requires 0 < cfg.window
  {
    var fired := FirstFired(cfg, c);
    var parcel := Parcel(Payload([], [c.Key()]), [1]);
    fired.(pending := map[], chan := [parcel.payload], enqueued := [parcel], events := [Upsert(c), Delete(c.Key())],
      fate := map[0 := Cancelled(1), 1 := Enqueued(0)])
  }

  lemma LeftOverFired(cfg: Config, c: Change)
    requires 0 < cfg.window
    ensures Enabled(cfg, Upserted(cfg, Init, c).(now := cfg.window), Fire(0))
    ensures Do(cfg, Upserted(cfg, Init, c).(now := cfg.window), Fire(0)) == FirstFired(cfg, c)
  {
  }

  lemma LeftOverDeleted(cfg: Config, c: Change)
    requires 0 < cfg.window
    ensures var fired := FirstFired(cfg, c);
            Enabled(cfg, fired, HandleDelete(c.Key())) &&
            Enabled(cfg, Do(cfg, fired, HandleDelete(c.Key())), RunEmit) &&
            Do(cfg, Do(cfg, fired, HandleDelete(c.Key())), RunEmit) == LeftOver(cfg, c)
  {
    assert forall h :: !Carries(map[], h, c.Key());
  }

  lemma LeftOverFires(cfg: Config, c: Change) returns (steps: seq<Step>)
    requires 0 < cfg.window
    ensures Valid(cfg, steps)
    ensures Exec(cfg, steps) == FirstFired(cfg, c)
  {
    Extend2(cfg, [], HandleUpsert(c), Elapse(cfg.window));
    LeftOverFired(cfg, c);
    Extend(cfg, [] + [HandleUpsert(c), Elapse(cfg.window)], Fire(0));
    steps := [] + [HandleUpsert(c), Elapse(cfg.window)] + [Fire(0)];
  }

  lemma LeftOverRuns(cfg: Config, c: Change) returns (steps: seq<Step>)
    requires 0 < cfg.window
    ensures Valid(cfg, steps) && Exec(cfg, steps) == LeftOver(cfg, c)
  {
    steps := LeftOverFires(cfg, c);
    LeftOverDeleted(cfg, c);
    Extend2(cfg, steps, HandleDelete(c.Key()), RunEmit);
    steps := steps + [HandleDelete(c.Key()), RunEmit];
  }

  /** So the instance buffer flushes some key before its window is over, whatever the window. */
  lemma InstanceTakesEarly(cfg: Config, c: Change) returns (steps: seq<Step>)
    requires cfg.policy.PerKey? && 0 < cfg.window
    ensures Valid(cfg, steps) && Enabled(cfg, Exec(cfg, steps), Tick([c.Key()]))
    ensures var s := Exec(cfg, steps);
            c.Key() in s.pending && s.pending[c.Key()].timer in s.callbacks &&
            s.now < s.callbacks[s.pending[c.Key()].timer].armedAt + cfg.window
  {
    steps := LeftOverRuns(cfg, c);
    var s := LeftOver(cfg, c);
    Extend2(cfg, steps, HandleUpsert(c), Mark(0));
    steps := steps + [HandleUpsert(c), Mark(0)];
    assert ReadyKeys(Exec(cfg, steps).pending) == {c.Key()};
  }
}
