/**
 Exactly when an upsert can be flushed before its window is over: when a callback of its key that
 carries the very generation the new entry gets is still to mark, and is older than the entry. For the
 CRD buffer there is never one; for the instance buffer there is whenever a callback of an earlier
 residence of the key is left over at that generation.
 */
module EarlyFlush {
  import opened Downstream
  import opened Pending
  import opened Machine
  import opened Runs
  import opened Coherence
  import opened Generations
  import opened Guarantee

  /** Some entry of the key is flushed in this step. */
  predicate FlushesKey(step: Step, k: string) {
    (step.Tick? || step.CallbackTake?) && k in step.order
  }

  /**
   A run that goes on from `steps` by handling the upsert, handles no other event of its key, and then
   flushes it inside its window.
   */
  ghost predicate FlushedEarly(cfg: Config, steps: seq<Step>, c: Change, all: seq<Step>, step: Step) {
    && Valid(cfg, all) && steps + [HandleUpsert(c)] <= all
    && (forall n :: |steps| < n < |all| ==> !HandlesKey(all[n], c.Key()))
    && Enabled(cfg, Exec(cfg, all), step) && FlushesKey(step, c.Key())
    && Exec(cfg, all).now < Exec(cfg, steps).now + cfg.window
  }

  /**
   Timer `t` could make the entry of an upsert of `k` handled now ready too early: its callback matches
   the generation the entry gets, and has fired already, or will fire although it was armed earlier.
   */
  ghost predicate Threatens(cfg: Config, s: State, k: string, t: nat) {
    && t in s.callbacks && s.callbacks[t].key == k && s.callbacks[t].gen == ChosenGen(cfg.policy, s, k)
    && (s.callbacks[t].phase.Fired? ||
        (s.callbacks[t].phase.Armed? && s.callbacks[t].armedAt < s.now && !(k in s.pending && s.pending[k].timer == t)))
  }

  // ----- Without a threat -----

  /**
   Since that moment, when the entry was made: the entry of the key has generation `gen` and becomes ready only
   after a window, and no live callback of that generation is older.
   */
  ghost predicate Guarded(cfg: Config, s: State, k: string, gen: nat, since: int) {
    && since <= s.now
    && (k in s.pending ==> s.pending[k].gen == gen && (s.pending[k].ready ==> since + cfg.window <= s.now))
    && (forall t :: Live(s, t) && s.callbacks[t].key == k && s.callbacks[t].gen == gen ==>
          since <= s.callbacks[t].armedAt)
  }

  lemma GuardedBegins(cfg: Config, s: State, c: Change)
    requires Basic(s) && s.run.Selecting? && forall t :: !Threatens(cfg, s, c.Key(), t)
    ensures Guarded(cfg, Upserted(cfg, s, c), c.Key(), ChosenGen(cfg.policy, s, c.Key()), s.now)
  {
    var k := c.Key();
    var s' := Upserted(cfg, s, c);
    forall t | Live(s', t) && s'.callbacks[t].key == k && s'.callbacks[t].gen == ChosenGen(cfg.policy, s, k)
      ensures s.now <= s'.callbacks[t].armedAt
    {
      if t != |s.events| {
        assert t in s.callbacks && s.callbacks[t].gen == s'.callbacks[t].gen;
        assert !Threatens(cfg, s, k, t);
        assert k in s.pending ==> EntryHolds(s, k);
      }
    }
  }

  lemma GuardedUpserted(cfg: Config, s: State, c: Change, k: string, gen: nat, since: int)
    requires Basic(s) && Guarded(cfg, s, k, gen, since) && c.Key() != k
    ensures Guarded(cfg, Upserted(cfg, s, c), k, gen, since)
  {
    var s' := Upserted(cfg, s, c);
    assert |s.events| !in s.callbacks;
    forall t | Live(s', t) && s'.callbacks[t].key == k && s'.callbacks[t].gen == gen
      ensures since <= s'.callbacks[t].armedAt {
      assert Live(s, t) && s.callbacks[t].armedAt == s'.callbacks[t].armedAt;
    }
  }

  lemma GuardedTimers(cfg: Config, s: State, step: Step, t: nat)
    requires Enabled(cfg, s, step) && !step.HandleUpsert? && Live(Do(cfg, s, step), t)
    ensures Live(s, t) && SameTimer(s.callbacks[t], Do(cfg, s, step).callbacks[t])
  {
    NoRevivalQuiet(cfg, s, step, t);
    NoRevivalCore(cfg, s, step, t);
    StepShape(cfg, s, step);
    TimersKeptCore(cfg, s, step);
  }

  lemma GuardedMarked(cfg: Config, s: State, t: nat, k: string, gen: nat, since: int)
    requires FiredLate(cfg, s) && Guarded(cfg, s, k, gen, since) && Enabled(cfg, s, Mark(t))
    ensures var p := Do(cfg, s, Mark(t)).pending;
            k in p ==> p[k].gen == gen && (p[k].ready ==> since + cfg.window <= s.now)
  {
    assert Live(s, t);
  }

  lemma NowGrows(cfg: Config, s: State, step: Step)
    requires Enabled(cfg, s, step)
    ensures s.now <= Do(cfg, s, step).now && (step.Mark? ==> Do(cfg, s, step).now == s.now)
  {
  }

  lemma GuardedEntry(cfg: Config, s: State, step: Step, k: string, gen: nat, since: int)
    requires Guarded(cfg, s, k, gen, since) && Enabled(cfg, s, step) && !step.HandleUpsert? && !step.Mark?
    ensures var p := Do(cfg, s, step).pending;
            k in p ==> p[k].gen == gen && (p[k].ready ==> since + cfg.window <= s.now)
  {
    if k in Do(cfg, s, step).pending {
      ReadyKept(cfg, s, step, k);
      PendingKeptCore(cfg, s, step, k);
    }
  }

  lemma GuardedStep(cfg: Config, s: State, step: Step, k: string, gen: nat, since: int)
    requires Basic(s) && FiredLate(cfg, s) && Guarded(cfg, s, k, gen, since)
    requires Enabled(cfg, s, step) && !HandlesKey(step, k)
    ensures Guarded(cfg, Do(cfg, s, step), k, gen, since)
  {
    if step.HandleUpsert? {
      GuardedUpserted(cfg, s, step.change, k, gen, since);
    } else {
      var s' := Do(cfg, s, step);
      NowGrows(cfg, s, step);
      if step.Mark? {
        GuardedMarked(cfg, s, step.timer, k, gen, since);
      } else {
        GuardedEntry(cfg, s, step, k, gen, since);
      }
      forall t | Live(s', t) && s'.callbacks[t].key == k && s'.callbacks[t].gen == gen
        ensures since <= s'.callbacks[t].armedAt
      {
        GuardedTimers(cfg, s, step, t);
      }
    }
  }

  lemma {:induction false} GuardedAlong(cfg: Config, all: seq<Step>, m: nat, c: Change)
    requires Valid(cfg, all) && m < |all| && all[m] == HandleUpsert(c)
    requires forall n :: m < n < |all| ==> !HandlesKey(all[n], c.Key())
    requires forall t :: !Threatens(cfg, Exec(cfg, all[..m]), c.Key(), t)
    ensures var s := Exec(cfg, all[..m]);
            Guarded(cfg, Exec(cfg, all), c.Key(), ChosenGen(cfg.policy, s, c.Key()), s.now)
  {
    var n := |all| - 1;
    var before := all[..n];
    BasicAlways(cfg, before);
    if m == n {
      GuardedBegins(cfg, Exec(cfg, before), c);
    } else {
      assert before[..m] == all[..m];
      FiredLateAlways(cfg, before);
      GuardedAlong(cfg, before, m, c);
      var s := Exec(cfg, all[..m]);
      GuardedStep(cfg, Exec(cfg, before), all[n], c.Key(), ChosenGen(cfg.policy, s, c.Key()), s.now);
    }
  }

  lemma SafeWithoutThreat(cfg: Config, steps: seq<Step>, c: Change, all: seq<Step>, step: Step)
    requires forall t :: !Threatens(cfg, Exec(cfg, steps), c.Key(), t)
    ensures !FlushedEarly(cfg, steps, c, all, step)
  {
    if FlushedEarly(cfg, steps, c, all, step) {
      assert all[|steps|] == (steps + [HandleUpsert(c)])[|steps|];
      assert all[..|steps|] == steps;
      GuardedAlong(cfg, all, |steps|, c);
    }
  }

  // ----- With one -----

  /** The entry just made, with the threatening callback fired and about to mark. */
  ghost predicate AboutToMisfire(cfg: Config, s: State, k: string, t: nat) {
    && s.run.Selecting? && In(s, t, Fired) && s.callbacks[t].key == k
    && k in s.pending && s.pending[k].gen == s.callbacks[t].gen
  }

  lemma MarkMakesReady(cfg: Config, s: State, k: string, t: nat)
    requires AboutToMisfire(cfg, s, k, t)
    ensures Enabled(cfg, s, Mark(t))
    ensures var r := Do(cfg, s, Mark(t)); r.run.Selecting? && k in ReadyKeys(r.pending) && r.now == s.now
  {
  }

  lemma FiredThreat(cfg: Config, s: State, c: Change, t: nat)
    requires Basic(s) && s.run.Selecting? && Threatens(cfg, s, c.Key(), t) && In(s, t, Fired)
    ensures AboutToMisfire(cfg, Upserted(cfg, s, c), c.Key(), t) && Upserted(cfg, s, c).now == s.now
  {
    assert |s.events| !in s.callbacks;
  }

  /** How long the armed callback still has to wait. */
  ghost function Rest(cfg: Config, s: State, t: nat): nat
    requires t in s.callbacks
  {
    if s.callbacks[t].armedAt + cfg.window <= s.now then 0 else s.callbacks[t].armedAt + cfg.window - s.now
  }

  lemma ArmedThreat(cfg: Config, s: State, c: Change, t: nat)
    requires Basic(s) && s.run.Selecting? && Threatens(cfg, s, c.Key(), t) && In(s, t, Armed) && 0 < cfg.window
    ensures var u := Upserted(cfg, s, c);
            && t in u.callbacks && u.callbacks[t] == s.callbacks[t] && Rest(cfg, s, t) < cfg.window
            && var w := u.(now := u.now + Rest(cfg, s, t));
               Do(cfg, u, Elapse(Rest(cfg, s, t))) == w && Enabled(cfg, w, Fire(t))
  {
    assert |s.events| !in s.callbacks;
  }

  lemma ArmedThreatFires(cfg: Config, s: State, c: Change, t: nat)
    requires Basic(s) && s.run.Selecting? && Threatens(cfg, s, c.Key(), t) && In(s, t, Armed) && 0 < cfg.window
    requires var u := Upserted(cfg, s, c);
             t in u.callbacks && u.callbacks[t] == s.callbacks[t] &&
               Enabled(cfg, u.(now := u.now + Rest(cfg, s, t)), Fire(t))
    ensures var u := Upserted(cfg, s, c);
            var r := Do(cfg, u.(now := u.now + Rest(cfg, s, t)), Fire(t));
            AboutToMisfire(cfg, r, c.Key(), t) && r.now == s.now + Rest(cfg, s, t)
  {
    assert |s.events| !in s.callbacks;
  }

  /** From the upsert to a state where the callback is about to mark its entry, before the window is over. */
  lemma ThreatArrives(cfg: Config, steps: seq<Step>, c: Change, t: nat) returns (more: seq<Step>)
    requires Valid(cfg, steps) && Exec(cfg, steps).run.Selecting? && 0 < cfg.window
    requires Threatens(cfg, Exec(cfg, steps), c.Key(), t)
    ensures more == steps + [HandleUpsert(c)] ||
            exists d :: more == steps + [HandleUpsert(c)] + [Elapse(d), Fire(t)]
    ensures Valid(cfg, more) && AboutToMisfire(cfg, Exec(cfg, more), c.Key(), t)
    ensures Exec(cfg, more).now < Exec(cfg, steps).now + cfg.window
  {
    var s := Exec(cfg, steps);
    BasicAlways(cfg, steps);
    Extend(cfg, steps, HandleUpsert(c));
    more := steps + [HandleUpsert(c)];
    if In(s, t, Fired) {
      FiredThreat(cfg, s, c, t);
    } else {
      ArmedThreat(cfg, s, c, t);
      ArmedThreatFires(cfg, s, c, t);
      Extend2(cfg, more, Elapse(Rest(cfg, s, t)), Fire(t));
      more := more + [Elapse(Rest(cfg, s, t)), Fire(t)];
    }
  }

  lemma ThreatStrikes(cfg: Config, steps: seq<Step>, c: Change, t: nat) returns (all: seq<Step>, step: Step)
    requires Valid(cfg, steps) && Exec(cfg, steps).run.Selecting? && 0 < cfg.window
    requires Threatens(cfg, Exec(cfg, steps), c.Key(), t)
    ensures FlushedEarly(cfg, steps, c, all, step)
  {
    var more := ThreatArrives(cfg, steps, c, t);
    MarkMakesReady(cfg, Exec(cfg, more), c.Key(), t);
    Extend(cfg, more, Mark(t));
    all := more + [Mark(t)];
    var order := OrderExists(ReadyKeys(Exec(cfg, all).pending));
    step := Tick(order);
  }

  // ----- Exactly when -----

  /** No continuation without another event of its key flushes the upsert inside its window. */
  ghost predicate NeverEarly(cfg: Config, steps: seq<Step>, c: Change) {
    forall all, step :: !FlushedEarly(cfg, steps, c, all, step)
  }

  /** A buffer whose window is not positive has nothing to keep. */
  lemma NoWindowNeverEarly(cfg: Config, steps: seq<Step>, c: Change)
    requires cfg.window <= 0
    ensures NeverEarly(cfg, steps, c)
  {
    forall all, step ensures !FlushedEarly(cfg, steps, c, all, step) {
      if FlushedEarly(cfg, steps, c, all, step) {
        assert all[..|steps|] == steps;
        NowSince(cfg, all, |steps|);
      }
    }
  }

  lemma {:induction false} NowSince(cfg: Config, steps: seq<Step>, m: nat)
    requires Valid(cfg, steps) && m <= |steps|
    ensures Exec(cfg, steps[..m]).now <= Exec(cfg, steps).now
  {
    if m == |steps| {
      assert steps[..m] == steps;
    } else {
      var before := steps[..|steps| - 1];
      assert before[..m] == steps[..m];
      NowSince(cfg, before, m);
      NowGrows(cfg, Exec(cfg, before), steps[|steps| - 1]);
    }
  }

  /**
   Under every policy: an upsert handled at Run's select keeps its window in every continuation without
   another event of its key exactly when no callback of the key threatens it, or there is no window.
   */
  lemma NeverEarlyExactlyWhen(cfg: Config, steps: seq<Step>, c: Change)
    requires Valid(cfg, steps) && Exec(cfg, steps).run.Selecting?
    ensures NeverEarly(cfg, steps, c) <==> cfg.window <= 0 || forall t :: !Threatens(cfg, Exec(cfg, steps), c.Key(), t)
  {
    if cfg.window <= 0 {
      NoWindowNeverEarly(cfg, steps, c);
    } else if t :| Threatens(cfg, Exec(cfg, steps), c.Key(), t) {
      var all, step := ThreatStrikes(cfg, steps, c, t);
    } else {
      forall all, step ensures !FlushedEarly(cfg, steps, c, all, step) {
        SafeWithoutThreat(cfg, steps, c, all, step);
      }
    }
  }

  /** The CRD buffer is never threatened in its first 2^64 - 1 adds: no callback carries the next count. */
  lemma CrdNeverThreatened(cfg: Config, steps: seq<Step>, k: string, t: nat)
    requires cfg.policy.BufferWide? && Valid(cfg, steps) && |Exec(cfg, steps).callbacks| + 1 < GEN_MODULUS
    ensures !Threatens(cfg, Exec(cfg, steps), k, t)
  {
    OrderedAlways(cfg, steps);
    CountedNoThreat(cfg, Exec(cfg, steps), k, t);
  }

  lemma CountedNoThreat(cfg: Config, s: State, k: string, t: nat)
    requires cfg.policy.BufferWide? && Ordered(s) && |s.callbacks| + 1 < GEN_MODULUS
    ensures !Threatens(cfg, s, k, t)
  {
    assert ChosenGen(cfg.policy, s, k) == s.nextGen + 1;
  }

  /** A callback of generation 0 that an earlier residence of the key left over: fired, or armed before now. */
  ghost predicate LeftOverAtZero(s: State, k: string, t: nat) {
    && t in s.callbacks && s.callbacks[t].key == k && s.callbacks[t].gen == 0
    && (In(s, t, Fired) || (In(s, t, Armed) && s.callbacks[t].armedAt < s.now))
  }

  /** In the instance buffer a key that returns to the table keeps its window exactly when none is left over. */
  lemma {:induction false} ReturnNeverEarlyExactlyWhen(cfg: Config, steps: seq<Step>, c: Change)
    requires cfg.policy.PerKey? && 0 < cfg.window && Valid(cfg, steps)
    requires Exec(cfg, steps).run.Selecting? && c.Key() !in Exec(cfg, steps).pending
    ensures NeverEarly(cfg, steps, c) <==> forall t: nat :: !LeftOverAtZero(Exec(cfg, steps), c.Key(), t)
  {
    NeverEarlyExactlyWhen(cfg, steps, c);
    var s := Exec(cfg, steps);
    forall t: nat ensures LeftOverAtZero(s, c.Key(), t) <==> Threatens(cfg, s, c.Key(), t) {
    }
  }
}
