/**
 What the generation counters achieve. The ideal debouncer has none: a callback can only mark the
 entry it was armed for. The CRD buffer, with one counter, is the ideal debouncer in every run of
 fewer than 2^64 adds. The instance buffer, whose counter restarts with each residence of a key,
 is the ideal debouncer in the runs where no live callback is left over when a key returns, and a
 left-over callback can always be made to mark an entry it was not armed for.
 */
module Generations {
  import opened Downstream
  import opened Pending
  import opened Machine
  import opened Runs

  function Ideal(cfg: Config): Config {
    cfg.(policy := ByTimer)
  }

  /** The timer closure's test: the key is pending under the captured generation. */
  predicate Matches(s: State, t: nat)
    requires t in s.callbacks
  {
    s.callbacks[t].key in s.pending && s.pending[s.callbacks[t].key].gen == s.callbacks[t].gen
  }

  predicate Live(s: State, t: nat) {
    In(s, t, Armed) || In(s, t, Fired)
  }

  /** A callback about to mark can only mark the entry it was armed for. */
  ghost predicate MarksOwn(s: State) {
    forall t :: In(s, t, Fired) && Matches(s, t) ==> s.pending[s.callbacks[t].key].timer == t
  }

  // ----- Equality up to generations -----

  ghost predicate SameTable(p: Table, q: Table) {
    && p.Keys == q.Keys
    && (forall k :: k in p ==> q[k] == p[k].(gen := q[k].gen))
  }

  ghost predicate SameCallbacks(c: map<nat, Callback>, d: map<nat, Callback>) {
    && c.Keys == d.Keys
    && (forall t :: t in c ==> d[t] == c[t].(gen := d[t].gen))
  }

  /** The two states differ in generations at most. */
  ghost predicate Erased(s: State, a: State) {
    && a == s.(pending := a.pending, nextGen := a.nextGen, callbacks := a.callbacks)
    && SameTable(s.pending, a.pending)
    && SameCallbacks(s.callbacks, a.callbacks)
  }

  lemma SameCollected(p: Table, q: Table, order: seq<string>)
    requires SameTable(p, q) && forall k :: k in order ==> k in p
    ensures Collect(p, order) == Collect(q, order) && Stamps(p, order) == Stamps(q, order)
  {
    forall i | 0 <= i < |order| ensures q[order[i]] == p[order[i]].(gen := q[order[i]].gen) {
      assert order[i] in order;
    }
  }

  lemma SameReady(p: Table, q: Table)
    requires SameTable(p, q)
    ensures ReadyKeys(p) == ReadyKeys(q)
  {
  }

  lemma ErasedUpserted(cfg: Config, s: State, a: State, c: Change)
    requires Erased(s, a)
    ensures Erased(Upserted(cfg, s, c), Upserted(Ideal(cfg), a, c))
  {
  }

  lemma ErasedDeleted(s: State, a: State, id: string)
    requires Erased(s, a)
    ensures Erased(Deleted(s, id), Deleted(a, id))
  {
  }

  lemma ErasedTaken(s: State, a: State, h: int, order: seq<string>)
    requires Erased(s, a) && forall k :: k in order ==> k in s.pending
    ensures Erased(Take(s, h, order), Take(a, h, order))
  {
    SameCollected(s.pending, a.pending, order);
  }

  lemma ErasedEmitted(s: State, a: State, h: int)
    requires Erased(s, a) && h in s.flight
    ensures Erased(Emit(s, h), Emit(a, h))
  {
  }

  lemma ErasedEnabled(cfg: Config, s: State, a: State, step: Step)
    requires Erased(s, a) && Enabled(cfg, s, step)
    ensures Enabled(Ideal(cfg), a, step)
  {
    SameReady(s.pending, a.pending);
  }

  lemma ErasedMark(cfg: Config, s: State, a: State, t: nat)
    requires Erased(s, a) && Enabled(cfg, s, Mark(t)) && Enabled(Ideal(cfg), a, Mark(t)) &&
             (Matches(s, t) <==> Matches(a, t))
    ensures Erased(Do(cfg, s, Mark(t)), Do(Ideal(cfg), a, Mark(t)))
  {
  }

  lemma ErasedHandled(cfg: Config, s: State, a: State, step: Step)
    requires Erased(s, a) && Enabled(cfg, s, step) && Enabled(Ideal(cfg), a, step) && Handles(step)
    ensures Erased(Do(cfg, s, step), Do(Ideal(cfg), a, step))
  {
    match step
    case HandleUpsert(c) => ErasedUpserted(cfg, s, a, c);
    case HandleDelete(id) => ErasedDeleted(s, a, id);
  }

  lemma ErasedTook(cfg: Config, s: State, a: State, step: Step)
    requires Erased(s, a) && Enabled(cfg, s, step) && Enabled(Ideal(cfg), a, step) && Takes(step)
    ensures Erased(Do(cfg, s, step), Do(Ideal(cfg), a, step))
  {
    match step
    case Tick(order) => ErasedTaken(s, a, RUN, order);
    case Shutdown(order) => ErasedTaken(s, a, RUN, order);
    case CallbackTake(t, order) => ErasedTaken(s, a, t, order);
  }

  lemma ErasedSent(cfg: Config, s: State, a: State, step: Step)
    requires Erased(s, a) && Enabled(cfg, s, step) && Enabled(Ideal(cfg), a, step) && Emits(step)
    ensures Erased(Do(cfg, s, step), Do(Ideal(cfg), a, step))
  {
    ErasedEmitted(s, a, Holder(step));
  }

  lemma ErasedRest(cfg: Config, s: State, a: State, step: Step)
    requires Erased(s, a) && Enabled(cfg, s, step) && Enabled(Ideal(cfg), a, step)
    requires !Handles(step) && !Takes(step) && !Emits(step) && !step.Mark?
    ensures Erased(Do(cfg, s, step), Do(Ideal(cfg), a, step))
  {
    SameReady(s.pending, a.pending);
  }

  // ----- The ideal debouncer -----

  ghost predicate TimersAreGens(s: State) {
    forall t :: t in s.callbacks ==> s.callbacks[t].gen == t
  }

  lemma {:induction false} IdealGens(cfg: Config, steps: seq<Step>)
    requires cfg.policy.ByTimer? && Valid(cfg, steps)
    ensures TimersAreGens(Exec(cfg, steps))
  {
    if steps != [] {
      var n := |steps| - 1;
      var s := Exec(cfg, steps[..n]);
      IdealGens(cfg, steps[..n]);
      StepShape(cfg, s, steps[n]);
      assert TimersAreGens(Core(cfg, s, steps[n]));
    }
  }

  lemma IdealMarksOwn(s: State)
    requires EntriesHold(s) && TimersAreGens(s)
    ensures forall t :: t in s.callbacks && Matches(s, t) ==> s.pending[s.callbacks[t].key].timer == t
  {
    forall t | t in s.callbacks && Matches(s, t) ensures s.pending[s.callbacks[t].key].timer == t {
      assert EntryHolds(s, s.callbacks[t].key);
    }
  }

  /** If marking only ever marks its own entry, the run is a run of the ideal debouncer. */
  lemma {:induction false} RefinesIdeal(cfg: Config, steps: seq<Step>)
    requires Valid(cfg, steps)
    requires forall n :: 0 <= n < |steps| ==> MarksOwn(Exec(cfg, steps[..n]))
    ensures Valid(Ideal(cfg), steps) && Erased(Exec(cfg, steps), Exec(Ideal(cfg), steps))
  {
    if steps != [] {
      var n := |steps| - 1;
      var step := steps[n];
      assert forall m :: 0 <= m < n ==> steps[..n][..m] == steps[..m];
      RefinesIdeal(cfg, steps[..n]);
      var s, a := Exec(cfg, steps[..n]), Exec(Ideal(cfg), steps[..n]);
      ErasedEnabled(cfg, s, a, step);
      if step.Mark? {
        SameMatch(cfg, steps[..n], step.timer);
        ErasedMark(cfg, s, a, step.timer);
      } else if Handles(step) {
        ErasedHandled(cfg, s, a, step);
      } else if Takes(step) {
        ErasedTook(cfg, s, a, step);
      } else if Emits(step) {
        ErasedSent(cfg, s, a, step);
      } else {
        ErasedRest(cfg, s, a, step);
      }
    }
  }

  lemma SameMatch(cfg: Config, steps: seq<Step>, t: nat)
    requires Valid(cfg, steps) && Valid(Ideal(cfg), steps)
    requires var s, a := Exec(cfg, steps), Exec(Ideal(cfg), steps);
             Erased(s, a) && In(s, t, Fired) && MarksOwn(s)
    ensures var s, a := Exec(cfg, steps), Exec(Ideal(cfg), steps);
            t in s.callbacks && t in a.callbacks && (Matches(s, t) <==> Matches(a, t))
  {
    var s, a := Exec(cfg, steps), Exec(Ideal(cfg), steps);
    var k := s.callbacks[t].key;
    BasicAlways(cfg, steps);
    BasicAlways(Ideal(cfg), steps);
    IdealGens(Ideal(cfg), steps);
    IdealMarksOwn(a);
    if k in s.pending {
      assert EntryHolds(s, k) && EntryHolds(a, k);
    }
  }

  // ----- The CRD buffer: one counter for the buffer -----

  /** Generations grow with the timers, up to `top`. */
  ghost predicate GensOrdered(c: map<nat, Callback>, top: nat) {
    && (forall t :: t in c ==> c[t].gen <= top)
    && (forall t, u :: t in c && u in c && t < u ==> c[t].gen < c[u].gen)
  }

  /** The counter has counted every add and has not wrapped. */
  ghost predicate Ordered(s: State) {
    s.nextGen == |s.callbacks| && GensOrdered(s.callbacks, s.nextGen)
  }

  lemma TimersCounted(s: State, s': State, added: set<nat>)
    requires s'.callbacks.Keys == s.callbacks.Keys + added && s.callbacks.Keys !! added
    ensures |s'.callbacks| == |s.callbacks| + |added|
  {
    assert |s'.callbacks| == |s'.callbacks.Keys|;
    assert |s.callbacks| == |s.callbacks.Keys|;
  }

  lemma TimersUpserted(cfg: Config, s: State, c: Change)
    requires TimersHold(s)
    ensures Upserted(cfg, s, c).callbacks.Keys == s.callbacks.Keys + {|s.events|} && |s.events| !in s.callbacks
    ensures |Upserted(cfg, s, c).callbacks| == |s.callbacks| + 1
  {
    assert Upserted(cfg, s, c).callbacks.Keys == s.callbacks.Keys + {|s.events|};
    TimersCounted(s, Upserted(cfg, s, c), {|s.events|});
  }

  lemma TimersKeptCore(cfg: Config, s: State, step: Step)
    requires Enabled(cfg, s, step) && !step.HandleUpsert?
    ensures Core(cfg, s, step).callbacks.Keys == s.callbacks.Keys
    ensures forall t :: t in s.callbacks ==> SameTimer(s.callbacks[t], Core(cfg, s, step).callbacks[t])
    ensures Core(cfg, s, step).nextGen == s.nextGen
  {
  }

  /** Without an add, no timer appears and none changes but in phase. */
  lemma TimersKept(cfg: Config, s: State, step: Step)
    requires Enabled(cfg, s, step) && !step.HandleUpsert?
    ensures Do(cfg, s, step).callbacks.Keys == s.callbacks.Keys
    ensures forall t :: t in s.callbacks ==> Do(cfg, s, step).callbacks[t].gen == s.callbacks[t].gen
    ensures Do(cfg, s, step).nextGen == s.nextGen && |Do(cfg, s, step).callbacks| == |s.callbacks|
  {
    StepShape(cfg, s, step);
    TimersKeptCore(cfg, s, step);
    TimersCounted(s, Do(cfg, s, step), {});
  }

  lemma GensAdded(c: map<nat, Callback>, d: map<nat, Callback>, t: nat, top: nat)
    requires GensOrdered(c, top) && d.Keys == c.Keys + {t} && d[t].gen == top + 1
    requires forall u :: u in c ==> u < t && d[u].gen == c[u].gen
    ensures GensOrdered(d, top + 1)
  {
  }

  lemma GensUpserted(cfg: Config, s: State, c: Change)
    requires cfg.policy.BufferWide? && s.nextGen + 1 < GEN_MODULUS
    ensures Upserted(cfg, s, c).nextGen == s.nextGen + 1
    ensures Upserted(cfg, s, c).callbacks[|s.events|].gen == s.nextGen + 1
    ensures forall t :: t in s.callbacks && t != |s.events| ==>
            Upserted(cfg, s, c).callbacks[t].gen == s.callbacks[t].gen
  {
  }

  lemma OrderedUpserted(cfg: Config, s: State, c: Change)
    requires cfg.policy.BufferWide? && TimersHold(s) && Ordered(s) && |s.callbacks| + 1 < GEN_MODULUS
    ensures Ordered(Upserted(cfg, s, c))
  {
    TimersUpserted(cfg, s, c);
    GensUpserted(cfg, s, c);
    GensAdded(s.callbacks, Upserted(cfg, s, c).callbacks, |s.events|, s.nextGen);
  }

  lemma GensKept(c: map<nat, Callback>, d: map<nat, Callback>, top: nat)
    requires GensOrdered(c, top) && d.Keys == c.Keys && forall t :: t in c ==> d[t].gen == c[t].gen
    ensures GensOrdered(d, top)
  {
  }

  lemma OrderedKept(cfg: Config, s: State, step: Step)
    requires Ordered(s) && Enabled(cfg, s, step) && !step.HandleUpsert?
    ensures Ordered(Do(cfg, s, step))
  {
    TimersKept(cfg, s, step);
    GensKept(s.callbacks, Do(cfg, s, step).callbacks, s.nextGen);
  }

  lemma TimersGrow(cfg: Config, s: State, step: Step)
    requires TimersHold(s) && Enabled(cfg, s, step)
    ensures |Do(cfg, s, step).callbacks| == |s.callbacks| + if step.HandleUpsert? then 1 else 0
  {
    if step.HandleUpsert? {
      TimersUpserted(cfg, s, step.change);
    } else {
      TimersKept(cfg, s, step);
    }
  }

  lemma TimersOfRun(cfg: Config, steps: seq<Step>)
    requires Valid(cfg, steps) && steps != []
    ensures Valid(cfg, steps[..|steps| - 1])
    ensures |Exec(cfg, steps[..|steps| - 1]).callbacks| <= |Exec(cfg, steps).callbacks|
  {
    BasicAlways(cfg, steps[..|steps| - 1]);
    TimersGrow(cfg, Exec(cfg, steps[..|steps| - 1]), steps[|steps| - 1]);
  }

  lemma {:induction false} TimersOfPrefix(cfg: Config, steps: seq<Step>, n: nat)
    requires Valid(cfg, steps) && n <= |steps|
    ensures Valid(cfg, steps[..n]) && |Exec(cfg, steps[..n]).callbacks| <= |Exec(cfg, steps).callbacks|
  {
    if n == |steps| {
      assert steps[..n] == steps;
    } else {
      var before := steps[..|steps| - 1];
      assert before[..n] == steps[..n];
      TimersOfRun(cfg, steps);
      TimersOfPrefix(cfg, before, n);
    }
  }

  lemma {:induction false} OrderedAlways(cfg: Config, steps: seq<Step>)
    requires cfg.policy.BufferWide? && Valid(cfg, steps) && |Exec(cfg, steps).callbacks| < GEN_MODULUS
    ensures Ordered(Exec(cfg, steps))
  {
    if steps != [] {
      var n := |steps| - 1;
      var s := Exec(cfg, steps[..n]);
      BasicAlways(cfg, steps[..n]);
      TimersGrow(cfg, s, steps[n]);
      OrderedAlways(cfg, steps[..n]);
      if steps[n].HandleUpsert? {
        OrderedUpserted(cfg, s, steps[n].change);
      } else {
        OrderedKept(cfg, s, steps[n]);
      }
    }
  }

  lemma OrderedMarksOwn(s: State)
    requires EntriesHold(s) && Ordered(s)
    ensures MarksOwn(s)
  {
    forall t | In(s, t, Fired) && Matches(s, t) ensures s.pending[s.callbacks[t].key].timer == t {
      assert EntryHolds(s, s.callbacks[t].key);
    }
  }

  /** Every run of the CRD buffer with fewer than 2^64 adds is a run of the ideal debouncer. */
  lemma {:induction false} CrdRefinesIdeal(cfg: Config, steps: seq<Step>)
    requires cfg.policy.BufferWide? && Valid(cfg, steps) && |Exec(cfg, steps).callbacks| < GEN_MODULUS
    ensures Valid(Ideal(cfg), steps) && Erased(Exec(cfg, steps), Exec(Ideal(cfg), steps))
  {
    forall n | 0 <= n < |steps| ensures MarksOwn(Exec(cfg, steps[..n])) {
      TimersOfPrefix(cfg, steps, n);
      BasicAlways(cfg, steps[..n]);
      OrderedAlways(cfg, steps[..n]);
      OrderedMarksOwn(Exec(cfg, steps[..n]));
    }
    RefinesIdeal(cfg, steps);
  }

  // ----- The instance buffer: a counter per residence -----

  /** Whenever an upsert arrives for a key that is not pending, no callback armed for that key earlier is still live. */
  ghost predicate NoLeftOver(s: State, step: Step) {
    step.HandleUpsert? && step.change.Key() !in s.pending ==>
      forall t :: Live(s, t) ==> s.callbacks[t].key != step.change.Key()
  }

  ghost predicate Tidy(cfg: Config, steps: seq<Step>) {
    forall n :: 0 <= n < |steps| ==> NoLeftOver(Exec(cfg, steps[..n]), steps[n])
  }

  lemma TidyPrefix(cfg: Config, steps: seq<Step>, n: nat)
    requires Tidy(cfg, steps) && n <= |steps|
    ensures Tidy(cfg, steps[..n])
  {
    forall m | 0 <= m < n ensures NoLeftOver(Exec(cfg, steps[..n][..m]), steps[..n][m]) {
      assert steps[..n][..m] == steps[..m];
    }
  }

  /** A live callback of an upsert that its key's entry has outgrown. */
  predicate Stale(s: State, t: nat) {
    Live(s, t) && s.callbacks[t].key in s.pending && s.pending[s.callbacks[t].key].timer != t
  }

  /** Within one residence generations strictly increase: a stale live callback is behind its key's entry. */
  ghost predicate Behind(s: State) {
    forall t :: Stale(s, t) ==> s.callbacks[t].gen < s.pending[s.callbacks[t].key].gen
  }

  ghost predicate LowGens(p: Table, bound: nat) {
    forall k :: k in p ==> p[k].gen < bound
  }

  lemma BehindUpsertedAt(cfg: Config, s: State, c: Change, t: nat)
    requires cfg.policy.PerKey? && Basic(s) && Behind(s) && LowGens(s.pending, GEN_MODULUS - 1)
    requires NoLeftOver(s, HandleUpsert(c)) && Stale(Upserted(cfg, s, c), t)
    ensures var s' := Upserted(cfg, s, c); s'.callbacks[t].gen < s'.pending[s'.callbacks[t].key].gen
  {
    var k := c.Key();
    assert t != |s.events| && Live(s, t) && s.callbacks[t].key == Upserted(cfg, s, c).callbacks[t].key;
    if s.callbacks[t].key == k {
      assert EntryHolds(s, k);
      assert Successor(s.pending[k].gen) == s.pending[k].gen + 1;
      assert t == s.pending[k].timer || Stale(s, t);
    } else {
      assert Stale(s, t);
    }
  }

  lemma LowUpserted(cfg: Config, s: State, c: Change, bound: nat)
    requires cfg.policy.PerKey? && LowGens(s.pending, bound) && bound < GEN_MODULUS
    ensures LowGens(Upserted(cfg, s, c).pending, bound + 1)
  {
  }

  /** No step but an upsert brings a callback back to life. */
  lemma NoRevivalCore(cfg: Config, s: State, step: Step, t: nat)
    requires Enabled(cfg, s, step) && !step.HandleUpsert? && Live(Core(cfg, s, step), t)
    ensures Live(s, t)
  {
  }

  lemma NoRevivalQuiet(cfg: Config, s: State, step: Step, t: nat)
    requires Enabled(cfg, s, step) && !step.HandleUpsert? && Live(Do(cfg, s, step), t)
    ensures Live(Core(cfg, s, step), t)
  {
  }

  /** Nor does one change the timer of an entry. */
  lemma PendingKeptCore(cfg: Config, s: State, step: Step, k: string)
    requires Enabled(cfg, s, step) && !step.HandleUpsert? && k in Core(cfg, s, step).pending
    ensures k in s.pending && Core(cfg, s, step).pending[k] == s.pending[k]
  {
  }

  lemma NoRevival(cfg: Config, s: State, step: Step, t: nat)
    requires Enabled(cfg, s, step) && !step.HandleUpsert? && Stale(Do(cfg, s, step), t)
    ensures Stale(s, t) && s.callbacks[t].key == Do(cfg, s, step).callbacks[t].key
  {
    NoRevivalQuiet(cfg, s, step, t);
    NoRevivalCore(cfg, s, step, t);
    StepShape(cfg, s, step);
    TimersKeptCore(cfg, s, step);
    PendingKeptCore(cfg, s, step, s.callbacks[t].key);
  }

  lemma PendingKept(cfg: Config, s: State, step: Step, k: string)
    requires Enabled(cfg, s, step) && !step.HandleUpsert? && k in Do(cfg, s, step).pending
    ensures k in s.pending && Do(cfg, s, step).pending[k].gen == s.pending[k].gen
  {
    StepShape(cfg, s, step);
    PendingKeptCore(cfg, s, step, k);
  }

  lemma BehindKept(cfg: Config, s: State, step: Step)
    requires Behind(s) && Enabled(cfg, s, step) && !step.HandleUpsert?
    ensures Behind(Do(cfg, s, step))
  {
    var s' := Do(cfg, s, step);
    TimersKept(cfg, s, step);
    forall t | Stale(s', t) ensures s'.callbacks[t].gen < s'.pending[s'.callbacks[t].key].gen {
      NoRevival(cfg, s, step, t);
      PendingKept(cfg, s, step, s'.callbacks[t].key);
    }
  }

  lemma {:induction false} LowAlways(cfg: Config, steps: seq<Step>)
    requires cfg.policy.PerKey? && Valid(cfg, steps) && |Exec(cfg, steps).callbacks| <= GEN_MODULUS
    ensures LowGens(Exec(cfg, steps).pending, |Exec(cfg, steps).callbacks|)
  {
    if steps != [] {
      var n := |steps| - 1;
      var s := Exec(cfg, steps[..n]);
      BasicAlways(cfg, steps[..n]);
      TimersGrow(cfg, s, steps[n]);
      LowAlways(cfg, steps[..n]);
      if steps[n].HandleUpsert? {
        LowUpserted(cfg, s, steps[n].change, |s.callbacks|);
      } else {
        forall k | k in Do(cfg, s, steps[n]).pending ensures Do(cfg, s, steps[n]).pending[k].gen < |s.callbacks| {
          PendingKept(cfg, s, steps[n], k);
        }
      }
    }
  }

  lemma {:induction false} BehindAlways(cfg: Config, steps: seq<Step>)
    requires cfg.policy.PerKey? && Valid(cfg, steps) && Tidy(cfg, steps) && |Exec(cfg, steps).callbacks| < GEN_MODULUS
    ensures Behind(Exec(cfg, steps))
  {
    if steps != [] {
      var n := |steps| - 1;
      var s := Exec(cfg, steps[..n]);
      TidyPrefix(cfg, steps, n);
      TimersOfPrefix(cfg, steps, n);
      BehindAlways(cfg, steps[..n]);
      BasicAlways(cfg, steps[..n]);
      BehindStep(cfg, steps[..n], steps[n]);
    }
  }

  lemma BehindStep(cfg: Config, steps: seq<Step>, step: Step)
    requires cfg.policy.PerKey? && Valid(cfg, steps) && Enabled(cfg, Exec(cfg, steps), step)
    requires Behind(Exec(cfg, steps)) && NoLeftOver(Exec(cfg, steps), step)
    requires |Do(cfg, Exec(cfg, steps), step).callbacks| < GEN_MODULUS
    ensures Behind(Do(cfg, Exec(cfg, steps), step))
  {
    var s := Exec(cfg, steps);
    BasicAlways(cfg, steps);
    TimersGrow(cfg, s, step);
    if step.HandleUpsert? {
      LowAlways(cfg, steps);
      assert LowGens(s.pending, GEN_MODULUS - 1);
      forall t | Stale(Upserted(cfg, s, step.change), t)
        ensures var s' := Upserted(cfg, s, step.change); s'.callbacks[t].gen < s'.pending[s'.callbacks[t].key].gen
      {
        BehindUpsertedAt(cfg, s, step.change, t);
      }
    } else {
      BehindKept(cfg, s, step);
    }
  }

  lemma BehindMarksOwn(s: State)
    requires Behind(s)
    ensures MarksOwn(s)
  {
    forall t | In(s, t, Fired) && Matches(s, t) ensures s.pending[s.callbacks[t].key].timer == t {
      assert s.pending[s.callbacks[t].key].timer == t || Stale(s, t);
    }
  }

  /** A run of the instance buffer that leaves no live callback behind is a run of the ideal debouncer. */
  lemma {:induction false} InstanceRefinesIdeal(cfg: Config, steps: seq<Step>)
    requires cfg.policy.PerKey? && Valid(cfg, steps) && Tidy(cfg, steps) && |Exec(cfg, steps).callbacks| < GEN_MODULUS
    ensures Valid(Ideal(cfg), steps) && Erased(Exec(cfg, steps), Exec(Ideal(cfg), steps))
  {
    forall n | 0 <= n < |steps| ensures MarksOwn(Exec(cfg, steps[..n])) {
      TimersOfPrefix(cfg, steps, n);
      TidyPrefix(cfg, steps, n);
      BasicAlways(cfg, steps[..n]);
      BehindAlways(cfg, steps[..n]);
      BehindMarksOwn(Exec(cfg, steps[..n]));
    }
    RefinesIdeal(cfg, steps);
  }
}
