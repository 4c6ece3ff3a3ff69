/** The output channel and the size of what goes into it, over every interleaving. */
module Protocol {
  import opened Downstream
  import opened Pending
  import opened Machine
  import opened Coherence
  import opened Ledger
  import opened Runs
  import opened Sets

  // ----- The channel -----

  ghost predicate ChannelHolds(s: State) {
    && |s.chan| <= CAPACITY
    && Payloads(s.enqueued) == s.received + s.chan
    && s.closes == if s.closed then 1 else 0
  }

  lemma ChannelEmitted(s: State, h: int)
    requires ChannelHolds(s) && h in s.flight
    ensures ChannelHolds(Emit(s, h))
  {
    if Accepts(s) {
      assert Payloads(s.enqueued + [s.flight[h]]) == Payloads(s.enqueued) + [s.flight[h].payload];
    }
  }

  lemma ChannelKept(cfg: Config, s: State, step: Step)
    requires ControlHolds(s) && ChannelHolds(s) && Enabled(cfg, s, step) && !Emits(step)
    ensures ChannelHolds(Do(cfg, s, step))
  {
  }

  lemma {:induction false} ChannelAlways(cfg: Config, steps: seq<Step>)
    requires Valid(cfg, steps)
    ensures ChannelHolds(Exec(cfg, steps))
  {
    if steps != [] {
      var n := |steps| - 1;
      var s := Exec(cfg, steps[..n]);
      BasicAlways(cfg, steps[..n]);
      ChannelAlways(cfg, steps[..n]);
      if Emits(steps[n]) {
        ChannelEmitted(s, Holder(steps[n]));
      } else {
        ChannelKept(cfg, s, steps[n]);
      }
    }
  }

  /** A payload that the pipeline may carry: upserts only, or exactly one delete. */
  predicate WellFormed(p: Payload) {
    !p.IsEmpty() && (p.deletes == [] || (p.upserts == [] && |p.deletes| == 1))
  }

  /**
   The channel is closed at most once, holds at most its capacity, and is first in, first out; what
   went in is well formed, so the sender's skip of empty payloads is never reached from here.
   */
  lemma {:induction false} ChannelProtocol(cfg: Config, steps: seq<Step>)
    requires Valid(cfg, steps)
    ensures var s := Exec(cfg, steps);
            s.closes <= 1 && |s.chan| <= CAPACITY && Payloads(s.enqueued) == s.received + s.chan
    ensures forall j :: 0 <= j < |Exec(cfg, steps).enqueued| ==> WellFormed(Exec(cfg, steps).enqueued[j].payload)
  {
    ChannelAlways(cfg, steps);
    BooksAlways(cfg, steps);
    forall j | 0 <= j < |Exec(cfg, steps).enqueued| ensures WellFormed(Exec(cfg, steps).enqueued[j].payload) {
      assert ParcelHolds(Exec(cfg, steps).events, Exec(cfg, steps).enqueued[j]);
    }
  }

  /**
   * Once the channel is closed it stays closed, whatever comes: nothing more goes in, and what is in it only
   * leaves, in order.
   */
  lemma {:induction false} NothingAfterClose(cfg: Config, steps: seq<Step>, more: seq<Step>)
    requires Valid(cfg, steps + more) && Exec(cfg, steps).closed
    ensures var s, s' := Exec(cfg, steps), Exec(cfg, steps + more);
            && s'.closed && s'.closes == s.closes && s'.enqueued == s.enqueued
            && |s.received| <= |s'.received| && s'.received + s'.chan == s.received + s.chan
  {
    if more == [] {
      assert steps + more == steps;
    } else {
      var all := steps + more;
      var n := |all| - 1;
      assert all[..n] == steps + more[..|more| - 1];
      NothingAfterClose(cfg, steps, more[..|more| - 1]);
      ChannelAlways(cfg, all[..n]);
      ClosedKept(cfg, Exec(cfg, all[..n]), all[n]);
    }
  }

  lemma ReceiveKeeps(received: seq<Payload>, chan: seq<Payload>)
    requires chan != []
    ensures (received + [chan[0]]) + chan[1..] == received + chan
  {
  }

  lemma ClosedKept(cfg: Config, s: State, step: Step)
    requires s.closed && Enabled(cfg, s, step)
    ensures var s' := Do(cfg, s, step);
            && s'.closed && s'.closes == s.closes && s'.enqueued == s.enqueued
            && |s.received| <= |s'.received| && s'.received + s'.chan == s.received + s.chan
  {
    StepShape(cfg, s, step);
    if step.Receive? {
      ReceiveKeeps(s.received, s.chan);
    }
  }

  // ----- The batch bound -----

  function Max(a: int, b: int): int {
    if a >= b then a else b
  }

  predicate AtWork(c: Callback) {
    c.phase.Marked? || c.phase.Flushing?
  }

  /** Callbacks that have marked and not yet decided against, or finished, a flush. */
  ghost function Counting(s: State): set<nat> {
    set t | t in s.callbacks && AtWork(s.callbacks[t])
  }

  ghost predicate Bounded(cfg: Config, s: State) {
    |ReadyKeys(s.pending)| <= Max(0, cfg.maxBatch - 1) + |Counting(s)|
  }

  lemma BoundHandled(cfg: Config, s: State, step: Step)
    requires TimersHold(s) && Bounded(cfg, s) && Enabled(cfg, s, step) && Handles(step)
    ensures Bounded(cfg, Do(cfg, s, step))
  {
    var s' := Do(cfg, s, step);
    assert |s.events| !in s.callbacks;
    assert Counting(s') == Counting(s);
    SubsetSize(ReadyKeys(s'.pending), ReadyKeys(s.pending));
  }

  lemma BoundMarked(cfg: Config, s: State, t: nat)
    requires Bounded(cfg, s) && Enabled(cfg, s, Mark(t))
    ensures Bounded(cfg, Do(cfg, s, Mark(t)))
  {
    var s' := Do(cfg, s, Mark(t));
    assert Counting(s') == Counting(s) + {t};
    SubsetSize(ReadyKeys(s'.pending), ReadyKeys(s.pending) + {s.callbacks[t].key});
  }

  lemma BoundCounted(cfg: Config, s: State, t: nat)
    requires Bounded(cfg, s) && Enabled(cfg, s, Count(t))
    ensures Bounded(cfg, Do(cfg, s, Count(t)))
  {
    var s' := Do(cfg, s, Count(t));
    if |ReadyKeys(s.pending)| >= cfg.maxBatch {
      assert Counting(s') == Counting(s);
    } else {
      assert Counting(s') == Counting(s) - {t};
    }
  }

  lemma BoundTaken(cfg: Config, s: State, step: Step)
    requires Enabled(cfg, s, step) && Takes(step)
    ensures Bounded(cfg, Do(cfg, s, step))
  {
    assert ReadyKeys(Do(cfg, s, step).pending) == {};
  }

  lemma BoundKept(cfg: Config, s: State, step: Step)
    requires Bounded(cfg, s) && Enabled(cfg, s, step)
    requires !Handles(step) && !Takes(step) && !step.Mark? && !step.Count?
    ensures Bounded(cfg, Do(cfg, s, step))
  {
    assert Counting(Do(cfg, s, step)) == Counting(s);
  }

  lemma BoundStep(cfg: Config, s: State, step: Step)
    requires TimersHold(s) && Bounded(cfg, s) && Enabled(cfg, s, step)
    ensures Bounded(cfg, Do(cfg, s, step))
  {
    if Handles(step) {
      BoundHandled(cfg, s, step);
    } else if Takes(step) {
      BoundTaken(cfg, s, step);
    } else {
      match step
      case Mark(t) => BoundMarked(cfg, s, t);
      case Count(t) => BoundCounted(cfg, s, t);
      case _ => BoundKept(cfg, s, step);
    }
  }

  lemma {:induction false} BoundAlways(cfg: Config, steps: seq<Step>)
    requires Valid(cfg, steps)
    ensures Bounded(cfg, Exec(cfg, steps))
  {
    if steps != [] {
      var n := |steps| - 1;
      BasicAlways(cfg, steps[..n]);
      BoundAlways(cfg, steps[..n]);
      BoundStep(cfg, Exec(cfg, steps[..n]), steps[n]);
    } else {
      assert ReadyKeys(Init.pending) == {};
    }
  }

  /** No flush takes more than the bound; with at most one callback at work that is max(maxBatch, 1). */
  lemma BatchBound(cfg: Config, steps: seq<Step>, step: Step)
    requires Valid(cfg, steps) && Enabled(cfg, Exec(cfg, steps), step) && (step.Tick? || step.CallbackTake?)
    ensures |step.order| <= Max(0, cfg.maxBatch - 1) + |Counting(Exec(cfg, steps))|
    ensures |Counting(Exec(cfg, steps))| <= 1 ==> |step.order| <= Max(cfg.maxBatch, 1)
  {
    BoundAlways(cfg, steps);
    EnumerationSize(step.order, ReadyKeys(Exec(cfg, steps).pending));
  }

  // ----- The bound is exact -----

  function Name(base: string, i: nat): (k: string)
    ensures |k| == |base| + i + 1
  {
    base + seq(i + 1, _ => 'x')
  }

  /** Nothing has been taken yet, and nothing is stained. */
  ghost predicate Untaken(s: State) {
    s.run.Selecting? && s.flight == map[] && s.chan == [] && s.enqueued == [] && s.dropped == [] && s.stained == {}
  }

  /**
   * `n` keys are pending, all of them ready and none longer than `base` by more than n, and `atWork` callbacks
   * have marked and not finished.
   */
  ghost predicate Staged(s: State, base: string, n: nat, atWork: nat) {
    && Untaken(s) && |s.pending| == n && |Counting(s)| == atWork
    && (forall k :: k in s.pending ==> s.pending[k].ready && |base| < |k| <= |base| + n)
  }

  lemma StagedReady(s: State, base: string, n: nat, atWork: nat)
    requires Staged(s, base, n, atWork)
    ensures |ReadyKeys(s.pending)| == n
  {
    assert ReadyKeys(s.pending) == s.pending.Keys;
    assert |s.pending.Keys| == |s.pending|;
  }

  lemma CountingAdded(s: State, s': State, t: nat)
    requires t !in s.callbacks && s'.callbacks.Keys == s.callbacks.Keys + {t} && AtWork(s'.callbacks[t])
    requires forall u :: u in s.callbacks ==> (AtWork(s'.callbacks[u]) <==> AtWork(s.callbacks[u]))
    ensures |Counting(s')| == |Counting(s)| + 1
  {
    assert Counting(s') == Counting(s) + {t};
  }

  lemma CountingSettled(cfg: Config, s: State, c: Change)
    requires TimersHold(s)
    ensures |Counting(Settled(cfg, s, c))| == |Counting(s)| + 1
  {
    assert |s.events| !in s.callbacks;
    CountingAdded(s, Settled(cfg, s, c), |s.events|);
  }

  lemma UntakenSettled(cfg: Config, s: State, c: Change)
    requires Untaken(s)
    ensures Untaken(Settled(cfg, s, c))
  {
    assert forall h :: !Carries(s.flight, h, c.Key());
  }

  lemma TableSettled(cfg: Config, s: State, c: Change)
    requires c.Key() !in s.pending
    ensures var p := Settled(cfg, s, c).pending;
            && p.Keys == s.pending.Keys + {c.Key()} && |p| == |s.pending| + 1
            && p[c.Key()].ready && p[c.Key()].change == c && (forall k :: k in s.pending ==> p[k] == s.pending[k])
  {
    var p := Settled(cfg, s, c).pending;
    assert p.Keys == s.pending.Keys + {c.Key()};
    assert |p.Keys| == |s.pending.Keys| + 1;
  }

  lemma StagedSettled(cfg: Config, s: State, base: string, n: nat, atWork: nat)
    requires TimersHold(s) && Staged(s, base, n, atWork)
    ensures Staged(Settled(cfg, s, Crd(Name(base, n))), base, n + 1, atWork + 1)
  {
    var c := Crd(Name(base, n));
    CountingSettled(cfg, s, c);
    UntakenSettled(cfg, s, c);
    TableSettled(cfg, s, c);
  }

  /** One more key settles, and its callback counts nothing yet. */
  lemma OneMoreAtWork(cfg: Config, steps: seq<Step>, base: string, n: nat, atWork: nat) returns (more: seq<Step>)
    requires Valid(cfg, steps) && Staged(Exec(cfg, steps), base, n, atWork)
    ensures Valid(cfg, more) && Staged(Exec(cfg, more), base, n + 1, atWork + 1)
    ensures Exec(cfg, more) == Settled(cfg, Exec(cfg, steps), Crd(Name(base, n)))
  {
    var s := Exec(cfg, steps);
    more := steps + Settle(cfg, s, Crd(Name(base, n)));
    SettleRuns(cfg, steps, Crd(Name(base, n)));
    BasicAlways(cfg, steps);
    StagedSettled(cfg, s, base, n, atWork);
  }

  lemma CountingLeft(cfg: Config, s: State, t: nat)
    requires In(s, t, Marked) && |ReadyKeys(s.pending)| < cfg.maxBatch
    ensures var s' := Do(cfg, s, Count(t));
            0 < |Counting(s)| && |Counting(s')| == |Counting(s)| - 1 && s' == s.(callbacks := s'.callbacks)
  {
    assert t in Counting(s);
    assert Counting(Do(cfg, s, Count(t))) == Counting(s) - {t};
  }

  lemma StagedCounted(cfg: Config, s: State, base: string, n: nat, atWork: nat, t: nat)
    requires Staged(s, base, n, atWork) && In(s, t, Marked) && n < cfg.maxBatch
    ensures 0 < atWork && Staged(Do(cfg, s, Count(t)), base, n, atWork - 1)
  {
    StagedReady(s, base, n, atWork);
    CountingLeft(cfg, s, t);
  }

  /** One more key settles, and its callback finds too few ready to flush. */
  lemma OneMoreFinished(cfg: Config, steps: seq<Step>, base: string, n: nat) returns (more: seq<Step>)
    requires Valid(cfg, steps) && Staged(Exec(cfg, steps), base, n, 0) && n + 1 < cfg.maxBatch
    ensures Valid(cfg, more) && Staged(Exec(cfg, more), base, n + 1, 0)
  {
    var t := |Exec(cfg, steps).events|;
    more := OneMoreAtWork(cfg, steps, base, n, 0);
    StagedCounted(cfg, Exec(cfg, more), base, n + 1, 1, t);
    Extend(cfg, more, Count(t));
    more := more + [Count(t)];
  }

  lemma {:induction false} ManyFinished(cfg: Config, base: string, n: nat) returns (steps: seq<Step>)
    requires n <= Max(0, cfg.maxBatch - 1)
    ensures Valid(cfg, steps) && Staged(Exec(cfg, steps), base, n, 0)
  {
    if n == 0 {
      steps := [];
      assert Counting(Init) == {};
    } else {
      steps := ManyFinished(cfg, base, n - 1);
      steps := OneMoreFinished(cfg, steps, base, n - 1);
    }
  }

  lemma {:induction false} ManyAtWork(cfg: Config, base: string, n: nat, atWork: nat) returns (steps: seq<Step>)
    requires n <= Max(0, cfg.maxBatch - 1)
    ensures Valid(cfg, steps) && Staged(Exec(cfg, steps), base, n + atWork, atWork)
  {
    if atWork == 0 {
      steps := ManyFinished(cfg, base, n);
    } else {
      var before := ManyAtWork(cfg, base, n, atWork - 1);
      steps := OneMoreAtWork(cfg, before, base, n + (atWork - 1), atWork - 1);
      assert n + (atWork - 1) + 1 == n + atWork;
    }
  }

  /** The bound is met: any number of callbacks can be at work with that many entries ready. */
  lemma BoundIsTight(cfg: Config, atWork: nat) returns (steps: seq<Step>)
    ensures Valid(cfg, steps) && |Counting(Exec(cfg, steps))| == atWork
    ensures |ReadyKeys(Exec(cfg, steps).pending)| == Max(0, cfg.maxBatch - 1) + atWork
  {
    var n := Max(0, cfg.maxBatch - 1);
    steps := ManyAtWork(cfg, "", n, atWork);
    StagedReady(Exec(cfg, steps), "", n + atWork, atWork);
  }

  /** After this run a tick flushes `order` while `atWork` callbacks are at work. */
  ghost predicate Flushes(cfg: Config, steps: seq<Step>, atWork: nat, order: seq<string>) {
    Valid(cfg, steps) && |Counting(Exec(cfg, steps))| == atWork && Enabled(cfg, Exec(cfg, steps), Tick(order))
  }

  /** With `atWork` callbacks at work the largest flush is the bound, neither more nor less. */
  lemma LargestFlush(cfg: Config, atWork: nat)
    ensures forall steps, order :: Flushes(cfg, steps, atWork, order) ==> |order| <= Max(0, cfg.maxBatch - 1) + atWork
    ensures exists steps, order :: Flushes(cfg, steps, atWork, order) && |order| == Max(0, cfg.maxBatch - 1) + atWork
  {
    forall steps, order | Flushes(cfg, steps, atWork, order) ensures |order| <= Max(0, cfg.maxBatch - 1) + atWork {
      BatchBound(cfg, steps, Tick(order));
    }
    var n := Max(0, cfg.maxBatch - 1);
    var steps := ManyAtWork(cfg, "", n, atWork);
    StagedReady(Exec(cfg, steps), "", n + atWork, atWork);
    var order := OrderExists(ReadyKeys(Exec(cfg, steps).pending));
    EnumerationSize(order, ReadyKeys(Exec(cfg, steps).pending));
    assert Flushes(cfg, steps, atWork, order);
  }

  /** A flush can exceed max(maxBatch, 1) exactly when two callbacks or more are at work. */
  lemma ExceedsExactlyWhen(cfg: Config, atWork: nat)
    ensures (exists steps, order :: Flushes(cfg, steps, atWork, order) && |order| > Max(cfg.maxBatch, 1)) <==>
            atWork >= 2
  {
    LargestFlush(cfg, atWork);
  }

  /** Whatever maxBatch is, some run flushes a batch of any size: a flush does not cut its batch. */
  lemma BatchOfAnySize(cfg: Config, n: nat) returns (steps: seq<Step>, order: seq<string>)
    ensures Valid(cfg, steps) && Enabled(cfg, Exec(cfg, steps), Tick(order)) && |order| == n
  {
    steps := ManyAtWork(cfg, "", 0, n);
    order := OrderExists(ReadyKeys(Exec(cfg, steps).pending));
    StagedReady(Exec(cfg, steps), "", n, n);
    EnumerationSize(order, ReadyKeys(Exec(cfg, steps).pending));
  }
}
