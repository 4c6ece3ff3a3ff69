/** A quiet key leaves the table in time: the timed behaviour of the flush loop. */
module Latency {
  import opened Downstream
  import opened Pending
  import opened Machine
  import opened Runs
  import opened Coherence

  /**
   Time may pass only if no expired timer is waiting to mark, no armed timer would be overdue, and a
   tick has been handled within the last flush interval.
   */
  ghost predicate PromptStep(cfg: Config, s: State, step: Step) {
    step.Elapse? ==>
      && (forall t :: t in s.callbacks ==> !s.callbacks[t].phase.Fired?)
      && (forall t :: In(s, t, Armed) ==> s.now + step.duration <= s.callbacks[t].armedAt + Wait(cfg))
      && s.now + step.duration <= s.lastTick + cfg.interval
  }

  ghost predicate Prompt(cfg: Config, steps: seq<Step>) {
    forall n :: 0 <= n < |steps| ==> PromptStep(cfg, Exec(cfg, steps[..n]), steps[n])
  }

  /** A waiting entry's timer is not overdue; a ready entry has met no tick since it became ready. */
  ghost predicate EntryTimely(cfg: Config, s: State, k: string)
    requires k in s.pending && s.pending[k].timer in s.callbacks
  {
    var armedAt := s.callbacks[s.pending[k].timer].armedAt;
    if s.pending[k].ready then s.lastTick <= armedAt + Wait(cfg) else s.now <= armedAt + Wait(cfg)
  }

  ghost predicate Timely(cfg: Config, s: State) {
    && s.lastTick <= s.now <= s.lastTick + cfg.interval
    && (forall k :: k in s.pending ==> s.pending[k].timer in s.callbacks && EntryTimely(cfg, s, k))
  }

  lemma TimelyUpserted(cfg: Config, s: State, c: Change, k: string)
    requires Basic(s) && Timely(cfg, s) && k in Upserted(cfg, s, c).pending
    ensures var r := Upserted(cfg, s, c); r.pending[k].timer in r.callbacks && EntryTimely(cfg, r, k)
  {
    assert |s.events| !in s.callbacks;
    assert k in s.pending ==> EntryTimely(cfg, s, k) && EntryHolds(s, k);
  }

  lemma TimelyDeleted(cfg: Config, s: State, id: string, k: string)
    requires Basic(s) && Timely(cfg, s) && k in Deleted(s, id).pending
    ensures var r := Deleted(s, id); r.pending[k].timer in r.callbacks && EntryTimely(cfg, r, k)
  {
    assert EntryTimely(cfg, s, k) && EntryHolds(s, k);
  }

  lemma TimelyHandled(cfg: Config, s: State, step: Step)
    requires Basic(s) && Timely(cfg, s) && Enabled(cfg, s, step) && Handles(step)
    ensures Timely(cfg, Do(cfg, s, step))
  {
    var r := Do(cfg, s, step);
    forall k | k in r.pending ensures r.pending[k].timer in r.callbacks && EntryTimely(cfg, r, k) {
      match step
      case HandleUpsert(c) => TimelyUpserted(cfg, s, c, k);
      case HandleDelete(id) => TimelyDeleted(cfg, s, id, k);
    }
  }

  /** A tick leaves unready entries, and every timer, as they were. */
  lemma TickSparesUnready(cfg: Config, s: State, order: seq<string>, k: string)
    requires Enabled(cfg, s, Tick(order)) && k in s.pending
    ensures var s' := Do(cfg, s, Tick(order));
            s'.callbacks == s.callbacks &&
            (if s.pending[k].ready then k !in s'.pending else k in s'.pending && s'.pending[k] == s.pending[k])
  {
  }

  lemma TimelyTick(cfg: Config, s: State, order: seq<string>)
    requires Basic(s) && Timely(cfg, s) && Enabled(cfg, s, Tick(order)) && 0 <= cfg.interval
    ensures Timely(cfg, Do(cfg, s, Tick(order)))
  {
    var s' := Do(cfg, s, Tick(order));
    forall k | k in s'.pending ensures s'.pending[k].timer in s'.callbacks && EntryTimely(cfg, s', k) {
      TickSparesUnready(cfg, s, order, k);
      assert EntryTimely(cfg, s, k);
    }
  }

  lemma TimelyTaken(cfg: Config, s: State, step: Step)
    requires Basic(s) && Timely(cfg, s) && Enabled(cfg, s, step) && (step.Shutdown? || step.CallbackTake?)
    ensures Timely(cfg, Do(cfg, s, step))
  {
    var s' := Do(cfg, s, step);
    StepShape(cfg, s, step);
    forall k | k in s'.pending ensures s'.pending[k].timer in s'.callbacks && EntryTimely(cfg, s', k) {
      assert EntryTimely(cfg, s, k);
    }
  }

  lemma TimelyElapsed(cfg: Config, s: State, d: nat)
    requires Basic(s) && Timely(cfg, s) && PromptStep(cfg, s, Elapse(d))
    ensures Timely(cfg, Do(cfg, s, Elapse(d)))
  {
    forall k | k in s.pending ensures EntryTimely(cfg, Do(cfg, s, Elapse(d)), k) {
      assert EntryHolds(s, k) && EntryTimely(cfg, s, k);
    }
  }

  lemma TimelyKept(cfg: Config, s: State, step: Step)
    requires Basic(s) && Timely(cfg, s) && Enabled(cfg, s, step) && !Handles(step) && !Takes(step) && !step.Elapse?
    ensures Timely(cfg, Do(cfg, s, step))
  {
    var s' := Do(cfg, s, step);
    StepShape(cfg, s, step);
    assert s'.now == s.now && s'.lastTick == s.lastTick;
    forall k | k in s'.pending
      ensures s'.pending[k].timer in s'.callbacks && EntryTimely(cfg, s', k)
    {
      assert EntryTimely(cfg, s, k);
    }
  }

  lemma {:induction false} TimelyAlways(cfg: Config, steps: seq<Step>)
    requires Valid(cfg, steps) && Prompt(cfg, steps) && 0 <= cfg.interval
    ensures Timely(cfg, Exec(cfg, steps))
  {
    if steps != [] {
      var n := |steps| - 1;
      var s := Exec(cfg, steps[..n]);
      var step := steps[n];
      assert Prompt(cfg, steps[..n]) by {
        assert forall m :: 0 <= m < n ==> steps[..n][m] == steps[m] && steps[..n][..m] == steps[..m];
      }
      BasicAlways(cfg, steps[..n]);
      TimelyAlways(cfg, steps[..n]);
      if Handles(step) {
        TimelyHandled(cfg, s, step);
      } else if step.Tick? {
        TimelyTick(cfg, s, step.order);
      } else if Takes(step) {
        TimelyTaken(cfg, s, step);
      } else if step.Elapse? {
        TimelyElapsed(cfg, s, step.duration);
      } else {
        TimelyKept(cfg, s, step);
      }
    }
  }

  /** With prompt callbacks and ticks, a key leaves the table within a window and an interval of its last event. */
  lemma {:induction false} QuietKeyLeaves(cfg: Config, steps: seq<Step>, k: string)
    requires Valid(cfg, steps) && Prompt(cfg, steps) && 0 <= cfg.interval && k in Exec(cfg, steps).pending
    ensures var s := Exec(cfg, steps);
            LastIndex(s.events, k) in s.callbacks &&
            s.now <= s.callbacks[LastIndex(s.events, k)].armedAt + Wait(cfg) + cfg.interval
  {
    var s := Exec(cfg, steps);
    BasicAlways(cfg, steps);
    TimelyAlways(cfg, steps);
    assert EntryHolds(s, k) && EntryTimely(cfg, s, k);
    assert LastIndex(s.events, k) == s.pending[k].timer;
  }

  // ----- What leaves an unready entry alone -----

  /**
   * The step neither concerns the key, nor ends the run, nor is the entry's own timer firing or a callback
   * marking the entry.
   */
  predicate Spares(s: State, step: Step, k: string)
    requires k in s.pending
  {
    && !HandlesKey(step, k) && !step.Shutdown?
    && (step.Fire? ==> step.timer != s.pending[k].timer)
    && (step.Mark? && step.timer in s.callbacks ==>
          s.callbacks[step.timer].key != k || s.callbacks[step.timer].gen != s.pending[k].gen)
  }

  /** The entry, its timer and what its timer is waiting for are as they were. */
  ghost predicate Unmoved(s: State, r: State, k: string)
    requires k in s.pending
  {
    && k in r.pending && r.pending[k] == s.pending[k]
    && s.pending[k].timer in s.callbacks && s.pending[k].timer in r.callbacks
    && r.callbacks[s.pending[k].timer] == s.callbacks[s.pending[k].timer]
  }

  lemma UpsertSpares(cfg: Config, s: State, c: Change, k: string)
    requires Basic(s) && k in s.pending && c.Key() != k
    ensures Unmoved(s, Upserted(cfg, s, c), k)
  {
    assert EntryHolds(s, k);
    assert c.Key() in s.pending ==> EntryHolds(s, c.Key());
  }

  lemma DeleteSpares(s: State, id: string, k: string)
    requires Basic(s) && k in s.pending && id != k
    ensures Unmoved(s, Deleted(s, id), k)
  {
    assert EntryHolds(s, k);
    assert id in s.pending ==> EntryHolds(s, id);
  }

  lemma TakeSpares(s: State, h: int, order: seq<string>, k: string)
    requires Enumerates(order, ReadyKeys(s.pending)) && k in s.pending && !s.pending[k].ready
    ensures var r := Take(s, h, order); k in r.pending && r.pending[k] == s.pending[k] && r.callbacks == s.callbacks
  {
  }

  lemma FlushSpares(cfg: Config, s: State, step: Step, k: string)
    requires Basic(s) && Enabled(cfg, s, step) && (step.Tick? || step.CallbackTake?)
    requires k in s.pending && !s.pending[k].ready
    ensures Unmoved(s, Do(cfg, s, step), k)
  {
    assert EntryHolds(s, k);
    TakeSpares(s, Holder(step), step.order, k);
  }

  lemma OtherSpares(cfg: Config, s: State, step: Step, k: string)
    requires Basic(s) && Enabled(cfg, s, step) && !Handles(step) && !Takes(step)
    requires k in s.pending && !s.pending[k].ready && Spares(s, step, k)
    ensures Unmoved(s, Do(cfg, s, step), k)
  {
    assert EntryHolds(s, k);
  }

  lemma SparesStep(cfg: Config, s: State, step: Step, k: string)
    requires Basic(s) && Enabled(cfg, s, step) && k in s.pending && !s.pending[k].ready && Spares(s, step, k)
    ensures Unmoved(s, Do(cfg, s, step), k)
  {
    match step
    case HandleUpsert(c) => UpsertSpares(cfg, s, c, k);
    case HandleDelete(id) => DeleteSpares(s, id, k);
    case Tick(_) => FlushSpares(cfg, s, step, k);
    case CallbackTake(_, _) => FlushSpares(cfg, s, step, k);
    case _ => OtherSpares(cfg, s, step, k);
  }

  lemma UnmovedTwice(s: State, r: State, q: State, k: string)
    requires k in s.pending && Unmoved(s, r, k) && Unmoved(r, q, k)
    ensures Unmoved(s, q, k)
  {
  }

  /** Every step of the stretch spares the entry, as long as it is there. */
  ghost predicate AllSpare(cfg: Config, steps: seq<Step>, more: seq<Step>, k: string) {
    forall n :: 0 <= n < |more| ==>
      var s := Exec(cfg, steps + more[..n]); k in s.pending ==> Spares(s, more[n], k)
  }

  lemma AllSpareBefore(cfg: Config, steps: seq<Step>, more: seq<Step>, k: string)
    requires more != [] && AllSpare(cfg, steps, more, k)
    ensures AllSpare(cfg, steps, more[..|more| - 1], k)
  {
    var before := more[..|more| - 1];
    forall n | 0 <= n < |before|
      ensures var s := Exec(cfg, steps + before[..n]); k in s.pending ==> Spares(s, before[n], k)
    {
      assert before[..n] == more[..n] && before[n] == more[n];
    }
  }

  lemma UnmovedAtFirst(cfg: Config, steps: seq<Step>, k: string)
    requires Valid(cfg, steps) && k in Exec(cfg, steps).pending
    ensures Unmoved(Exec(cfg, steps), Exec(cfg, steps), k)
  {
    BasicAlways(cfg, steps);
    assert EntryHolds(Exec(cfg, steps), k);
  }

  lemma UnmovedNext(cfg: Config, s: State, before: seq<Step>, step: Step, k: string)
    requires Valid(cfg, before + [step]) && k in s.pending && !s.pending[k].ready && Unmoved(s, Exec(cfg, before), k)
    requires Spares(Exec(cfg, before), step, k)
    ensures Unmoved(s, Exec(cfg, before + [step]), k)
  {
    Unfold(cfg, before, step);
    BasicAlways(cfg, before);
    SparesStep(cfg, Exec(cfg, before), step, k);
    UnmovedTwice(s, Exec(cfg, before), Exec(cfg, before + [step]), k);
  }

  /**
   However many ticks, flushes, events of other keys and callbacks of other entries come along: an entry that
   is not ready stays in the table as it is, and its timer goes on.
   */
  lemma {:induction false} TicksSpareUnready(cfg: Config, steps: seq<Step>, more: seq<Step>, k: string)
    requires Valid(cfg, steps + more) && k in Exec(cfg, steps).pending && !Exec(cfg, steps).pending[k].ready
    requires AllSpare(cfg, steps, more, k)
    ensures Valid(cfg, steps) && Unmoved(Exec(cfg, steps), Exec(cfg, steps + more), k)
  {
    if more == [] {
      assert steps + more == steps;
      UnmovedAtFirst(cfg, steps, k);
    } else {
      var before, step := more[..|more| - 1], more[|more| - 1];
      assert steps + more == (steps + before) + [step];
      Unfold(cfg, steps + before, step);
      AllSpareBefore(cfg, steps, more, k);
      TicksSpareUnready(cfg, steps, before, k);
      assert more[..|more| - 1] == before;
      UnmovedNext(cfg, Exec(cfg, steps), steps + before, step, k);
    }
  }
}
