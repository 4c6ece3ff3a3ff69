/** Building concrete runs of the machine, for the theorems that say some run exists. */
module Runs {
  import opened Downstream
  import opened Pending
  import opened Machine

  function Wait(cfg: Config): nat {
    if cfg.window < 0 then 0 else cfg.window
  }

  /** The steps by which an upsert is handled, its timer expires undisturbed, and its callback marks. */
  function Settle(cfg: Config, s: State, c: Change): seq<Step> {
    [HandleUpsert(c), Elapse(Wait(cfg)), Fire(|s.events|), Mark(|s.events|)]
  }

  function Settled(cfg: Config, s: State, c: Change): State {
    var t := |s.events|;
    var k := c.Key();
    var gen := ChosenGen(cfg.policy, s, k);
    Upserted(cfg, s, c).(
      pending := s.pending[k := PendingChange(c, t, true, gen)],
      callbacks := StopEntry(s, k)[t := Callback(k, gen, s.now, Marked)],
      now := s.now + Wait(cfg))
  }

  lemma Extend2(cfg: Config, steps: seq<Step>, one: Step, two: Step)
    requires Valid(cfg, steps) && Enabled(cfg, Exec(cfg, steps), one)
    requires Enabled(cfg, Do(cfg, Exec(cfg, steps), one), two)
    ensures Valid(cfg, steps + [one, two])
    ensures Exec(cfg, steps + [one, two]) == Do(cfg, Do(cfg, Exec(cfg, steps), one), two)
  {
    Extend(cfg, steps, one);
    Extend(cfg, steps + [one], two);
    assert steps + [one] + [two] == steps + [one, two];
  }

  lemma SettleArms(cfg: Config, s: State, c: Change)
    requires s.run.Selecting?
    ensures Do(cfg, Do(cfg, s, HandleUpsert(c)), Elapse(Wait(cfg))) == Upserted(cfg, s, c).(now := s.now + Wait(cfg))
    ensures Enabled(cfg, Upserted(cfg, s, c).(now := s.now + Wait(cfg)), Fire(|s.events|))
  {
  }

  lemma SettleMarks(cfg: Config, s: State, c: Change)
    requires s.run.Selecting?
    ensures var armed := Upserted(cfg, s, c).(now := s.now + Wait(cfg));
            Enabled(cfg, armed, Fire(|s.events|)) &&
            Enabled(cfg, Do(cfg, armed, Fire(|s.events|)), Mark(|s.events|)) &&
            Do(cfg, Do(cfg, armed, Fire(|s.events|)), Mark(|s.events|)) == Settled(cfg, s, c)
  {
    var t := |s.events|;
    var k := c.Key();
    var armed := Upserted(cfg, s, c).(now := s.now + Wait(cfg));
    var fired := armed.(callbacks := At(armed, t, Fired));
    assert Do(cfg, armed, Fire(t)) == fired;
    assert MarkReady(fired.pending, k, fired.callbacks[t].gen) == Settled(cfg, s, c).pending;
    assert At(fired, t, Marked) == Settled(cfg, s, c).callbacks;
  }

  lemma Append2(steps: seq<Step>, a: Step, b: Step, c: Step, d: Step)
    ensures (steps + [a, b]) + [c, d] == steps + [a, b, c, d]
  {
  }

  lemma SettleRuns(cfg: Config, steps: seq<Step>, c: Change)
    requires Valid(cfg, steps) && Exec(cfg, steps).run.Selecting?
    ensures var s := Exec(cfg, steps);
            Valid(cfg, steps + Settle(cfg, s, c)) && Exec(cfg, steps + Settle(cfg, s, c)) == Settled(cfg, s, c)
  {
    var s := Exec(cfg, steps);
    var t := |s.events|;
    var half := steps + [HandleUpsert(c), Elapse(Wait(cfg))];
    SettleArms(cfg, s, c);
    SettleMarks(cfg, s, c);
    Extend2(cfg, steps, HandleUpsert(c), Elapse(Wait(cfg)));
    Extend2(cfg, half, Fire(t), Mark(t));
    Append2(steps, HandleUpsert(c), Elapse(Wait(cfg)), Fire(t), Mark(t));
  }
}
