/**
 * Events that are lost: to a full channel, deletes and upserts alike, and to a closed one, what a callback
 * still holds.
 */
module Loss {
  import opened Downstream
  import opened Pending
  import opened Machine
  import opened Runs
  import opened Coherence
  import opened Overlap
  import opened Protocol

  predicate Full(s: State) {
    |s.chan| >= CAPACITY
  }

  lemma DeleteEmits(cfg: Config, s: State, k: string)
    requires Basic(s) && s.run.Selecting?
    ensures Enabled(cfg, s, HandleDelete(k)) && Enabled(cfg, Do(cfg, s, HandleDelete(k)), RunEmit)
    ensures var r := Do(cfg, Do(cfg, s, HandleDelete(k)), RunEmit);
            var p := Parcel(Payload([], [k]), [|s.events|]);
            && r.run.Selecting? && r.pending == s.pending - {k} && r.flight == s.flight &&
               r.events == s.events + [Delete(k)]
            && |s.events| in r.fate
            && (if Full(s)
                then r.dropped == s.dropped + [p] && r.enqueued == s.enqueued && r.chan == s.chan
                     && r.fate[|s.events|] == Dropped(|s.dropped|)
                else r.dropped == s.dropped && r.enqueued == s.enqueued + [p] && r.chan == s.chan + [p.payload]
                     && r.fate[|s.events|] == Enqueued(|s.enqueued|))
  {
    var d := Deleted(s, k);
    assert d.flight - {RUN} == s.flight;
    assert |s.events| in [|s.events|];
  }

  lemma BuiltWithDelete(s: State, r: State, k: string, other: string)
    requires r.enqueued == s.enqueued + [Parcel(Payload([], [k]), [|s.events|])]
    ensures forall init :: Lookup(Built(r, init), other) == if other == k then None else Lookup(Built(s, init), other)
  {
    forall init ensures Lookup(Built(r, init), other) == if other == k then None else Lookup(Built(s, init), other) {
      BuiltAfter(s, Parcel(Payload([], [k]), [|s.events|]), init, other);
    }
  }

  /**
   A delete handled at Run's select and emitted at once is lost exactly when the channel is full; the
   receiver then keeps, over any store to begin with, what it had for the key.
   */
  lemma {:induction false} EmittedDeleteLostExactlyWhen(cfg: Config, steps: seq<Step>, k: string)
    requires Valid(cfg, steps) && Exec(cfg, steps).run.Selecting?
    ensures Valid(cfg, steps + [HandleDelete(k), RunEmit])
    ensures var s, r := Exec(cfg, steps), Exec(cfg, steps + [HandleDelete(k), RunEmit]);
            && |s.events| in r.fate && (r.fate[|s.events|].Dropped? <==> Full(s))
            && (forall init :: Lookup(Replay(r.events, init), k) == None)
            && (forall init :: Lookup(Built(r, init), k) == if Full(s) then Lookup(Built(s, init), k) else None)
  {
    var s, r := Exec(cfg, steps), Exec(cfg, steps + [HandleDelete(k), RunEmit]);
    BasicAlways(cfg, steps);
    DeleteEmits(cfg, s, k);
    Extend2(cfg, steps, HandleDelete(k), RunEmit);
    forall init ensures Lookup(Replay(r.events, init), k) == None {
      ReplayOne(s.events, Delete(k), init);
    }
    if !Full(s) {
      BuiltWithDelete(s, r, k, k);
    }
  }

  // ----- A run that gets there -----

  /** `n` deletes of other keys are in the channel and nothing else has happened. */
  ghost predicate Stuffed(s: State, k: string, n: nat) {
    && s.run.Selecting? && s.pending == map[] && s.flight == map[] && s.dropped == [] && |s.chan| == n
    && (forall init :: Lookup(Built(s, init), k) == Lookup(init, k))
  }

  lemma {:induction false} StuffedReached(cfg: Config, k: string, n: nat) returns (steps: seq<Step>)
    requires n <= CAPACITY
    ensures Valid(cfg, steps) && Stuffed(Exec(cfg, steps), k, n)
  {
    if n == 0 {
      steps := [];
    } else {
      var other := k + "x";
      steps := StuffedReached(cfg, k, n - 1);
      var s := Exec(cfg, steps);
      BasicAlways(cfg, steps);
      DeleteEmits(cfg, s, other);
      Extend2(cfg, steps, HandleDelete(other), RunEmit);
      steps := steps + [HandleDelete(other), RunEmit];
      assert |other| == |k| + 1;
      BuiltWithDelete(s, Exec(cfg, steps), other, k);
    }
  }

  /**
   * Some run loses a delete: everything has been handled and emitted, and every store that had the key still
   * has it.
   */
  lemma DeleteCanBeLost(cfg: Config, k: string) returns (steps: seq<Step>)
    ensures Valid(cfg, steps)
    ensures var s := Exec(cfg, steps); s.run.Selecting? && s.pending == map[] && s.flight == map[]
    ensures forall init :: Lookup(Replay(Exec(cfg, steps).events, init), k) == None
    ensures forall init :: Lookup(Built(Exec(cfg, steps), init), k) == Lookup(init, k)
  {
    steps := StuffedReached(cfg, k, CAPACITY);
    BasicAlways(cfg, steps);
    DeleteEmits(cfg, Exec(cfg, steps), k);
    EmittedDeleteLostExactlyWhen(cfg, steps, k);
    Extend2(cfg, steps, HandleDelete(k), RunEmit);
    steps := steps + [HandleDelete(k), RunEmit];
  }

  // ----- Upserts -----

  lemma SettledTick(cfg: Config, s: State, c: Change)
    requires s.run.Selecting? && s.pending == map[] && s.flight == map[] && Full(s)
    ensures var u := Settled(cfg, s, c);
            && Enabled(cfg, u, Tick([c.Key()])) && Enabled(cfg, Do(cfg, u, Tick([c.Key()])), RunEmit)
            && var r := Do(cfg, Do(cfg, u, Tick([c.Key()])), RunEmit);
               && r.run.Selecting? && r.pending == map[] && r.flight == map[] && r.events == s.events + [Upsert(c)]
               && r.enqueued == s.enqueued && |r.dropped| == |s.dropped| + 1
               && r.dropped[|s.dropped|] == Parcel(Payload([c], []), [|s.events|])
  {
    var u := Settled(cfg, s, c);
    assert ReadyKeys(u.pending) == {c.Key()};
    assert Stamps(u.pending, [c.Key()]) == [|s.events|] && Collect(u.pending, [c.Key()]) == [c];
  }

  lemma LostTick(cfg: Config, steps: seq<Step>, c: Change) returns (more: seq<Step>)
    requires Valid(cfg, steps)
    requires var s := Exec(cfg, steps); s.run.Selecting? && s.pending == map[] && s.flight == map[] && Full(s)
    ensures Valid(cfg, more)
    ensures var s, r := Exec(cfg, steps), Exec(cfg, more);
            && r.run.Selecting? && r.pending == map[] && r.flight == map[]
            && r.events == s.events + [Upsert(c)] && r.enqueued == s.enqueued
  {
    var s := Exec(cfg, steps);
    SettleRuns(cfg, steps, c);
    SettledTick(cfg, s, c);
    var settled := steps + Settle(cfg, s, c);
    Extend2(cfg, settled, Tick([c.Key()]), RunEmit);
    more := settled + [Tick([c.Key()]), RunEmit];
  }

  /** Some run loses an upsert to a full channel: it has been handled and flushed, and no store ever sees it. */
  lemma UpsertCanBeLost(cfg: Config, c: Change) returns (steps: seq<Step>)
    ensures Valid(cfg, steps)
    ensures var s := Exec(cfg, steps); s.run.Selecting? && s.pending == map[] && s.flight == map[]
    ensures forall init :: Lookup(Replay(Exec(cfg, steps).events, init), c.Key()) == Some(c)
    ensures forall init :: Lookup(Built(Exec(cfg, steps), init), c.Key()) == Lookup(init, c.Key())
  {
    var stuffed := StuffedReached(cfg, c.Key(), CAPACITY);
    steps := LostTick(cfg, stuffed, c);
    LastEventReplayed(Exec(cfg, stuffed), Exec(cfg, steps), Upsert(c));
    forall init ensures Lookup(Built(Exec(cfg, steps), init), c.Key()) == Lookup(init, c.Key()) {
      assert Built(Exec(cfg, steps), init) == Built(Exec(cfg, stuffed), init);
    }
  }

  lemma ClosesFirst(cfg: Config, s: State, t: nat)
    requires Basic(s) && s.run.Selecting? && s.pending == map[] && In(s, t, Holding) && t in s.flight
    ensures Enabled(cfg, s, Shutdown([])) && Enabled(cfg, Do(cfg, s, Shutdown([])), Close)
    ensures var d := Do(cfg, Do(cfg, s, Shutdown([])), Close);
            && d.closed && d.run.Returned? && d.pending == map[] && d.events == s.events
            && d.enqueued == s.enqueued && d.dropped == s.dropped && d.flight == s.flight && In(d, t, Holding)
  {
  }

  lemma EmitsTooLate(cfg: Config, s: State, t: nat)
    requires s.closed && In(s, t, Holding) && t in s.flight
    ensures Enabled(cfg, s, CallbackEmit(t))
    ensures var r := Do(cfg, s, CallbackEmit(t));
            && r.run == s.run && r.pending == s.pending && r.events == s.events
            && r.enqueued == s.enqueued && r.dropped == s.dropped + [s.flight[t]]
  {
  }

  /**
   * Some run loses an upsert to the closed flag alone: a callback holds it when Run returns, with all the room
   * in the channel.
   */
  lemma {:induction false} HeldUpsertLost(cfg: Config, c: Change) returns (steps: seq<Step>)
    ensures Valid(cfg, steps)
    ensures var s := Exec(cfg, steps); s.run.Returned? && s.pending == map[] && s.chan == [] && |s.dropped| == 1
    ensures forall init :: Lookup(Replay(Exec(cfg, steps).events, init), c.Key()) == Some(c)
    ensures forall init :: Built(Exec(cfg, steps), init) == init
  {
    var t;
    steps, t := HoldingReachable(cfg, c);
    var s := Exec(cfg, steps);
    BasicAlways(cfg, steps);
    ClosesFirst(cfg, s, t);
    Extend2(cfg, steps, Shutdown([]), Close);
    var closed := steps + [Shutdown([]), Close];
    EmitsTooLate(cfg, Exec(cfg, closed), t);
    Extend(cfg, closed, CallbackEmit(t));
    forall init ensures Lookup(Replay(s.events, init), c.Key()) == Some(c) {
      AgreesAlways(cfg, steps, init, c.Key());
    }
    steps := closed + [CallbackEmit(t)];
    NothingEnqueued(cfg, steps);
  }

  lemma NothingEnqueued(cfg: Config, steps: seq<Step>)
    requires Valid(cfg, steps) && Exec(cfg, steps).enqueued == []
    ensures Exec(cfg, steps).chan == [] && forall init :: Built(Exec(cfg, steps), init) == init
  {
    ChannelProtocol(cfg, steps);
    assert Payloads(Exec(cfg, steps).enqueued) == [];
  }
}
