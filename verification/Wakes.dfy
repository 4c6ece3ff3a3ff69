/**
 What wakes Run, and the answer to it: what each wake must do to the buffer's fields, and which steps
 it must add to the run, with whatever the other threads do in between.
 */
module Wakes {
  import opened Downstream
  import opened Sequences
  import opened Pending
  import opened Machine
  import opened Fields

  /**
   * What the other threads do: a due timer fires, a callback goes through its next locked region, the sender
   * receives, time passes.
   */
  datatype Other = Fires(timer: nat) | Moves(timer: nat) | Receives | Passes(duration: nat)

  /**
   What can wake Run at its select, with what the others do between the locked regions of Run's answer; or
   what happens while Run waits there. `TimerExpires` is a callback that runs to its end undisturbed.
   */
  datatype Wake =
    | Arrives(event: Event, meanwhile: seq<Other>)
    | TickFires(meanwhile: seq<Other>)
    | TimerExpires(timer: nat)
    | Happens(other: Other)

  function Arrived(wakes: seq<Wake>): seq<Event> {
    if wakes == [] then []
    else Arrived(wakes[..|wakes| - 1]) +
         if wakes[|wakes| - 1].Arrives? then [wakes[|wakes| - 1].event] else []
  }

  /** No callback gets in between anything: each runs to its end while Run waits. */
  predicate Orderly(wake: Wake) {
    match wake
    case Arrives(_, meanwhile) => meanwhile == []
    case TickFires(meanwhile) => meanwhile == []
    case TimerExpires(_) => true
    case Happens(other) => other.Receives? || other.Passes?
  }

  predicate AllOrderly(wakes: seq<Wake>) {
    forall n :: 0 <= n < |wakes| ==> Orderly(wakes[n])
  }

  // ----- What a wake does to the fields -----

  /** The payload says of each key what the map says, once, and nothing else. */
  ghost predicate SaysExactly(p: Payload, changes: map<string, Change>) {
    AsMap(p.upserts) == changes && |p.upserts| == |changes| && p.deletes == []
  }

  /** One payload went to the channel, if that was open and had room for it. */
  ghost predicate SentOne(sent: seq<Payload>, closed: bool, sent': seq<Payload>, changes: map<string, Change>) {
    if closed || |sent| >= 100 then sent' == sent
    else |sent'| == |sent| + 1 && sent'[..|sent|] == sent && SaysExactly(sent'[|sent|], changes)
  }

  /** The ready entries have left the table, and one payload with exactly those, if any, went out. */
  ghost predicate FlushedOut(v: Shown, w: Shown) {
    && (forall k :: k in w.pending <==> k in v.pending && !v.pending[k].ready)
    && (forall k :: k in w.pending ==> w.pending[k] == v.pending[k])
    && (if forall k :: k in v.pending ==> !v.pending[k].ready then w.payloads == v.payloads
        else
          var ready := map k | k in v.pending && v.pending[k].ready :: v.pending[k].change;
          SentOne(v.payloads, v.closed, w.payloads, ready))
  }

  /** Everything has left the table, no entry's timer is armed any more, and one payload with all of it went out. */
  ghost predicate EmptiedOut(v: Shown, w: Shown) {
    && w.pending == map[]
    && (forall k :: k in v.pending ==> v.pending[k].timer !in w.timers)
    && (if v.pending == map[] then w.payloads == v.payloads
        else SentOne(v.payloads, v.closed, w.payloads, map k | k in v.pending :: v.pending[k].change))
  }

  lemma CollectedSays(p: Table, order: seq<string>, keys: set<string>)
    requires OwnKeys(p) && Enumerates(order, keys) && keys <= p.Keys
    ensures SaysExactly(Payload(Collect(p, order), []), map k | k in keys :: p[k].change)
  {
    CollectedMap(p, order, keys);
    EnumerationSize(order, keys);
    assert (map k | k in keys :: p[k].change).Keys == keys;
  }

  lemma FlushedOutBy(v: Shown, w: Shown, order: seq<string>)
    requires OwnKeys(v.pending) && Enumerates(order, ReadyKeys(v.pending))
    requires w.pending == v.pending - ReadyKeys(v.pending)
    requires w.payloads ==
             if order == [] then v.payloads else Sent(v.payloads, v.closed, Payload(Collect(v.pending, order), []))
    ensures FlushedOut(v, w)
  {
    var p := v.pending;
    if order != [] {
      assert order[0] in order && p[order[0]].ready;
      CollectedSays(p, order, ReadyKeys(p));
      assert (map k | k in ReadyKeys(p) :: p[k].change) == map k | k in p && p[k].ready :: p[k].change;
    }
  }

  lemma EmptiedOutBy(v: Shown, w: Shown, order: seq<string>)
    requires OwnKeys(v.pending) && Enumerates(order, v.pending.Keys)
    requires w.pending == map[] && w.timers == v.timers - EntryTimers(v.pending)
    requires w.payloads ==
             if order == [] then v.payloads else Sent(v.payloads, v.closed, Payload(Collect(v.pending, order), []))
    ensures EmptiedOut(v, w)
  {
    var p := v.pending;
    if order != [] {
      assert order[0] in order;
      CollectedSays(p, order, p.Keys);
      assert (map k | k in p.Keys :: p[k].change) == map k | k in p :: p[k].change;
    } else {
      assert p.Keys == {};
    }
  }

  /** The change is in the table under a new timer, and the timer of the entry it replaced is not armed. */
  ghost predicate UpsertDone(v: Shown, c: Change, window: int, w: Shown) {
    var k := c.Key();
    && k in w.pending && w.pending[k].change == c && !w.pending[k].ready
    && (forall j :: j != k ==> (j in w.pending <==> j in v.pending))
    && (forall j :: j != k && j in w.pending && j in v.pending ==> w.pending[j] == v.pending[j])
    && var t := w.pending[k].timer;
       && t !in v.timers && t in w.timers && w.timers[t] == Task(v.clock + window, k, w.pending[k].gen)
       && w.timers - {t} == v.timers - (if k in v.pending then {v.pending[k].timer} else {})
       && w.payloads == v.payloads && w.closed == v.closed && w.clock == v.clock && w.working == v.working
  }

  /** The key's entry is gone, its timer is not armed, and if nothing came in between the delete went out. */
  predicate DeleteDone(v: Shown, id: string, alone: bool, w: Shown) {
    && id !in w.pending && (id in v.pending ==> v.pending[id].timer !in w.timers)
    && (forall k :: k in w.pending ==> k in v.pending && w.pending[k].change == v.pending[k].change)
    && (alone ==>
          && w.pending == v.pending - {id}
          && w.payloads == if v.closed || |v.payloads| >= 100 then v.payloads else v.payloads + [Payload([], [id])])
  }

  /** No entry that was ready is in the table, and none is new; if nothing came in between it is a whole flush. */
  ghost predicate TickDone(v: Shown, alone: bool, w: Shown) {
    && (forall k :: k in w.pending ==>
          k in v.pending && !v.pending[k].ready && w.pending[k].change == v.pending[k].change)
    && (alone ==> FlushedOut(v, w) && w.timers == v.timers)
  }

  /** What a callback does that runs undisturbed: its entry is ready, and enough ready entries have been flushed. */
  ghost predicate CallbackDone(v: Shown, t: nat, key: string, gen: nat, maxBatch: int, w: Shown) {
    var marked := v.(pending := MarkReady(v.pending, key, gen));
    && w.timers == v.timers && w.working == v.working - {t}
    && if |ReadyKeys(marked.pending)| >= maxBatch then FlushedOut(marked, w)
       else w.pending == marked.pending && w.payloads == v.payloads
  }

  /** A timer that is due has fired and its callback has run; another one is as it was. */
  ghost predicate TimerDone(v: Shown, t: nat, maxBatch: int, w: Shown) {
    if t in v.timers && v.timers[t].due <= v.clock
    then CallbackDone(v.(timers := v.timers - {t}), t, v.timers[t].key, v.timers[t].gen, maxBatch, w)
    else w == v
  }

  lemma TimerDoneBy(v: Shown, t: nat, maxBatch: int, w: Shown)
    requires t in v.timers && v.timers[t].due <= v.clock
    requires var (key, gen) := (v.timers[t].key, v.timers[t].gen);
             CallbackDone(FiredShown(v, t, key, gen), t, key, gen, maxBatch, w)
    ensures TimerDone(v, t, maxBatch, w)
  {
    assert v.working[t := ToMark(v.timers[t].key, v.timers[t].gen)] - {t} == v.working - {t};
  }

  lemma ExpiredBy(cfg: Config, before: seq<Step>, t: nat, order: seq<string>, more: seq<Step>)
    requires Enabled(cfg, Exec(cfg, before), Fire(t))
    requires var s := Exec(cfg, before);
             more == [Fire(t)] +
                     CallbackSteps(s.pending, t, s.callbacks[t].key, s.callbacks[t].gen, cfg.maxBatch, order)
    ensures Expired(cfg, before, t, more)
  {
    if |more| > 3 {
      assert more[3..] == FlushSteps(t, order) && more[3..][0] == more[3];
    }
  }

  /** One region of another thread: what it has to do where it stands, or nothing. */
  ghost predicate OtherDone(v: Shown, other: Other, maxBatch: int, w: Shown) {
    match other
    case Fires(t) =>
      w == if t in v.timers && v.timers[t].due <= v.clock then FiredShown(v, t, v.timers[t].key, v.timers[t].gen) else v
    case Moves(t) => if t in v.working then MoveDone(v, t, v.working[t], maxBatch, w) else w == v
    case Receives => w == if v.payloads == [] then v else v.(payloads := v.payloads[1..])
    case Passes(d) => w == v.(clock := v.clock + d)
  }

  /** The callback's next region: mark, count, take, or emit. */
  ghost predicate MoveDone(v: Shown, t: nat, work: Work, maxBatch: int, w: Shown) {
    match work
    case ToMark(key, gen) => w == MarkedShown(v, t, key, gen)
    case ToCount => w == CountedShown(v, t, maxBatch)
    case ToTake =>
      exists order :: Enumerates(order, ReadyKeys(v.pending)) && w == TakenShown(v, t, order)
    case ToEmit(p) => w == EmittedShown(v, p, t)
  }

  ghost predicate WakeDone(cfg: Config, v: Shown, wake: Wake, w: Shown) {
    match wake
    case Arrives(Upsert(c), _) => UpsertDone(v, c, cfg.window, w)
    case Arrives(Delete(id), meanwhile) => DeleteDone(v, id, meanwhile == [], w)
    case TickFires(meanwhile) => TickDone(v, meanwhile == [], w)
    case TimerExpires(t) => TimerDone(v, t, cfg.maxBatch, w)
    case Happens(other) => OtherDone(v, other, cfg.maxBatch, w)
  }

  // ----- What the others leave to Run -----

  predicate OtherStep(step: Step) {
    !Handles(step) && !step.Tick? && !step.RunEmit? && !step.Shutdown? && !step.Close?
  }

  predicate AllOthers(steps: seq<Step>) {
    forall n :: 0 <= n < |steps| ==> OtherStep(steps[n])
  }

  /** Nothing new is in the table, and no timer has been armed. */
  ghost predicate OnlyLess(s: State, r: State) {
    && (forall k :: k in r.pending ==>
          && k in s.pending && r.pending[k].change == s.pending[k].change && r.pending[k].timer == s.pending[k].timer)
    && (forall t :: In(r, t, Armed) ==> In(s, t, Armed))
  }

  lemma OtherOnlyLess(cfg: Config, s: State, step: Step)
    requires Enabled(cfg, s, step) && OtherStep(step)
    ensures OnlyLess(s, Do(cfg, s, step))
  {
  }

  lemma OnlyLessTwice(s: State, r: State, q: State)
    requires OnlyLess(s, r) && OnlyLess(r, q)
    ensures OnlyLess(s, q)
  {
  }

  lemma {:induction false} OthersOnlyLess(cfg: Config, before: seq<Step>, others: seq<Step>)
    requires Valid(cfg, before + others) && AllOthers(others)
    ensures OnlyLess(Exec(cfg, before), Exec(cfg, before + others))
  {
    if others == [] {
      assert before + others == before;
    } else {
      var n := |others| - 1;
      assert before + others == (before + others[..n]) + [others[n]];
      Unfold(cfg, before + others[..n], others[n]);
      OthersOnlyLess(cfg, before, others[..n]);
      assert OtherStep(others[n]);
      OtherOnlyLess(cfg, Exec(cfg, before + others[..n]), others[n]);
      OnlyLessTwice(Exec(cfg, before), Exec(cfg, before + others[..n]), Exec(cfg, before + others));
    }
  }

  lemma ArmedDone(v: Shown, c: Change, gen: nat, window: int, nextGen: nat)
    requires v.handled !in v.timers
    ensures UpsertDone(v, c, window, ArmedShown(v.(nextGen := nextGen), c, gen, window))
  {
  }

  lemma TimersLess(cfg: Config, s: State, r: State)
    requires OnlyLess(s, r)
    ensures Show(cfg, r).timers.Keys <= Show(cfg, s).timers.Keys
  {
    forall t | t in Show(cfg, r).timers ensures t in Show(cfg, s).timers {
      assert In(r, t, Armed);
    }
  }

  /** From the first region of a delete, by way of the others, to the second. */
  lemma DeleteDoneBy(cfg: Config, v: Shown, id: string, s: State, r: State, alone: bool)
    requires Show(cfg, s) == CancelledShown(v, id) && OnlyLess(s, r) && (alone ==> r == s)
    ensures DeleteDone(v, id, alone, SentShown(Show(cfg, r), Payload([], [id])))
  {
    TimersLess(cfg, s, r);
  }

  lemma NothingReady(v: Shown, alone: bool)
    requires ReadyKeys(v.pending) == {}
    ensures TickDone(v, alone, TickedShown(v))
  {
    forall k | k in v.pending ensures !v.pending[k].ready {
      assert k !in ReadyKeys(v.pending);
    }
  }

  lemma TickDoneBy(cfg: Config, v: Shown, order: seq<string>, s: State, r: State, alone: bool)
    requires OwnKeys(v.pending) && Enumerates(order, ReadyKeys(v.pending)) && order != []
    requires Show(cfg, s) == TickedShown(v) && OnlyLess(s, r) && (alone ==> r == s)
    ensures TickDone(v, alone, SentShown(Show(cfg, r), Payload(Collect(v.pending, order), [])))
  {
    if alone {
      FlushedOutBy(v, SentShown(Show(cfg, r), Payload(Collect(v.pending, order), [])), order);
    }
  }

  /** The final flush: the table is empty for good, and if nothing came in between all of it went out. */
  ghost predicate LastDone(v: Shown, alone: bool, w: Shown) {
    && w.pending == map[] && (forall k :: k in v.pending ==> v.pending[k].timer !in w.timers)
    && (alone ==> EmptiedOut(v, w))
  }

  lemma NothingLeft(v: Shown, alone: bool)
    requires v.pending == map[]
    ensures LastDone(v, alone, EmptiedShown(v))
  {
  }

  lemma LastDoneBy(cfg: Config, v: Shown, order: seq<string>, s: State, r: State, alone: bool)
    requires OwnKeys(v.pending) && Enumerates(order, v.pending.Keys) && order != []
    requires Show(cfg, s) == EmptiedShown(v) && OnlyLess(s, r) && (alone ==> r == s)
    ensures LastDone(v, alone, SentShown(Show(cfg, r), Payload(Collect(v.pending, order), [])))
  {
    TimersLess(cfg, s, r);
    if alone {
      EmptiedOutBy(v, SentShown(Show(cfg, r), Payload(Collect(v.pending, order), [])), order);
    }
  }

  function FlushedShown(v: Shown, t: nat, order: seq<string>): Shown
    requires forall k :: k in order ==> k in v.pending
  {
    var taken := TakenShown(v, t, order);
    if order == [] then taken else EmittedShown(taken, Payload(Collect(v.pending, order), []), t)
  }

  /** The fields after checkFlush: with enough ready entries the callback has flushed them. */
  ghost predicate Checked(v: Shown, t: nat, order: seq<string>, maxBatch: int, w: Shown) {
    if |ReadyKeys(v.pending)| >= maxBatch
    then Enumerates(order, ReadyKeys(v.pending)) && w == FlushedShown(CountedShown(v, t, maxBatch), t, order)
    else w == CountedShown(v, t, maxBatch)
  }

  lemma CallbackDoneBy(v: Shown, t: nat, key: string, gen: nat, order: seq<string>, maxBatch: int, w: Shown)
    requires OwnKeys(v.pending) && Checked(MarkedShown(v, t, key, gen), t, order, maxBatch, w)
    ensures CallbackDone(v, t, key, gen, maxBatch, w)
  {
    var marked := v.(pending := MarkReady(v.pending, key, gen));
    assert v.working[t := ToCount] - {t} == v.working - {t};
    if |ReadyKeys(marked.pending)| >= maxBatch {
      assert v.working[t := ToCount][t := ToTake] - {t} == v.working - {t};
      FlushedWorking(CountedShown(MarkedShown(v, t, key, gen), t, maxBatch), t, order);
      FlushedOutBy(marked, w, order);
    }
  }

  lemma FlushedWorking(v: Shown, t: nat, order: seq<string>)
    requires forall k :: k in order ==> k in v.pending
    ensures FlushedShown(v, t, order).working == v.working - {t} && FlushedShown(v, t, order).timers == v.timers
  {
    if order != [] {
      assert v.working[t := ToEmit(Payload(Collect(v.pending, order), []))] - {t} == v.working - {t};
    }
  }

  lemma AroundBy(cfg: Config, before: seq<Step>, first: Step, meanwhile: seq<Other>, others: seq<Step>)
    requires Ensued(cfg, before + [first], meanwhile, others)
    ensures Around(cfg, before, first, meanwhile, [first] + others + [RunEmit])
    ensures before + [first] + others + [RunEmit] == before + ([first] + others + [RunEmit])
    ensures others == [] ==> [first] + others + [RunEmit] == [first, RunEmit]
  {
    Between(first, others, RunEmit);
    JoinedAgain(before, first, others, RunEmit);
  }

  lemma OwnKeysOf(cfg: Config, steps: seq<Step>)
    requires Valid(cfg, steps)
    ensures OwnKeys(Exec(cfg, steps).pending)
  {
    BasicAlways(cfg, steps);
    forall k | k in Exec(cfg, steps).pending ensures Exec(cfg, steps).pending[k].change.Key() == k {
      assert EntryHolds(Exec(cfg, steps), k);
    }
  }

  // ----- Which steps answer a wake -----

  /** What another thread's act adds to the run: the one step it can take where it stands, or nothing. */
  ghost predicate Acted(cfg: Config, before: seq<Step>, other: Other, more: seq<Step>) {
    var s := Exec(cfg, before);
    match other
    case Fires(t) => more == if Enabled(cfg, s, Fire(t)) then [Fire(t)] else []
    case Moves(t) =>
      if t in s.callbacks && Busy(s.callbacks[t].phase) then |more| == 1 && CallbackStep(more[0], t) && !more[0].Fire?
      else more == []
    case Receives => more == if s.chan != [] then [Receive] else []
    case Passes(d) => more == [Elapse(d)]
  }

  /** What a number of acts add, one after another. */
  ghost predicate Ensued(cfg: Config, before: seq<Step>, acts: seq<Other>, others: seq<Step>) {
    if acts == [] then others == []
    else
      var n := |acts| - 1;
      exists k :: 0 <= k <= |others| && Ensued(cfg, before, acts[..n], others[..k]) &&
                  Acted(cfg, before + others[..k], acts[n], others[k..])
  }

  lemma EnsuedOne(cfg: Config, before: seq<Step>, acts: seq<Other>, others: seq<Step>, act: Other, more: seq<Step>)
    requires Ensued(cfg, before, acts, others) && Acted(cfg, before + others, act, more)
    ensures Ensued(cfg, before, acts + [act], others + more)
  {
    assert (acts + [act])[..|acts|] == acts;
    assert (others + more)[..|others|] == others && (others + more)[|others|..] == more;
  }

  lemma {:induction false} EnsuedOthers(cfg: Config, before: seq<Step>, acts: seq<Other>, others: seq<Step>)
    requires Ensued(cfg, before, acts, others)
    ensures AllOthers(others)
  {
    if acts != [] {
      var n := |acts| - 1;
      var k :| 0 <= k <= |others| && Ensued(cfg, before, acts[..n], others[..k]) &&
               Acted(cfg, before + others[..k], acts[n], others[k..]);
      EnsuedOthers(cfg, before, acts[..n], others[..k]);
      ActedOthers(cfg, before + others[..k], acts[n], others[k..]);
      OthersSplit(others, k);
    }
  }

  lemma OthersSplit(others: seq<Step>, k: nat)
    requires k <= |others| && AllOthers(others[..k]) && AllOthers(others[k..])
    ensures AllOthers(others)
  {
    forall i | 0 <= i < |others| ensures OtherStep(others[i]) {
      if i < k {
        assert OtherStep(others[..k][i]);
      } else {
        assert OtherStep(others[k..][i - k]);
      }
    }
  }

  lemma ActedOthers(cfg: Config, before: seq<Step>, other: Other, more: seq<Step>)
    requires Acted(cfg, before, other, more)
    ensures AllOthers(more)
  {
  }

  /** Two regions of Run, the second an emission, with what the others do in between. */
  ghost predicate Around(cfg: Config, before: seq<Step>, first: Step, meanwhile: seq<Other>, more: seq<Step>) {
    && |more| >= 2 && more[0] == first && more[|more| - 1] == RunEmit
    && Ensued(cfg, before + [first], meanwhile, more[1..|more| - 1])
  }

  /** A flush by Run: a take, and if it took anything an emission. */
  ghost predicate Flushed(cfg: Config, before: seq<Step>, take: Step, meanwhile: seq<Other>, more: seq<Step>)
    requires take.Tick? || take.Shutdown?
  {
    if take.order == [] then more == [take] else Around(cfg, before, take, meanwhile, more)
  }

  /** The steps of checkFlush. */
  function CheckSteps(p: Table, t: nat, maxBatch: int, order: seq<string>): seq<Step> {
    [Count(t)] + if |ReadyKeys(p)| >= maxBatch then FlushSteps(t, order) else []
  }

  /** The steps of a callback that runs undisturbed over a table. */
  function CallbackSteps(p: Table, t: nat, key: string, gen: nat, maxBatch: int, order: seq<string>): seq<Step> {
    [Mark(t)] + CheckSteps(MarkReady(p, key, gen), t, maxBatch, order)
  }

  /** A due timer's callback from its start to its end. */
  ghost predicate Expired(cfg: Config, before: seq<Step>, t: nat, more: seq<Step>) {
    var s := Exec(cfg, before);
    if Enabled(cfg, s, Fire(t)) then
      && 3 <= |more| && more[..3] == [Fire(t), Mark(t), Count(t)]
      && if |ReadyKeys(MarkReady(s.pending, s.callbacks[t].key, s.callbacks[t].gen))| >= cfg.maxBatch
         then 3 < |more| && more[3].CallbackTake? && more[3..] == FlushSteps(t, more[3].order)
         else |more| == 3
    else more == []
  }

  ghost predicate Answered(cfg: Config, before: seq<Step>, wake: Wake, more: seq<Step>) {
    match wake
    case Arrives(Upsert(c), _) => more == [HandleUpsert(c)]
    case Arrives(Delete(id), meanwhile) => Around(cfg, before, HandleDelete(id), meanwhile, more)
    case TickFires(meanwhile) => more != [] && more[0].Tick? && Flushed(cfg, before, more[0], meanwhile, more)
    case TimerExpires(t) => Expired(cfg, before, t, more)
    case Happens(other) => Acted(cfg, before, other, more)
  }

  /** The run so far is the answers to these wakes, one after another. */
  ghost predicate RanThrough(cfg: Config, wakes: seq<Wake>, steps: seq<Step>) {
    if wakes == [] then steps == []
    else
      var n := |wakes| - 1;
      exists k :: 0 <= k <= |steps| && RanThrough(cfg, wakes[..n], steps[..k]) &&
                  Answered(cfg, steps[..k], wakes[n], steps[k..])
  }

  lemma RanOneMore(cfg: Config, wakes: seq<Wake>, steps: seq<Step>, wake: Wake, more: seq<Step>)
    requires RanThrough(cfg, wakes, steps) && Answered(cfg, steps, wake, more)
    ensures RanThrough(cfg, wakes + [wake], steps + more)
  {
    assert (wakes + [wake])[..|wakes|] == wakes;
    assert (steps + more)[..|steps|] == steps && (steps + more)[|steps|..] == more;
  }

  /** The final flush where nothing comes in between. */
  function FinalSteps(order: seq<string>): seq<Step> {
    if order == [] then [Shutdown(order)] else [Shutdown(order), RunEmit]
  }

  /** Run's way out: the final flush and the close, with what the others do in between. */
  ghost predicate Left(cfg: Config, before: seq<Step>, last: seq<Other>, end: seq<Other>, more: seq<Step>) {
    exists k :: 0 < k < |more| && FlushedLast(cfg, before, last, more[..k]) &&
                ClosedAfter(cfg, before + more[..k], end, more[k..])
  }

  ghost predicate FlushedLast(cfg: Config, before: seq<Step>, last: seq<Other>, more: seq<Step>) {
    more != [] && more[0].Shutdown? && Flushed(cfg, before, more[0], last, more)
  }

  ghost predicate ClosedAfter(cfg: Config, before: seq<Step>, end: seq<Other>, more: seq<Step>) {
    more != [] && Ensued(cfg, before, end, more[..|more| - 1]) && more[|more| - 1] == Close
  }

  lemma LeavesBy(cfg: Config, before: seq<Step>, last: seq<Other>, end: seq<Other>, flush: seq<Step>, others: seq<Step>)
    requires FlushedLast(cfg, before, last, flush) && Ensued(cfg, before + flush, end, others)
    ensures Left(cfg, before, last, end, flush + (others + [Close]))
  {
    var more := flush + (others + [Close]);
    assert (others + [Close])[..|others|] == others;
    assert more[..|flush|] == flush && more[|flush|..] == others + [Close];
  }

  // ----- What Run itself did -----

  /** A turn of Run: an event handled, a tick answered, or the way out. */
  datatype Turn = Handled(event: Event) | Ticked | ShutDown | Closed

  function TurnOf(step: Step): seq<Turn> {
    match step
    case HandleUpsert(c) => [Handled(Upsert(c))]
    case HandleDelete(id) => [Handled(Delete(id))]
    case Tick(_) => [Ticked]
    case Shutdown(_) => [ShutDown]
    case Close => [Closed]
    case _ => []
  }

  function Turns(steps: seq<Step>): seq<Turn> {
    if steps == [] then [] else Turns(steps[..|steps| - 1]) + TurnOf(steps[|steps| - 1])
  }

  function CalledBy(wake: Wake): seq<Turn> {
    match wake
    case Arrives(e, _) => [Handled(e)]
    case TickFires(_) => [Ticked]
    case _ => []
  }

  /** The turns that the wakes call for, in their order. */
  function Called(wakes: seq<Wake>): seq<Turn> {
    if wakes == [] then [] else Called(wakes[..|wakes| - 1]) + CalledBy(wakes[|wakes| - 1])
  }

  lemma TurnsOne(steps: seq<Step>, step: Step)
    ensures Turns(steps + [step]) == Turns(steps) + TurnOf(step)
  {
    assert (steps + [step])[..|steps|] == steps;
  }

  lemma TurnsJoinedOne(one: seq<Step>, before: seq<Step>, step: Step)
    requires Turns(one + before) == Turns(one) + Turns(before)
    ensures Turns(one + (before + [step])) == Turns(one) + Turns(before + [step])
  {
    TurnsOne(one + before, step);
    TurnsOne(before, step);
    Associated(one, before, [step]);
    Associated(Turns(one), Turns(before), TurnOf(step));
  }

  lemma {:induction false} TurnsJoined(one: seq<Step>, two: seq<Step>)
    ensures Turns(one + two) == Turns(one) + Turns(two)
  {
    if two == [] {
      assert one + two == one;
    } else {
      var before, step := two[..|two| - 1], two[|two| - 1];
      assert two == before + [step];
      TurnsJoined(one, before);
      TurnsJoinedOne(one, before, step);
    }
  }

  lemma {:induction false} OthersNoTurn(others: seq<Step>)
    requires AllOthers(others)
    ensures Turns(others) == []
  {
    if others != [] {
      assert OtherStep(others[|others| - 1]);
      OthersNoTurn(others[..|others| - 1]);
    }
  }

  lemma OneTurn(step: Step)
    ensures Turns([step]) == TurnOf(step)
  {
    assert [step][..0] == [];
    assert [] + TurnOf(step) == TurnOf(step);
  }

  lemma AroundTurns(cfg: Config, before: seq<Step>, first: Step, meanwhile: seq<Other>, more: seq<Step>)
    requires Around(cfg, before, first, meanwhile, more)
    ensures Turns(more) == TurnOf(first)
  {
    var others := more[1..|more| - 1];
    EnsuedOthers(cfg, before + [first], meanwhile, others);
    OthersNoTurn(others);
    OneTurn(first);
    TurnsBetween([first], others, RunEmit);
    EndsApart(more);
  }

  lemma TurnsBetween(one: seq<Step>, others: seq<Step>, last: Step)
    requires Turns(others) == []
    ensures Turns(one + others + [last]) == Turns(one) + TurnOf(last)
  {
    TurnsJoined(one + others, [last]);
    TurnsJoined(one, others);
    OneTurn(last);
    assert Turns(one) + [] == Turns(one);
  }

  lemma FlushedTurns(cfg: Config, before: seq<Step>, take: Step, meanwhile: seq<Other>, more: seq<Step>)
    requires (take.Tick? || take.Shutdown?) && Flushed(cfg, before, take, meanwhile, more)
    ensures Turns(more) == TurnOf(take)
  {
    OneTurn(take);
    if take.order != [] {
      AroundTurns(cfg, before, take, meanwhile, more);
    }
  }

  lemma ExpiredOthers(cfg: Config, before: seq<Step>, t: nat, more: seq<Step>)
    requires Expired(cfg, before, t, more)
    ensures AllOthers(more)
  {
    if more != [] {
      OthersSplit(more, 3);
    }
  }

  lemma AnsweredTurns(cfg: Config, before: seq<Step>, wake: Wake, more: seq<Step>)
    requires Answered(cfg, before, wake, more)
    ensures Turns(more) == CalledBy(wake)
  {
    match wake
    case Arrives(Upsert(c), _) => OneTurn(HandleUpsert(c));
    case Arrives(Delete(id), meanwhile) => AroundTurns(cfg, before, HandleDelete(id), meanwhile, more);
    case TickFires(meanwhile) => FlushedTurns(cfg, before, more[0], meanwhile, more);
    case TimerExpires(t) =>
      ExpiredOthers(cfg, before, t, more);
      OthersNoTurn(more);
    case Happens(other) =>
      ActedOthers(cfg, before, other, more);
      OthersNoTurn(more);
  }

  /** Run's own turns are those its wakes call for: each event handled, each tick answered, in order, and no other. */
  lemma {:induction false} RanThroughTurns(cfg: Config, wakes: seq<Wake>, steps: seq<Step>)
    requires RanThrough(cfg, wakes, steps)
    ensures Turns(steps) == Called(wakes)
  {
    if wakes != [] {
      var k := LastAnswer(cfg, wakes, steps);
      RanThroughTurns(cfg, wakes[..|wakes| - 1], steps[..k]);
      AnsweredTurns(cfg, steps[..k], wakes[|wakes| - 1], steps[k..]);
      TurnsCut(steps, k);
    }
  }

  lemma LastAnswer(cfg: Config, wakes: seq<Wake>, steps: seq<Step>) returns (k: nat)
    requires wakes != [] && RanThrough(cfg, wakes, steps)
    ensures k <= |steps| && RanThrough(cfg, wakes[..|wakes| - 1], steps[..k])
    ensures Answered(cfg, steps[..k], wakes[|wakes| - 1], steps[k..])
  {
    k :| 0 <= k <= |steps| && RanThrough(cfg, wakes[..|wakes| - 1], steps[..k]) &&
         Answered(cfg, steps[..k], wakes[|wakes| - 1], steps[k..]);
  }

  lemma TurnsCut(steps: seq<Step>, k: nat)
    requires k <= |steps|
    ensures Turns(steps) == Turns(steps[..k]) + Turns(steps[k..])
  {
    TurnsOf(steps, steps[..k], steps[k..]);
  }

  lemma TurnsOf(steps: seq<Step>, one: seq<Step>, two: seq<Step>)
    requires steps == one + two
    ensures Turns(steps) == Turns(one) + Turns(two)
  {
    TurnsJoined(one, two);
  }

  lemma LeftTurns(cfg: Config, before: seq<Step>, last: seq<Other>, end: seq<Other>, more: seq<Step>)
    requires Left(cfg, before, last, end, more)
    ensures Turns(more) == [ShutDown, Closed]
  {
    var k := LeavingCut(cfg, before, last, end, more);
    FlushedLastTurns(cfg, before, last, more[..k]);
    ClosedTurns(cfg, before + more[..k], end, more[k..]);
    TurnsCut(more, k);
  }

  lemma FlushedLastTurns(cfg: Config, before: seq<Step>, last: seq<Other>, more: seq<Step>)
    requires FlushedLast(cfg, before, last, more)
    ensures Turns(more) == [ShutDown]
  {
    FlushedTurns(cfg, before, more[0], last, more);
  }

  lemma LeavingCut(cfg: Config, before: seq<Step>, last: seq<Other>, end: seq<Other>, more: seq<Step>)
    returns (k: nat)
    requires Left(cfg, before, last, end, more)
    ensures 0 < k < |more| && FlushedLast(cfg, before, last, more[..k])
    ensures ClosedAfter(cfg, before + more[..k], end, more[k..])
  {
    k :| 0 < k < |more| && FlushedLast(cfg, before, last, more[..k]) &&
         ClosedAfter(cfg, before + more[..k], end, more[k..]);
  }

  lemma ClosedTurns(cfg: Config, before: seq<Step>, end: seq<Other>, more: seq<Step>)
    requires ClosedAfter(cfg, before, end, more)
    ensures Turns(more) == [Closed]
  {
    var others := more[..|more| - 1];
    EnsuedOthers(cfg, before, end, others);
    OthersNoTurn(others);
  }

  lemma RunTurns(cfg: Config, wakes: seq<Wake>, answers: seq<Step>, last: seq<Other>, end: seq<Other>,
                 leaving: seq<Step>)
    requires RanThrough(cfg, wakes, answers) && Left(cfg, answers, last, end, leaving)
    ensures Turns(answers + leaving) == Called(wakes) + [ShutDown, Closed]
  {
    RanThroughTurns(cfg, wakes, answers);
    LeftTurns(cfg, answers, last, end, leaving);
    TurnsJoined(answers, leaving);
  }

  lemma EnsuedOnlyLess(cfg: Config, before: seq<Step>, acts: seq<Other>, others: seq<Step>)
    requires Valid(cfg, before + others) && Ensued(cfg, before, acts, others)
    ensures OnlyLess(Exec(cfg, before), Exec(cfg, before + others))
    ensures acts == [] ==> others == [] && before + others == before
  {
    EnsuedOthers(cfg, before, acts, others);
    OthersOnlyLess(cfg, before, others);
  }
}
