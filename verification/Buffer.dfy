/**
 The debounce buffer as the code keeps it: fields updated in place, loops over the table. Both
 buffers are this class; they differ in how an upsert chooses its generation. A ghost trace
 records the machine steps a method performs, one per locked region, and the fields always show
 the state of that trace: the methods perform exactly those steps.
 */
module Buffer {
  import opened Downstream
  import opened Sequences
  import opened Pending
  import opened Machine
  import opened Coherence
  import opened Protocol
  import opened Fields
  import opened Wakes

  class DebounceBuffer {
    const cfg: Config
    var pending: Table
    var nextGen: nat
    var payloads: seq<Payload>
    var payloadsClosed: bool

    // the runtime: the clock, the name of the next timer, and the armed timers
    var clock: int
    var handled: nat
    var timers: map<nat, Task>

    // the callbacks at work
    var working: map<nat, Work>

    ghost var trace: seq<Step>

    ghost function Model(): State
      reads this
    {
      Exec(cfg, trace)
    }

    ghost function Fields(): Shown
      reads this
    {
      Shown(pending, nextGen, payloads, payloadsClosed, clock, handled, timers, working)
    }

    ghost predicate Valid()
      reads this
    {
      Machine.Valid(cfg, trace) && Fields() == Show(cfg, Model())
    }

    constructor (cfg: Config)
      ensures Valid() && this.cfg == cfg && trace == []
    {
      this.cfg := cfg;
      pending, nextGen, payloads, payloadsClosed := map[], 0, [], false;
      clock, handled, timers, working, trace := 0, 0, map[], map[], [];
    }

    ghost method Record(step: Step)
      requires Machine.Valid(cfg, trace) && Enabled(cfg, Model(), step)
      modifies this`trace
      ensures trace == old(trace) + [step] && Machine.Valid(cfg, trace) && Model() == Do(cfg, old(Model()), step)
    {
      Extend(cfg, trace, step);
      trace := trace + [step];
    }

    /** The generation of the next entry for a key; the CRD buffer counts it. */
    method ChooseGen(k: string) returns (gen: nat)
      requires Valid()
      modifies this`nextGen
      ensures gen == ChosenGen(cfg.policy, old(Model()), k)
      ensures cfg.policy.PerKey? ==> gen == if k in pending then (pending[k].gen + 1) % 0x1_0000_0000_0000_0000 else 0
      ensures cfg.policy.BufferWide? ==> gen == nextGen == (old(nextGen) + 1) % 0x1_0000_0000_0000_0000
      ensures Fields() == old(Fields()).(nextGen := NextCount(cfg.policy, old(nextGen)))
    {
      gen := 0;
      match cfg.policy
      case PerKey =>
        if k in pending {
          gen := (pending[k].gen + 1) % GEN_MODULUS;
        }
      case BufferWide =>
        nextGen := (nextGen + 1) % GEN_MODULUS;
        gen := nextGen;
      case ByTimer =>
        gen := handled;
    }

    /** Puts the change in the table under a new timer, and stops the timer of the entry it replaces. */
    method Arm(c: Change, gen: nat)
      modifies this`pending, this`timers, this`handled
      ensures Fields() == ArmedShown(old(Fields()), c, gen, cfg.window)
    {
      var k := c.Key();
      if k in pending {
        timers := timers - {pending[k].timer};
      }
      pending := pending[k := PendingChange(c, handled, false, gen)];
      timers := timers[handled := Task(clock + cfg.window, k, gen)];
      handled := handled + 1;
    }

    /** Upserts are debounced per key. */
    method HandleUpsertEvent(c: Change)
      requires Valid() && Model().run.Selecting?
      modifies this
      ensures Valid() && trace == old(trace) + [HandleUpsert(c)]
      ensures Model().run.Selecting? && Model().events == old(Model()).events + [Upsert(c)]
      ensures UpsertDone(old(Fields()), c, cfg.window, Fields())
    {
      ghost var v := Fields();
      UpsertShows(cfg, trace, c);
      TimersOf(cfg, trace);
      assert handled !in timers;
      var gen := ChooseGen(c.Key());
      Arm(c, gen);
      Record(HandleUpsert(c));
      ArmedDone(v, c, gen, cfg.window, nextGen);
    }

    /** The locked region of a delete: a pending upsert is cancelled. */
    method CancelRegion(id: string)
      requires Valid() && Model().run.Selecting?
      modifies this
      ensures Valid() && trace == old(trace) + [HandleDelete(id)] && Fields() == CancelledShown(old(Fields()), id)
      ensures Model().run.Emitting? && Model().events == old(Model()).events + [Delete(id)]
      ensures RUN in Model().flight && Model().flight[RUN].payload == Payload([], [id])
    {
      DeleteShows(cfg, trace, id);
      CancelFields(id);
      Record(HandleDelete(id));
    }

    method CancelFields(id: string)
      modifies this`pending, this`timers, this`handled
      ensures Fields() == CancelledShown(old(Fields()), id)
    {
      if id in pending {
        timers := timers - {pending[id].timer};
        pending := pending - {id};
      }
      handled := handled + 1;
    }

    /**
     * Deletes cancel a pending upsert and are forwarded at once, once the others have done what they do between
     * the two regions.
     */
    method HandleDeleteEvent(id: string, meanwhile: seq<Other>) returns (ghost more: seq<Step>)
      requires Valid() && Model().run.Selecting?
      modifies this
      ensures Valid() && Model().run.Selecting? && Model().events == old(Model()).events + [Delete(id)]
      ensures trace == old(trace) + more && Around(cfg, old(trace), HandleDelete(id), meanwhile, more)
      ensures DeleteDone(old(Fields()), id, meanwhile == [], Fields())
      ensures meanwhile == [] ==> more == [HandleDelete(id), RunEmit]
    {
      ghost var before, v := trace, Fields();
      CancelRegion(id);
      ghost var s := Model();
      ghost var r;
      more, r := EmitAfter(Payload([], [id]), meanwhile, before, HandleDelete(id));
      DeleteDoneBy(cfg, v, id, s, r, meanwhile == []);
    }

    method HandleEvent(event: Event, meanwhile: seq<Other>) returns (ghost more: seq<Step>)
      requires Valid() && Model().run.Selecting?
      modifies this
      ensures Valid() && Model().run.Selecting? && Model().events == old(Model()).events + [event]
      ensures trace == old(trace) + more && Answered(cfg, old(trace), Arrives(event, meanwhile), more)
      ensures event.Upsert? ==> UpsertDone(old(Fields()), event.change, cfg.window, Fields())
      ensures event.Delete? ==> DeleteDone(old(Fields()), event.id, meanwhile == [], Fields())
      ensures meanwhile == [] ==> more == HandleSteps(event)
    {
      match event
      case Delete(id) => more := HandleDeleteEvent(id, meanwhile);
      case Upsert(c) =>
        HandleUpsertEvent(c);
        more := [HandleUpsert(c)];
    }

    /** Sends without blocking: a closed or full channel loses the payload. */
    method EmitPayload(payload: Payload)
      modifies this`payloads
      ensures payloads == Sent(old(payloads), payloadsClosed, payload)
      ensures !payloadsClosed && |old(payloads)| < 100 ==> payloads == old(payloads) + [payload]
      ensures payloadsClosed || |old(payloads)| >= 100 ==> payloads == old(payloads)
    {
      if !payloadsClosed && |payloads| < CAPACITY {
        payloads := payloads + [payload];
      }
    }

    /** emitPayload as Run calls it. */
    method EmitByRun(payload: Payload)
      requires Valid() && Enabled(cfg, Model(), RunEmit) && Model().flight[RUN].payload == payload
      modifies this
      ensures Valid() && trace == old(trace) + [RunEmit] && Model().events == old(Model()).events
      ensures Fields() == SentShown(old(Fields()), payload)
      ensures Model().run == if old(Model()).run.Emitting? then Selecting else Closing
    {
      RunEmitShows(cfg, trace);
      EmitPayload(payload);
      Record(RunEmit);
    }

    method EmitAndEnd(payload: Payload, t: nat)
      modifies this`payloads, this`working
      ensures Fields() == EmittedShown(old(Fields()), payload, t)
    {
      EmitPayload(payload);
      working := working - {t};
    }

    /**
     The second region of Run's answer, once the others have done what they do in between: `r` is where
     they have left the machine.
     */
    method EmitAfter(payload: Payload, meanwhile: seq<Other>, ghost before: seq<Step>, ghost first: Step)
      returns (ghost more: seq<Step>, ghost r: State)
      requires Valid() && trace == before + [first] && Enabled(cfg, Model(), RunEmit)
      requires Model().flight[RUN].payload == payload
      modifies this
      ensures Valid() && Model().events == old(Model()).events
      ensures Model().run == if old(Model()).run.Emitting? then Selecting else Closing
      ensures trace == before + more && Around(cfg, before, first, meanwhile, more)
      ensures OnlyLess(old(Model()), r) && Fields() == SentShown(Show(cfg, r), payload)
      ensures meanwhile == [] ==> more == [first, RunEmit] && r == old(Model())
    {
      ghost var others := Interlude(meanwhile);
      r := Model();
      EmitByRun(payload);
      more := [first] + others + [RunEmit];
      AroundBy(cfg, before, first, meanwhile, others);
    }

    /** emitPayload as a callback calls it, and the end of the callback. */
    method EmitByCallback(payload: Payload, t: nat)
      requires Valid() && Enabled(cfg, Model(), CallbackEmit(t)) && Model().flight[t].payload == payload
      modifies this
      ensures Valid() && trace == old(trace) + [CallbackEmit(t)] && RunKept(old(Model()), Model()) &&
              In(Model(), t, Finished)
      ensures Fields() == EmittedShown(old(Fields()), payload, t)
    {
      CallbackEmitShows(cfg, Model(), t);
      EmitAndEnd(payload, t);
      Record(CallbackEmit(t));
    }

    method ReadyCount() returns (count: nat)
      ensures count == |ReadyKeys(pending)|
    {
      count := 0;
      var todo := pending.Keys;
      ghost var seen: set<string> := {};
      while todo != {}
        invariant todo <= pending.Keys && seen == set k | k in pending && k !in todo && pending[k].ready
        invariant count == |seen|
        decreases todo
      {
        var k :| k in todo;
        todo := todo - {k};
        if pending[k].ready {
          count := count + 1;
          seen := seen + {k};
        }
      }
      assert seen == ReadyKeys(pending);
    }

    /** The loop of a flush: ready entries leave the table, in whatever order they are met. */
    method TakeReady() returns (batch: seq<Change>, ghost order: seq<string>)
      modifies this`pending
      ensures Enumerates(order, ReadyKeys(old(pending)))
      ensures batch == Collect(old(pending), order) && pending == old(pending) - ReadyKeys(old(pending))
    {
      ghost var before := pending;
      batch, order := [], [];
      var todo := pending.Keys;
      while todo != {}
        invariant todo <= before.Keys
        invariant pending == before - (set k | k in order)
        invariant forall k :: k in order ==> k in before && k !in todo && before[k].ready
        invariant forall k :: k in before && k !in todo && before[k].ready ==> k in order
        invariant forall i, j :: 0 <= i < j < |order| ==> order[i] != order[j]
        invariant batch == Collect(before, order)
        decreases todo
      {
        var k :| k in todo;
        todo := todo - {k};
        if pending[k].ready {
          batch := batch + [pending[k].change];
          order := order + [k];
          pending := pending - {k};
        }
      }
      assert (set k | k in order) == ReadyKeys(before);
    }

    /**
     * Run's flush: every ready entry leaves the table and, once the others have done what they do meanwhile, is
     * emitted.
     */
    method FlushPending(meanwhile: seq<Other>) returns (ghost more: seq<Step>)
      requires Valid() && Model().run.Selecting?
      modifies this
      ensures Valid() && Model().run.Selecting? && Model().events == old(Model()).events
      ensures trace == old(trace) + more && Answered(cfg, old(trace), TickFires(meanwhile), more)
      ensures TickDone(old(Fields()), meanwhile == [], Fields())
      ensures meanwhile == [] ==> more == FlushSteps(RUN, more[0].order)
    {
      ghost var before, v := trace, Fields();
      var upserts;
      ghost var order;
      OwnKeysOf(cfg, trace);
      upserts, order := TickRegion();
      if |upserts| > 0 {
        ghost var s := Model();
        ghost var r;
        more, r := EmitAfter(Payload(upserts, []), meanwhile, before, Tick(order));
        TickDoneBy(cfg, v, order, s, r, meanwhile == []);
      } else {
        more := [Tick(order)];
        NothingReady(v, meanwhile == []);
      }
    }

    method TickRegion() returns (upserts: seq<Change>, ghost order: seq<string>)
      requires Valid() && Model().run.Selecting?
      modifies this
      ensures Valid() && Enumerates(order, ReadyKeys(old(pending))) && upserts == Collect(old(pending), order)
      ensures trace == old(trace) + [Tick(order)] && Model().events == old(Model()).events
      ensures Fields() == TickedShown(old(Fields()))
      ensures if order == [] then Model().run.Selecting?
              else Model().run.Emitting? && RUN in Model().flight && Model().flight[RUN].payload == Payload(upserts, [])
    {
      upserts, order := TickFields();
      TickShows(cfg, trace, order);
      Record(Tick(order));
    }

    method TickFields() returns (upserts: seq<Change>, ghost order: seq<string>)
      modifies this`pending
      ensures Enumerates(order, ReadyKeys(old(pending)))
      ensures upserts == Collect(old(pending), order) && Fields() == TickedShown(old(Fields()))
    {
      upserts, order := TakeReady();
    }

    /** The same region, and what follows, on a callback's thread. */
    method FlushByCallback(t: nat) returns (ghost order: seq<string>)
      requires Valid() && In(Model(), t, Flushing)
      modifies this
      ensures Valid() && Enumerates(order, ReadyKeys(old(pending)))
      ensures trace == old(trace) + FlushSteps(t, order) && Fields() == FlushedShown(old(Fields()), t, order)
      ensures In(Model(), t, Finished) && RunKept(old(Model()), Model())
    {
      ghost var s := Model();
      var upserts;
      upserts, order := TakeRegion(t);
      if |upserts| > 0 {
        ghost var r := Model();
        EmitByCallback(Payload(upserts, []), t);
        RunKeptTwice(s, r, Model());
        assert old(trace) + [CallbackTake(t, order)] + [CallbackEmit(t)] == old(trace) + FlushSteps(t, order);
      }
    }

    /** What the region does to the fields. */
    method TakeFields(t: nat) returns (upserts: seq<Change>, ghost order: seq<string>)
      modifies this`pending, this`working
      ensures Enumerates(order, ReadyKeys(old(pending)))
      ensures upserts == Collect(old(pending), order) && Fields() == TakenShown(old(Fields()), t, order)
    {
      upserts, order := TakeReady();
      working := if |upserts| > 0 then working[t := ToEmit(Payload(upserts, []))] else working - {t};
    }

    method TakeRegion(t: nat) returns (upserts: seq<Change>, ghost order: seq<string>)
      requires Valid() && In(Model(), t, Flushing)
      modifies this
      ensures Valid() && Enumerates(order, ReadyKeys(old(pending))) && upserts == Collect(old(pending), order)
      ensures trace == old(trace) + [CallbackTake(t, order)] && RunKept(old(Model()), Model())
      ensures Fields() == TakenShown(old(Fields()), t, order)
      ensures if order == [] then In(Model(), t, Finished)
              else Enabled(cfg, Model(), CallbackEmit(t)) && Model().flight[t].payload == Payload(upserts, [])
    {
      upserts, order := TakeFields(t);
      TakeShows(cfg, Model(), t, order);
      Record(CallbackTake(t, order));
    }

    /** The loop of the final flush: every entry leaves, ready or not, and its timer is stopped. */
    method TakeAll() returns (batch: seq<Change>, ghost order: seq<string>)
      modifies this`pending, this`timers
      ensures Enumerates(order, old(pending).Keys)
      ensures batch == Collect(old(pending), order) && Fields() == EmptiedShown(old(Fields()))
    {
      ghost var before := pending;
      batch, order := [], [];
      while pending != map[]
        invariant pending == before - (set k | k in order)
        invariant forall k :: k in order ==> k in before
        invariant forall i, j :: 0 <= i < j < |order| ==> order[i] != order[j]
        invariant batch == Collect(before, order)
        invariant timers == old(timers) - (set k | k in order :: before[k].timer)
        decreases pending.Keys
      {
        var k :| k in pending;
        timers := timers - {pending[k].timer};
        batch := batch + [pending[k].change];
        order := order + [k];
        pending := pending - {k};
      }
      forall k | k in before ensures k in order {
        assert k !in pending;
      }
    }

    method FlushAllPending(meanwhile: seq<Other>) returns (ghost more: seq<Step>)
      requires Valid() && Model().run.Selecting?
      modifies this
      ensures Valid() && Model().run.Closing? && Model().events == old(Model()).events
      ensures trace == old(trace) + more && FlushedLast(cfg, old(trace), meanwhile, more)
      ensures LastDone(old(Fields()), meanwhile == [], Fields())
      ensures meanwhile == [] ==> more == FinalSteps(more[0].order)
    {
      ghost var before, v := trace, Fields();
      var upserts;
      ghost var order;
      OwnKeysOf(cfg, trace);
      upserts, order := ShutdownRegion();
      if |upserts| > 0 {
        ghost var s := Model();
        ghost var r;
        more, r := EmitAfter(Payload(upserts, []), meanwhile, before, Shutdown(order));
        LastDoneBy(cfg, v, order, s, r, meanwhile == []);
      } else {
        more := [Shutdown(order)];
        assert v.pending.Keys == {};
        NothingLeft(v, meanwhile == []);
      }
    }

    method ShutdownRegion() returns (upserts: seq<Change>, ghost order: seq<string>)
      requires Valid() && Model().run.Selecting?
      modifies this
      ensures Valid() && Enumerates(order, old(pending).Keys) && upserts == Collect(old(pending), order)
      ensures Fields() == EmptiedShown(old(Fields()))
      ensures trace == old(trace) + [Shutdown(order)] && Model().events == old(Model()).events
      ensures if order == [] then Model().run.Closing?
              else Model().run.EmittingFinal? && RUN in Model().flight &&
                   Model().flight[RUN].payload == Payload(upserts, [])
    {
      upserts, order := TakeAll();
      ShutdownShows(cfg, trace, order);
      Record(Shutdown(order));
    }

    /** Closes the channel, once. */
    method ClosePayloads()
      requires Valid() && Model().run.Closing?
      modifies this
      ensures Valid() && trace == old(trace) + [Close] && Fields() == old(Fields()).(closed := true)
      ensures Model().run.Returned? && Model().events == old(Model()).events && Model().flight == old(Model()).flight
    {
      CloseShows(cfg, trace);
      if !payloadsClosed {
        payloadsClosed := true;
      }
      Record(Close);
    }

    /** A timer's callback, undisturbed: mark, then flush early if enough entries are ready. */
    method TimerFired(t: nat, key: string, gen: nat) returns (ghost order: seq<string>)
      requires Valid() && In(Model(), t, Fired) && Model().callbacks[t].key == key && Model().callbacks[t].gen == gen
      modifies this
      ensures Valid() && In(Model(), t, Finished) && RunKept(old(Model()), Model())
      ensures trace == old(trace) + CallbackSteps(old(pending), t, key, gen, cfg.maxBatch, order)
      ensures CallbackDone(old(Fields()), t, key, gen, cfg.maxBatch, Fields())
    {
      ghost var v := Fields();
      OwnKeysOf(cfg, trace);
      order := MarkAndCheck(t, key, gen);
      CallbackDoneBy(v, t, key, gen, order, cfg.maxBatch, Fields());
    }

    method MarkAndCheck(t: nat, key: string, gen: nat) returns (ghost order: seq<string>)
      requires Valid() && In(Model(), t, Fired) && Model().callbacks[t].key == key && Model().callbacks[t].gen == gen
      modifies this
      ensures Valid() && In(Model(), t, Finished) && RunKept(old(Model()), Model())
      ensures trace == old(trace) + CallbackSteps(old(pending), t, key, gen, cfg.maxBatch, order)
      ensures Checked(MarkedShown(old(Fields()), t, key, gen), t, order, cfg.maxBatch, Fields())
    {
      ghost var s, before := Model(), trace;
      MarkRegion(t, key, gen);
      ghost var r := Model();
      order := CheckFlush(t);
      RunKeptTwice(s, r, Model());
      Associated(before, [Mark(t)], CheckSteps(MarkReady(old(pending), key, gen), t, cfg.maxBatch, order));
    }

    /** The closure's locked region: the entry of the captured generation becomes ready. */
    method MarkRegion(t: nat, key: string, gen: nat)
      requires Valid() && In(Model(), t, Fired) && Model().callbacks[t].key == key && Model().callbacks[t].gen == gen
      modifies this
      ensures Valid() && trace == old(trace) + [Mark(t)] && In(Model(), t, Marked) && RunKept(old(Model()), Model())
      ensures Fields() == MarkedShown(old(Fields()), t, key, gen)
    {
      MarkShows(cfg, Model(), t);
      if key in pending && pending[key].gen == gen {
        pending := pending[key := pending[key].(ready := true)];
      }
      working := working[t := ToCount];
      Record(Mark(t));
    }

    /** The counting region of checkFlush. */
    method CountRegion(t: nat) returns (enough: bool)
      requires Valid() && In(Model(), t, Marked)
      modifies this
      ensures Valid() && trace == old(trace) + [Count(t)] && RunKept(old(Model()), Model())
      ensures Fields() == CountedShown(old(Fields()), t, cfg.maxBatch)
      ensures enough <==> |ReadyKeys(pending)| >= cfg.maxBatch
      ensures In(Model(), t, if enough then Flushing else Finished)
    {
      var size := ReadyCount();
      enough := size >= cfg.maxBatch;
      CountShows(cfg, Model(), t);
      working := if enough then working[t := ToTake] else working - {t};
      Record(Count(t));
    }

    method CheckFlush(t: nat) returns (ghost order: seq<string>)
      requires Valid() && In(Model(), t, Marked)
      modifies this
      ensures Valid() && In(Model(), t, Finished) && RunKept(old(Model()), Model())
      ensures Checked(old(Fields()), t, order, cfg.maxBatch, Fields())
      ensures trace == old(trace) + CheckSteps(old(pending), t, cfg.maxBatch, order)
    {
      order := [];
      ghost var s := Model();
      var enough := CountRegion(t);
      if enough {
        ghost var r := Model();
        order := FlushByCallback(t);
        RunKeptTwice(s, r, Model());
      }
    }

    /** A timer that is due fires; another timer does nothing. */
    method FireRegion(t: nat) returns (fired: bool, key: string, gen: nat)
      requires Valid()
      modifies this
      ensures Valid() && RunKept(old(Model()), Model())
      ensures trace == old(trace) + if fired then [Fire(t)] else []
      ensures fired <==> t in old(timers) && old(timers)[t].due <= old(clock)
      ensures fired <==> Enabled(cfg, old(Model()), Fire(t))
      ensures if fired then old(timers)[t].key == key && old(timers)[t].gen == gen else Fields() == old(Fields())
      ensures fired ==> Fields() == FiredShown(old(Fields()), t, key, gen)
      ensures fired ==>
                Enabled(cfg, old(Model()), Fire(t)) && Model() == Do(cfg, old(Model()), Fire(t)) &&
                In(Model(), t, Fired) && Model().callbacks[t].key == key && Model().callbacks[t].gen == gen
    {
      fired, key, gen := false, "", 0;
      if t in timers && timers[t].due <= clock {
        fired, key, gen := true, timers[t].key, timers[t].gen;
        FireShows(cfg, Model(), t);
        timers := timers - {t};
        working := working[t := ToMark(key, gen)];
        Record(Fire(t));
      }
    }

    /** The next locked region of a callback at work. */
    method MoveOn(t: nat) returns (ghost more: seq<Step>)
      requires Valid()
      modifies this
      ensures Valid() && RunKept(old(Model()), Model())
      ensures trace == old(trace) + more && Acted(cfg, old(trace), Moves(t), more)
      ensures OtherDone(old(Fields()), Moves(t), cfg.maxBatch, Fields())
    {
      more := [];
      IdleOrBusy(cfg, trace, t);
      if t in working {
        PhaseOf(cfg, trace, t);
        match working[t] {
          case ToMark(key, gen) =>
            MarkRegion(t, key, gen);
            more := [Mark(t)];
          case ToCount =>
            var _ := CountRegion(t);
            more := [Count(t)];
          case ToTake =>
            var upserts;
            ghost var order;
            upserts, order := TakeRegion(t);
            more := [CallbackTake(t, order)];
          case ToEmit(payload) =>
            EmitByCallback(payload, t);
            more := [CallbackEmit(t)];
        }
      }
    }

    method Pass(d: nat)
      requires Valid()
      modifies this
      ensures Valid() && RunKept(old(Model()), Model()) && Fields() == old(Fields()).(clock := old(clock) + d)
      ensures trace == old(trace) + [Elapse(d)] && Model() == Do(cfg, old(Model()), Elapse(d))
    {
      PassShows(cfg, trace, d);
      clock := clock + d;
      Record(Elapse(d));
    }

    /** The sender takes the oldest payload, if there is one. */
    method Deliver() returns (ghost more: seq<Step>)
      requires Valid()
      modifies this
      ensures Valid() && RunKept(old(Model()), Model())
      ensures trace == old(trace) + more && Acted(cfg, old(trace), Receives, more)
      ensures OtherDone(old(Fields()), Receives, cfg.maxBatch, Fields())
      ensures if more == [] then Model() == old(Model())
              else Enabled(cfg, old(Model()), Receive) && Model() == Do(cfg, old(Model()), Receive)
    {
      more := [];
      assert trace + [] == trace;
      if payloads != [] {
        ReceiveShows(cfg, trace);
        payloads := payloads[1..];
        Record(Receive);
        more := [Receive];
      }
    }

    /** One step of another thread. */
    method Act(other: Other) returns (ghost more: seq<Step>)
      requires Valid()
      modifies this
      ensures Valid() && RunKept(old(Model()), Model())
      ensures trace == old(trace) + more && Acted(cfg, old(trace), other, more)
      ensures OtherDone(old(Fields()), other, cfg.maxBatch, Fields())
    {
      match other {
        case Fires(t) => more := FireOn(t);
        case Moves(t) => more := MoveOn(t);
        case Receives => more := Deliver();
        case Passes(d) =>
          Pass(d);
          more := [Elapse(d)];
      }
    }

    method FireOn(t: nat) returns (ghost more: seq<Step>)
      requires Valid()
      modifies this
      ensures Valid() && RunKept(old(Model()), Model())
      ensures trace == old(trace) + more && Acted(cfg, old(trace), Fires(t), more)
      ensures OtherDone(old(Fields()), Fires(t), cfg.maxBatch, Fields())
    {
      var fired, key, gen := FireRegion(t);
      more := if fired then [Fire(t)] else [];
    }

    /** What the other threads do while Run is between two regions, or waits. */
    method Interlude(acts: seq<Other>) returns (ghost others: seq<Step>)
      requires Valid()
      modifies this
      ensures Valid() && RunKept(old(Model()), Model()) && OnlyLess(old(Model()), Model())
      ensures trace == old(trace) + others && Ensued(cfg, old(trace), acts, others)
      ensures acts == [] ==> others == [] && Model() == old(Model())
    {
      others := [];
      ghost var s, before := Model(), trace;
      var n := 0;
      while n < |acts|
        invariant 0 <= n <= |acts| && Valid() && RunKept(s, Model())
        invariant trace == before + others && Ensued(cfg, before, acts[..n], others)
      {
        TakenOneMore(acts, n);
        others := ActNext(s, before, acts[..n], others, acts[n]);
        n := n + 1;
      }
      assert acts[..n] == acts;
      EnsuedOnlyLess(cfg, before, acts, others);
    }

    /** One act after those that have been done since `before`. */
    method ActNext(ghost s: State, ghost before: seq<Step>, ghost done: seq<Other>, ghost others: seq<Step>, act: Other)
      returns (ghost now: seq<Step>)
      requires Valid() && RunKept(s, Model()) && trace == before + others && Ensued(cfg, before, done, others)
      modifies this
      ensures Valid() && RunKept(s, Model()) && trace == before + now && Ensued(cfg, before, done + [act], now)
    {
      ghost var r := Model();
      ghost var more := Act(act);
      RunKeptTwice(s, r, Model());
      EnsuedOne(cfg, before, done, others, act, more);
      Associated(before, others, more);
      now := others + more;
    }

    /** A timer that is due fires and its callback runs to its end undisturbed; another timer does nothing. */
    method Expire(t: nat) returns (ghost more: seq<Step>)
      requires Valid()
      modifies this
      ensures Valid() && RunKept(old(Model()), Model())
      ensures trace == old(trace) + more && Answered(cfg, old(trace), TimerExpires(t), more)
      ensures TimerDone(old(Fields()), t, cfg.maxBatch, Fields())
      ensures old(Quiescent(Model())) ==> Quiescent(Model())
    {
      ghost var v, s, start := Fields(), Model(), trace;
      var fired, key, gen := FireRegion(t);
      more := [];
      assert !fired ==> old(trace) + [] == old(trace);
      if fired {
        ghost var before, s1, p := trace, Model(), pending;
        ghost var order := TimerFired(t, key, gen);
        RunKeptTwice(s, s1, Model());
        TimerDoneBy(v, t, cfg.maxBatch, Fields());
        if Quiescent(s) {
          CalmMoves(cfg, s, Fire(t));
          CallbackQuiescent(cfg, before, t, p, key, gen, order);
        }
        more := trace[|start|..];
        FiredThen(cfg, start, t, order, trace);
      }
    }

    /** One turn of the select, or what happens while Run waits there. */
    method HandleWake(wake: Wake) returns (ghost more: seq<Step>)
      requires Valid() && Model().run.Selecting?
      modifies this
      ensures Valid() && Model().run.Selecting?
      ensures Model().events == old(Model()).events + if wake.Arrives? then [wake.event] else []
      ensures trace == old(trace) + more && Answered(cfg, old(trace), wake, more)
      ensures WakeDone(cfg, old(Fields()), wake, Fields())
      ensures wake.TickFires? ==> forall k :: k in pending ==> k in old(pending) && !old(pending)[k].ready
      ensures wake == TickFires([]) ==> pending == old(pending) - ReadyKeys(old(pending))
      ensures wake.TimerExpires? && wake.timer in old(timers) && old(timers)[wake.timer].due <= old(clock) ==>
                wake.timer !in timers
      ensures Orderly(wake) && old(Quiescent(Model())) ==> Quiescent(Model())
    {
      ghost var before, s := trace, Model();
      match wake {
        case Arrives(event, meanwhile) =>
          more := HandleEvent(event, meanwhile);
          if meanwhile == [] && Quiescent(s) {
            HandlingQuiescent(cfg, before, event);
          }
        case TickFires(meanwhile) =>
          more := TickWake(meanwhile);
        case TimerExpires(t) => more := Expire(t);
        case Happens(other) => more := HappenOnce(other);
      }
    }

    /** The flush ticker's turn. */
    method TickWake(meanwhile: seq<Other>) returns (ghost more: seq<Step>)
      requires Valid() && Model().run.Selecting?
      modifies this
      ensures Valid() && Model().run.Selecting? && Model().events == old(Model()).events
      ensures trace == old(trace) + more && Answered(cfg, old(trace), TickFires(meanwhile), more)
      ensures TickDone(old(Fields()), meanwhile == [], Fields())
      ensures forall k :: k in pending ==> k in old(pending) && !old(pending)[k].ready
      ensures meanwhile == [] ==> pending == old(pending) - ReadyKeys(old(pending))
      ensures meanwhile == [] && old(Quiescent(Model())) ==> Quiescent(Model())
    {
      ghost var before, s := trace, Model();
      more := FlushPending(meanwhile);
      if meanwhile == [] && Quiescent(s) {
        FlushQuiescent(cfg, before, RUN, more[0].order);
      }
    }

    method HappenOnce(other: Other) returns (ghost more: seq<Step>)
      requires Valid()
      modifies this
      ensures Valid() && RunKept(old(Model()), Model())
      ensures trace == old(trace) + more && Acted(cfg, old(trace), other, more)
      ensures OtherDone(old(Fields()), other, cfg.maxBatch, Fields())
      ensures (other.Receives? || other.Passes?) && old(Quiescent(Model())) ==> Quiescent(Model())
    {
      match other {
        case Receives =>
          ghost var s := Model();
          more := Deliver();
          if more != [] && Quiescent(s) {
            CalmMoves(cfg, s, Receive);
          }
        case Passes(d) =>
          if Quiescent(Model()) {
            CalmMoves(cfg, Model(), Elapse(d));
          }
          Pass(d);
          more := [Elapse(d)];
        case _ =>
          more := Act(other);
      }
    }

    /**
     Handles whatever wakes it until the events end or the context is cancelled (the end of `wakes`),
     then flushes everything and closes the channel. The other threads go on between any two of its
     locked regions: `last` is what they do before the final emission, `end` before the close. What the sender
     received, with what is still in the channel, says of every key that was not disturbed and that no
     callback still holds what replay of the events says; and if each callback ran undisturbed while Run
     waited, it is, unless something was dropped, the replayed store itself.
     */
    method Run(wakes: seq<Wake>, last: seq<Other>, end: seq<Other>)
      returns (ghost answers: seq<Step>, ghost leaving: seq<Step>)
      requires Valid() && trace == []
      modifies this
      ensures Valid() && pending == map[] && payloadsClosed
      ensures trace == answers + leaving && RanThrough(cfg, wakes, answers) && Left(cfg, answers, last, end, leaving)
      ensures Turns(trace) == Called(wakes) + [ShutDown, Closed]
      ensures Model().run.Returned? && Model().events == Arrived(wakes)
      ensures KeysReplayed(cfg, trace)
      ensures AllOrderly(wakes) && last == [] && end == [] ==> Model().flight == map[] && AllReplayed(cfg, trace)
    {
      var n := 0;
      while n < |wakes|
        invariant 0 <= n <= |wakes| && HasAnswered(wakes[..n])
      {
        TakenOneMore(wakes, n);
        AnswerNext(wakes[..n], wakes[n]);
        n := n + 1;
      }
      assert wakes[..n] == wakes;
      answers := trace;
      leaving := Leave(last, end, Arrived(wakes), AllOrderly(wakes));
      RunTurns(cfg, wakes, answers, last, end, leaving);
    }

    /** Run is at its select, and all it has done is to answer these wakes. */
    ghost predicate HasAnswered(done: seq<Wake>)
      reads this
    {
      && Valid() && Model().run.Selecting? && Model().events == Arrived(done) && RanThrough(cfg, done, trace)
      && (AllOrderly(done) ==> Quiescent(Model()))
    }

    /** One wake after those that have been answered. */
    method AnswerNext(ghost done: seq<Wake>, wake: Wake)
      requires HasAnswered(done)
      modifies this
      ensures HasAnswered(done + [wake])
    {
      ghost var before := trace;
      ArrivedOne(done, wake);
      OrderlyOne(done, wake);
      ghost var more := HandleWake(wake);
      RanOneMore(cfg, done, before, wake, more);
    }

    /** Run's way out. */
    method Leave(last: seq<Other>, end: seq<Other>, ghost events: seq<Event>, ghost orderly: bool)
      returns (ghost leaving: seq<Step>)
      requires Valid() && Model().run.Selecting? && Model().events == events && (orderly ==> Quiescent(Model()))
      modifies this
      ensures Valid() && pending == map[] && payloadsClosed
      ensures trace == old(trace) + leaving && Left(cfg, old(trace), last, end, leaving)
      ensures Model().run.Returned? && Model().events == events && KeysReplayed(cfg, trace)
      ensures orderly && last == [] && end == [] ==> Model().flight == map[] && AllReplayed(cfg, trace)
    {
      ghost var before := trace;
      ghost var flush := LastFlush(last, orderly);
      ghost var others := LastClose(end, orderly && last == []);
      LeavesBy(cfg, before, last, end, flush, others);
      Associated(before, flush, others + [Close]);
      leaving := flush + (others + [Close]);
      ReturnedBuilds(cfg, trace);
    }

    method LastFlush(last: seq<Other>, ghost orderly: bool) returns (ghost flush: seq<Step>)
      requires Valid() && Model().run.Selecting? && (orderly ==> Quiescent(Model()))
      modifies this
      ensures Valid() && Model().run.Closing? && Model().events == old(Model()).events
      ensures trace == old(trace) + flush && FlushedLast(cfg, old(trace), last, flush)
      ensures orderly && last == [] ==> Model().flight == map[] && Calm(Model())
    {
      ghost var before := trace;
      flush := FlushAllPending(last);
      if orderly && last == [] {
        FinalFlush(cfg, before, flush[0].order, trace);
      }
    }

    method LastClose(end: seq<Other>, ghost orderly: bool) returns (ghost others: seq<Step>)
      requires Valid() && Model().run.Closing? && (orderly ==> Model().flight == map[] && Calm(Model()))
      modifies this
      ensures Valid() && payloadsClosed && Model().run.Returned? && Model().events == old(Model()).events
      ensures pending == map[]
      ensures trace == old(trace) + (others + [Close]) && Ensued(cfg, old(trace), end, others)
      ensures orderly && end == [] ==> Model().flight == map[] && AllReplayed(cfg, trace)
    {
      others := Interlude(end);
      ghost var before := trace;
      assert others == [] ==> old(trace) + others == old(trace);
      ClosePayloads();
      EmptyOnceReturned(cfg, trace);
      Associated(old(trace), others, [Close]);
      if orderly && end == [] {
        CalmClosed(cfg, before, trace);
        DrainedBuilds(cfg, trace);
      }
    }
  }

  lemma ArrivedOne(done: seq<Wake>, wake: Wake)
    ensures Arrived(done + [wake]) == Arrived(done) + if wake.Arrives? then [wake.event] else []
  {
    assert (done + [wake])[..|done|] == done;
  }

  lemma OrderlyOne(done: seq<Wake>, wake: Wake)
    ensures AllOrderly(done + [wake]) ==> AllOrderly(done) && Orderly(wake)
  {
    if AllOrderly(done + [wake]) {
      assert Orderly((done + [wake])[|done|]);
      forall i | 0 <= i < |done| ensures Orderly(done[i]) {
        assert Orderly((done + [wake])[i]);
      }
    }
  }

  lemma FiredThen(cfg: Config, start: seq<Step>, t: nat, order: seq<string>, steps: seq<Step>)
    requires Enabled(cfg, Exec(cfg, start), Fire(t))
    requires var s := Exec(cfg, start);
             steps == start + [Fire(t)] +
                      CallbackSteps(s.pending, t, s.callbacks[t].key, s.callbacks[t].gen, cfg.maxBatch, order)
    ensures steps == start + steps[|start|..] && Expired(cfg, start, t, steps[|start|..])
  {
    var s := Exec(cfg, start);
    var more := CallbackSteps(s.pending, t, s.callbacks[t].key, s.callbacks[t].gen, cfg.maxBatch, order);
    assert steps[|start|..] == [Fire(t)] + more;
    ExpiredBy(cfg, start, t, order, steps[|start|..]);
  }

  /** A callback is at work in the machine exactly when the fields say so. */
  lemma IdleOrBusy(cfg: Config, steps: seq<Step>, t: nat)
    requires Machine.Valid(cfg, steps)
    ensures var s := Exec(cfg, steps); t in WorkOf(s) <==> t in s.callbacks && Busy(s.callbacks[t].phase)
  {
  }

  lemma EmptyOnceReturned(cfg: Config, steps: seq<Step>)
    requires Machine.Valid(cfg, steps) && Exec(cfg, steps).run.Returned?
    ensures Exec(cfg, steps).pending == map[]
  {
    BasicAlways(cfg, steps);
  }

  lemma CalmClosed(cfg: Config, before: seq<Step>, steps: seq<Step>)
    requires Machine.Valid(cfg, steps) && steps == before + [Close] && Calm(Exec(cfg, before))
    ensures Calm(Exec(cfg, steps)) && Exec(cfg, steps).flight == Exec(cfg, before).flight
  {
    Unfold(cfg, before, Close);
  }

  /**
   * For every key that was not disturbed and that no callback holds, what was received and what is in the
   * channel say what replay says.
   */
  ghost predicate KeysReplayed(cfg: Config, steps: seq<Step>) {
    var s := Exec(cfg, steps);
    forall k, init :: Undisturbed(cfg, steps, k) && !Touched(s.flight, k) ==>
      Lookup(ApplyAll(s.received + s.chan, init), k) == Lookup(Replay(s.events, init), k)
  }

  /** Unless something was dropped, they build the replayed store. */
  ghost predicate AllReplayed(cfg: Config, steps: seq<Step>) {
    var s := Exec(cfg, steps);
    s.dropped == [] ==> forall init :: ApplyAll(s.received + s.chan, init) == Replay(s.events, init)
  }

  lemma ReturnedBuilds(cfg: Config, steps: seq<Step>)
    requires Machine.Valid(cfg, steps) && Exec(cfg, steps).run.Returned?
    ensures KeysReplayed(cfg, steps)
  {
    var s := Exec(cfg, steps);
    BasicAlways(cfg, steps);
    ChannelProtocol(cfg, steps);
    forall k, init | Undisturbed(cfg, steps, k) && !Touched(s.flight, k)
      ensures Lookup(ApplyAll(s.received + s.chan, init), k) == Lookup(Replay(s.events, init), k)
    {
      StainedExactlyWhen(cfg, steps, k);
      CoalescingAgreesWithReplay(cfg, steps, init, k);
    }
  }

  // ----- Runs without interference -----

  /** Nothing dropped, nothing stained. */
  ghost predicate Calm(s: State) {
    s.dropped == [] ==> s.stained == {}
  }

  /** Between two wakes, when no callback is at work. */
  ghost predicate Quiescent(s: State) {
    s.run.Selecting? && s.flight == map[] && Calm(s)
  }

  lemma CalmStep(cfg: Config, s: State, step: Step)
    requires Calm(s) && Enabled(cfg, s, step) && (Handles(step) ==> s.flight == map[])
    ensures Calm(Do(cfg, s, step))
  {
    StepShape(cfg, s, step);
    assert s.flight == map[] ==> forall k :: !Touched(s.flight, k);
  }

  /** Steps other than those of Run move no event, and those that take or emit nothing leave the flight alone. */
  lemma CalmMoves(cfg: Config, s: State, step: Step)
    requires Quiescent(s) && Enabled(cfg, s, step) &&
             (step.Fire? || step.Mark? || step.Count? || step.Elapse? || step.Receive?)
    ensures Quiescent(Do(cfg, s, step)) && Do(cfg, s, step).events == s.events
  {
  }

  lemma DeletingQuiescent(cfg: Config, before: seq<Step>, id: string)
    requires Machine.Valid(cfg, before + [HandleDelete(id)] + [RunEmit]) && Quiescent(Exec(cfg, before))
    ensures var s := Exec(cfg, before + [HandleDelete(id)] + [RunEmit]);
            Quiescent(s) && s.events == Exec(cfg, before).events + [Delete(id)]
  {
    Unfold(cfg, before + [HandleDelete(id)], RunEmit);
    Unfold(cfg, before, HandleDelete(id));
    CalmStep(cfg, Exec(cfg, before), HandleDelete(id));
    CalmStep(cfg, Exec(cfg, before + [HandleDelete(id)]), RunEmit);
    assert Exec(cfg, before + [HandleDelete(id)]).flight.Keys == {RUN};
  }

  lemma HandlingQuiescent(cfg: Config, before: seq<Step>, event: Event)
    requires Machine.Valid(cfg, before + HandleSteps(event)) && Quiescent(Exec(cfg, before))
    ensures Quiescent(Exec(cfg, before + HandleSteps(event)))
    ensures Exec(cfg, before + HandleSteps(event)).events == Exec(cfg, before).events + [event]
  {
    match event
    case Upsert(c) =>
      Unfold(cfg, before, HandleUpsert(c));
      CalmStep(cfg, Exec(cfg, before), HandleUpsert(c));
    case Delete(id) =>
      assert before + HandleSteps(event) == before + [HandleDelete(id)] + [RunEmit];
      DeletingQuiescent(cfg, before, id);
  }

  lemma FlushQuiescent(cfg: Config, before: seq<Step>, holder: int, order: seq<string>)
    requires RUN <= holder && Machine.Valid(cfg, before + FlushSteps(holder, order)) && Quiescent(Exec(cfg, before))
    ensures Quiescent(Exec(cfg, before + FlushSteps(holder, order)))
    ensures Exec(cfg, before + FlushSteps(holder, order)).events == Exec(cfg, before).events
  {
    var take := TakeStep(holder, order);
    if order == [] {
      Unfold(cfg, before, take);
      CalmStep(cfg, Exec(cfg, before), take);
    } else {
      var emit := EmitStep(holder);
      assert before + FlushSteps(holder, order) == before + [take] + [emit];
      Unfold(cfg, before + [take], emit);
      Unfold(cfg, before, take);
      CalmStep(cfg, Exec(cfg, before), take);
      CalmStep(cfg, Exec(cfg, before + [take]), emit);
      assert Exec(cfg, before + [take]).flight.Keys == {holder};
    }
  }

  lemma CallbackQuiescent(cfg: Config, before: seq<Step>, t: nat, p: Table, key: string, gen: nat, order: seq<string>)
    requires Quiescent(Exec(cfg, before))
    requires Machine.Valid(cfg, before + CallbackSteps(p, t, key, gen, cfg.maxBatch, order))
    ensures Quiescent(Exec(cfg, before + CallbackSteps(p, t, key, gen, cfg.maxBatch, order)))
  {
    var counted := before + [Mark(t)] + [Count(t)];
    var after := before + CallbackSteps(p, t, key, gen, cfg.maxBatch, order);
    var flush := if |ReadyKeys(MarkReady(p, key, gen))| >= cfg.maxBatch then FlushSteps(t, order) else [];
    assert after == counted + flush;
    CountedQuiescent(cfg, before, t, flush);
    if flush != [] {
      FlushQuiescent(cfg, counted, t, order);
    } else {
      assert counted + [] == counted;
    }
  }

  lemma CountedQuiescent(cfg: Config, before: seq<Step>, t: nat, rest: seq<Step>)
    requires Quiescent(Exec(cfg, before)) && Machine.Valid(cfg, before + [Mark(t)] + [Count(t)] + rest)
    ensures Quiescent(Exec(cfg, before + [Mark(t)] + [Count(t)]))
  {
    var counted := before + [Mark(t)] + [Count(t)];
    ValidPrefix(cfg, counted + rest, |counted|);
    assert (counted + rest)[..|counted|] == counted;
    Unfold(cfg, before + [Mark(t)], Count(t));
    Unfold(cfg, before, Mark(t));
    CalmMoves(cfg, Exec(cfg, before), Mark(t));
    CalmMoves(cfg, Exec(cfg, before + [Mark(t)]), Count(t));
  }

  /** After an undisturbed final flush Run is about to close, with nothing in flight. */
  lemma FinalFlush(cfg: Config, before: seq<Step>, order: seq<string>, steps: seq<Step>)
    requires Machine.Valid(cfg, steps) && Quiescent(Exec(cfg, before))
    requires steps == before + FinalSteps(order)
    ensures var s := Exec(cfg, steps);
            s.run.Closing? && s.flight == map[] && Calm(s) && s.events == Exec(cfg, before).events
  {
    var take := Shutdown(order);
    if order == [] {
      Unfold(cfg, before, take);
      CalmStep(cfg, Exec(cfg, before), take);
    } else {
      assert steps == before + [take] + [RunEmit];
      Unfold(cfg, before + [take], RunEmit);
      Unfold(cfg, before, take);
      CalmStep(cfg, Exec(cfg, before), take);
      CalmStep(cfg, Exec(cfg, before + [take]), RunEmit);
      assert Exec(cfg, before + [take]).flight.Keys == {RUN};
    }
  }

  /** What the sender received and what is still in the channel build the replayed store. */
  lemma DrainedBuilds(cfg: Config, steps: seq<Step>)
    requires Machine.Valid(cfg, steps) && Exec(cfg, steps).run.Returned? && Exec(cfg, steps).flight == map[]
    requires Calm(Exec(cfg, steps))
    ensures AllReplayed(cfg, steps)
  {
    var s := Exec(cfg, steps);
    ChannelProtocol(cfg, steps);
    if s.dropped == [] {
      forall init ensures ApplyAll(s.received + s.chan, init) == Replay(s.events, init) {
        ShutdownComplete(cfg, steps, init);
      }
    }
  }
}
