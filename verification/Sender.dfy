/** The sequential consumer of the payload channel, and why its retries do not show downstream (cmd/main.go). */
module Sender {
  import opened Downstream
  import opened RestClient

  /** What happens to each payload when it is sent: its attempts, in order. */
  type World = nat -> nat -> Attempt

  ghost predicate Possible(world: World) {
    forall i, j :: world(i)(j).Possible()
  }

  /** The payloads of which some attempt took effect, once each, in order. */
  ghost function Effective(payloads: seq<Payload>, world: World, posts: seq<nat>): seq<Payload>
    requires |posts| == |payloads|
  {
    if payloads == [] then []
    else
      var n := |payloads| - 1;
      Effective(payloads[..n], world, posts[..n]) + if TookEffect(world(n), posts[n]) then [payloads[n]] else []
  }

  /** The attempts at one payload that reached the receiver, as it saw them. */
  function Copies(p: Payload, attempts: nat -> Attempt, posts: nat): seq<Payload> {
    if posts == 0 then []
    else Copies(p, attempts, posts - 1) + if attempts(posts - 1).applied then [p] else []
  }

  /** Everything the receiver saw: payloads in channel order, repeats next to each other. */
  function Wire(payloads: seq<Payload>, world: World, posts: seq<nat>): seq<Payload>
    requires |posts| == |payloads|
  {
    if payloads == [] then []
    else
      var n := |payloads| - 1;
      Wire(payloads[..n], world, posts[..n]) + Copies(payloads[n], world(n), posts[n])
  }

  lemma {:induction false} ApplyAllJoined(a: seq<Payload>, b: seq<Payload>, st: Store)
    ensures ApplyAll(a + b, st) == ApplyAll(b, ApplyAll(a, st))
  {
    if b == [] {
      assert a + b == a;
    } else {
      var n := |b| - 1;
      assert (a + b)[..|a + b| - 1] == a + b[..n];
      ApplyAllJoined(a, b[..n], st);
    }
  }

  lemma {:induction false} CopiesAreOne(p: Payload, attempts: nat -> Attempt, posts: nat, st: Store)
    ensures ApplyAll(Copies(p, attempts, posts), st) == StoreAfter(p, attempts, posts, st)
  {
    if posts > 0 {
      CopiesAreOne(p, attempts, posts - 1, st);
      EffectOfOne(p, attempts, posts - 1, st);
      if attempts(posts - 1).applied {
        ApplyAllOne(Copies(p, attempts, posts - 1), p, st);
      } else {
        assert Copies(p, attempts, posts) == Copies(p, attempts, posts - 1);
      }
    }
  }

  /** Delivery with retries leaves the store that sending each effective payload exactly once, in order, would leave. */
  lemma {:induction false} RetriesDoNotShow(payloads: seq<Payload>, world: World, posts: seq<nat>, st: Store)
    requires |posts| == |payloads|
    ensures ApplyAll(Wire(payloads, world, posts), st) == ApplyAll(Effective(payloads, world, posts), st)
  {
    if payloads != [] {
      var n := |payloads| - 1;
      var before := Effective(payloads[..n], world, posts[..n]);
      RetriesDoNotShow(payloads[..n], world, posts[..n], st);
      ApplyAllJoined(Wire(payloads[..n], world, posts[..n]), Copies(payloads[n], world(n), posts[n]), st);
      CopiesAreOne(payloads[n], world(n), posts[n], ApplyAll(before, st));
      if TookEffect(world(n), posts[n]) {
        ApplyAllOne(before, payloads[n], st);
      } else {
        assert Effective(payloads, world, posts) == before;
      }
    }
  }

  /** Every payload that touches the key took effect. */
  ghost predicate KeyDelivered(payloads: seq<Payload>, world: World, posts: seq<nat>, k: string) {
    && |posts| == |payloads|
    && (forall i :: 0 <= i < |payloads| && k in Touches(payloads[i]) ==> TookEffect(world(i), posts[i]))
  }

  /** What the receiver ends up with for a key depends on the payloads that touch it alone: the others may fail. */
  lemma {:induction false} WireAtKey(payloads: seq<Payload>, world: World, posts: seq<nat>, st: Store, k: string)
    requires KeyDelivered(payloads, world, posts, k)
    ensures Lookup(ApplyAll(Wire(payloads, world, posts), st), k) == Lookup(ApplyAll(payloads, st), k)
  {
    if payloads != [] {
      var n := |payloads| - 1;
      var p, before := payloads[n], Wire(payloads[..n], world, posts[..n]);
      WireAtKey(payloads[..n], world, posts[..n], st, k);
      ApplyAllJoined(before, Copies(p, world(n), posts[n]), st);
      CopiesAreOne(p, world(n), posts[n], ApplyAll(before, st));
      ApplyAtKey(p, ApplyAll(before, st), k);
      ApplyAtKey(p, ApplyAll(payloads[..n], st), k);
    }
  }

  lemma DeliveredTookEffect(attempts: nat -> Attempt, body: Body, budget: int, posts: nat)
    requires SendIs(body, budget, attempts, Delivered, posts) && forall j :: attempts(j).Possible()
    ensures TookEffect(attempts, posts)
  {
    assert attempts(posts - 1).Possible();
    assert posts - 1 < posts && attempts(posts - 1).applied;
  }

  /** Where every payload took effect, the effective payloads are all of them. */
  lemma {:induction false} AllEffective(payloads: seq<Payload>, world: World, posts: seq<nat>)
    requires |posts| == |payloads|
    requires forall i :: 0 <= i < |payloads| ==> TookEffect(world(i), posts[i])
    ensures Effective(payloads, world, posts) == payloads
  {
    if payloads != [] {
      var n := |payloads| - 1;
      AllEffective(payloads[..n], world, posts[..n]);
      assert payloads == payloads[..n] + [payloads[n]];
    }
  }

  /** Each payload was sent under its own attempts, with its outcome and number of posts. */
  ghost predicate Sent(payloads: seq<Payload>, budget: int, world: World, outcomes: seq<Outcome>, posts: seq<nat>) {
    && |posts| == |payloads| == |outcomes|
    && (forall i :: 0 <= i < |payloads| ==>
          SendIs(BodyOf(Some(payloads[i]), true), budget, world(i), outcomes[i], posts[i]))
  }

  /** Where every send succeeds, the receiver ends up as if each payload had been applied exactly once, in order. */
  lemma ExactlyOnce(payloads: seq<Payload>, world: World, posts: seq<nat>, outcomes: seq<Outcome>, budget: int,
                    st: Store)
    requires Possible(world) && Sent(payloads, budget, world, outcomes, posts)
    requires forall i :: 0 <= i < |payloads| ==> outcomes[i].Delivered?
    ensures ApplyAll(Wire(payloads, world, posts), st) == ApplyAll(payloads, st)
  {
    forall i | 0 <= i < |payloads| ensures TookEffect(world(i), posts[i]) {
      DeliveredTookEffect(world(i), BodyOf(Some(payloads[i]), true), budget, posts[i]);
    }
    AllEffective(payloads, world, posts);
    RetriesDoNotShow(payloads, world, posts, st);
  }

  /**
   * Whatever became of the others, every payload that has anything in it is posted, unless the budget is the
   * largest int.
   */
  lemma EachIsPosted(payloads: seq<Payload>, s: Settings, world: World, outcomes: seq<Outcome>, posts: seq<nat>, i: nat)
    requires s.Sound() && Sent(payloads, Budget(s.maxRetries), world, outcomes, posts) && i < |payloads|
    ensures 1 <= posts[i] <==> s.maxRetries < MAX_INT && (payloads[i].upserts != [] || payloads[i].deletes != [])
  {
    PostedExactlyWhen(s, Some(payloads[i]), true, world(i), outcomes[i], posts[i]);
  }

  lemma SentGrows(sent: seq<Payload>, p: Payload, budget: int, world: World, outcomes: seq<Outcome>, posts: seq<nat>,
                  outcome: Outcome, tried: nat)
    requires Sent(sent, budget, world, outcomes, posts) &&
             SendIs(BodyOf(Some(p), true), budget, world(|sent|), outcome, tried)
    ensures Sent(sent + [p], budget, world, outcomes + [outcome], posts + [tried])
  {
  }

  lemma WireGrows(sent: seq<Payload>, p: Payload, world: World, posts: seq<nat>, tried: nat, st: Store)
    requires |posts| == |sent|
    ensures ApplyAll(Wire(sent + [p], world, posts + [tried]), st) ==
            StoreAfter(p, world(|sent|), tried, ApplyAll(Wire(sent, world, posts), st))
  {
    var n := |sent|;
    assert (sent + [p])[..n] == sent && (posts + [tried])[..n] == posts;
    ApplyAllJoined(Wire(sent, world, posts), Copies(p, world(n), tried), st);
    CopiesAreOne(p, world(n), tried, ApplyAll(Wire(sent, world, posts), st));
  }

  /** `sent` has been sent, and the receiver has come from `server` to `now`. */
  ghost predicate Progress(sent: seq<Payload>, budget: int, world: World, outcomes: seq<Outcome>, posts: seq<nat>,
                           server: Store, now: Store) {
    Sent(sent, budget, world, outcomes, posts) && now == ApplyAll(Wire(sent, world, posts), server)
  }

  lemma ProgressMade(sent: seq<Payload>, p: Payload, budget: int, world: World, outcomes: seq<Outcome>, posts: seq<nat>,
                     outcome: Outcome, tried: nat, server: Store, now: Store)
    requires Progress(sent, budget, world, outcomes, posts, server, now)
    requires SendIs(BodyOf(Some(p), true), budget, world(|sent|), outcome, tried)
    ensures Progress(sent + [p], budget, world, outcomes + [outcome], posts + [tried], server,
                     StoreAfter(p, world(|sent|), tried, now))
  {
    SentGrows(sent, p, budget, world, outcomes, posts, outcome, tried);
    WireGrows(sent, p, world, posts, tried, server);
  }

  /** Sends what the channel delivers, one payload after another; a failure is passed over. */
  method RunSenderLoop(client: RestClient, payloads: seq<Payload>, world: World, ghost server: Store)
    returns (outcomes: seq<Outcome>, posts: seq<nat>, ghost server': Store)
    requires client.settings.Sound() && Possible(world)
    ensures Sent(payloads, Budget(client.settings.maxRetries), world, outcomes, posts)
    ensures server' == ApplyAll(Wire(payloads, world, posts), server)
  {
    outcomes, posts, server' := [], [], server;
    ghost var sent: seq<Payload> := [];
    var n := 0;
    while n < |payloads|
      invariant 0 <= n <= |payloads| && sent == payloads[..n]
      invariant Progress(sent, Budget(client.settings.maxRetries), world, outcomes, posts, server, server')
    {
      var outcome, tried, waited;
      ghost var before := server';
      outcome, tried, waited, server' := client.Send(Some(payloads[n]), true, world(n), server');
      ProgressMade(sent, payloads[n], Budget(client.settings.maxRetries), world, outcomes, posts, outcome, tried,
        server, before);
      outcomes, posts, sent := outcomes + [outcome], posts + [tried], sent + [payloads[n]];
      n := n + 1;
    }
    assert sent == payloads;
  }
}
