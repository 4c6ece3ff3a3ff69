/**
 A bounded channel among threads: what its consumer takes and what others send while one of them sends.
 Everything that is sent is accepted, in order, exactly when there is room at each send.
 */
module Channels {
  /** The consumer takes an element, or some thread sends one without blocking. */
  datatype Act<+T> = Pull | Push(item: T)

  /** A bounded channel: what has been taken out of it so far, and what is in it. */
  datatype Channel<T> = Channel(taken: seq<T>, queue: seq<T>) {
    /** Everything the channel ever accepted, in order. */
    function Accepted(): seq<T> {
      taken + queue
    }

    function Did(a: Act<T>, capacity: nat): Channel<T> {
      match a
      case Pull => if queue == [] then this else Channel(taken + [queue[0]], queue[1..])
      case Push(x) => if |queue| < capacity then Channel(taken, queue + [x]) else this
    }

    function Ran(acts: seq<Act<T>>, capacity: nat): Channel<T> {
      if acts == [] then this else Ran(acts[..|acts| - 1], capacity).Did(acts[|acts| - 1], capacity)
    }
  }

  /** What the acts try to send. */
  function Pushed<T>(acts: seq<Act<T>>): seq<T> {
    if acts == [] then []
    else
      Pushed(acts[..|acts| - 1]) +
      match acts[|acts| - 1]
      case Pull => []
      case Push(x) => [x]
  }

  lemma RanOne<T>(c: Channel<T>, acts: seq<Act<T>>, a: Act<T>, capacity: nat)
    ensures c.Ran(acts + [a], capacity) == c.Ran(acts, capacity).Did(a, capacity)
  {
    assert (acts + [a])[..|acts|] == acts;
  }

  lemma {:induction false} RanTwice<T>(c: Channel<T>, one: seq<Act<T>>, two: seq<Act<T>>, capacity: nat)
    ensures c.Ran(one + two, capacity) == c.Ran(one, capacity).Ran(two, capacity)
  {
    if two == [] {
      assert one + two == one;
    } else {
      var before, a := two[..|two| - 1], two[|two| - 1];
      RanTwice(c, one, before, capacity);
      RanOne(c, one + before, a, capacity);
      assert one + two == one + before + [a];
    }
  }

  lemma {:induction false} PushedTwice<T>(one: seq<Act<T>>, two: seq<Act<T>>)
    ensures Pushed(one + two) == Pushed(one) + Pushed(two)
  {
    if two == [] {
      assert one + two == one;
    } else {
      var before := two[..|two| - 1];
      PushedTwice(one, before);
      assert (one + two)[..|one + two| - 1] == one + before;
    }
  }

  lemma DidAccepts<T>(c: Channel<T>, a: Act<T>, capacity: nat)
    ensures c.Did(a, capacity).Accepted() ==
            if a.Push? && |c.queue| < capacity then c.Accepted() + [a.item] else c.Accepted()
  {
    if a.Push? {
      assert c.taken + (c.queue + [a.item]) == c.taken + c.queue + [a.item];
    }
  }

  /** Nothing that was accepted is lost or reordered. */
  ghost predicate Grew<T>(c: Channel<T>, d: Channel<T>) {
    c.Accepted() <= d.Accepted()
  }

  lemma GrewTwice<T>(c: Channel<T>, d: Channel<T>, e: Channel<T>)
    requires Grew(c, d) && Grew(d, e)
    ensures Grew(c, e)
  {
  }

  lemma {:induction false} RanGrew<T>(c: Channel<T>, acts: seq<Act<T>>, capacity: nat)
    ensures Grew(c, c.Ran(acts, capacity))
  {
    if acts != [] {
      RanGrew(c, acts[..|acts| - 1], capacity);
      DidAccepts(c.Ran(acts[..|acts| - 1], capacity), acts[|acts| - 1], capacity);
    }
  }

  /** When the n-th act sends, there is room. */
  ghost predicate RoomAt<T>(c: Channel<T>, acts: seq<Act<T>>, capacity: nat, n: nat)
    requires n < |acts|
  {
    acts[n].Push? ==> |c.Ran(acts[..n], capacity).queue| < capacity
  }

  ghost predicate AlwaysRoom<T>(c: Channel<T>, acts: seq<Act<T>>, capacity: nat) {
    forall n: nat :: n < |acts| ==> RoomAt(c, acts, capacity, n)
  }

  lemma RoomSame<T>(c: Channel<T>, acts: seq<Act<T>>, capacity: nat, n: nat)
    requires n < |acts| - 1
    ensures RoomAt(c, acts[..|acts| - 1], capacity, n) <==> RoomAt(c, acts, capacity, n)
  {
    assert acts[..|acts| - 1][..n] == acts[..n];
  }

  lemma RoomOneMore<T>(c: Channel<T>, acts: seq<Act<T>>, capacity: nat)
    requires acts != []
    ensures AlwaysRoom(c, acts, capacity) <==>
            AlwaysRoom(c, acts[..|acts| - 1], capacity) && RoomAt(c, acts, capacity, |acts| - 1)
  {
    var before := acts[..|acts| - 1];
    if AlwaysRoom(c, acts, capacity) {
      forall n: nat | n < |before| ensures RoomAt(c, before, capacity, n) {
        RoomSame(c, acts, capacity, n);
        assert RoomAt(c, acts, capacity, n);
      }
      assert RoomAt(c, acts, capacity, |acts| - 1);
    } else {
      var n: nat :| n < |acts| && !RoomAt(c, acts, capacity, n);
      if n < |before| {
        RoomSame(c, acts, capacity, n);
        assert !RoomAt(c, before, capacity, n);
      }
    }
  }

  lemma ExtendsExactly<T>(a: seq<T>, x: seq<T>, e: seq<T>, b: seq<T>, fits: bool)
    requires |b| <= |a| + |x|
    ensures (if e == [] || fits then b + e else b) == a + (x + e) <==> b == a + x && (e == [] || fits)
  {
    assert a + (x + e) == (a + x) + e;
    if e == [] || fits {
      if b + e == a + (x + e) {
        assert b == (b + e)[..|b|] && a + x == ((a + x) + e)[..|b|];
      }
    }
  }

  lemma {:induction false} AcceptedAtMost<T>(c: Channel<T>, acts: seq<Act<T>>, capacity: nat)
    ensures |c.Ran(acts, capacity).Accepted()| <= |c.Accepted()| + |Pushed(acts)|
  {
    if acts != [] {
      AcceptedAtMost(c, acts[..|acts| - 1], capacity);
      DidAccepts(c.Ran(acts[..|acts| - 1], capacity), acts[|acts| - 1], capacity);
    }
  }

  /** A channel accepts everything sent to it, in order, exactly when there is room at each send. */
  lemma {:induction false} AcceptedExactlyWhen<T>(c: Channel<T>, acts: seq<Act<T>>, capacity: nat)
    ensures c.Ran(acts, capacity).Accepted() == c.Accepted() + Pushed(acts) <==> AlwaysRoom(c, acts, capacity)
  {
    if acts == [] {
      assert c.Accepted() + [] == c.Accepted();
    } else {
      var before, a := acts[..|acts| - 1], acts[|acts| - 1];
      var b := c.Ran(before, capacity);
      AcceptedExactlyWhen(c, before, capacity);
      AcceptedAtMost(c, before, capacity);
      RoomOneMore(c, acts, capacity);
      DidAccepts(b, a, capacity);
      ExtendsExactly(c.Accepted(), Pushed(before), if a.Push? then [a.item] else [], b.Accepted(),
        |b.queue| < capacity);
    }
  }

  // ----- Sending among other threads -----

  /** What the other threads do to a channel in front of the n-th send. */
  type Meanwhile<!T> = nat -> seq<Act<T>>

  function Pushes<T>(sent: seq<T>): seq<Act<T>> {
    seq(|sent|, i requires 0 <= i < |sent| => Push(sent[i]))
  }

  /** A thread's sends, each of one element or of none, with what the others do in between. */
  function Among<T>(sends: seq<seq<T>>, meanwhile: Meanwhile<T>): seq<Act<T>> {
    if sends == [] then []
    else
      var n := |sends| - 1;
      Among(sends[..n], meanwhile) + (meanwhile(n) + Pushes(sends[n]))
  }

  lemma {:induction false} AmongOne<T>(c: Channel<T>, sends: seq<seq<T>>, sent: seq<T>, meanwhile: Meanwhile<T>,
                                       capacity: nat)
    ensures c.Ran(Among(sends + [sent], meanwhile), capacity) ==
            c.Ran(Among(sends, meanwhile), capacity).Ran(meanwhile(|sends|), capacity).Ran(Pushes(sent), capacity)
  {
    assert (sends + [sent])[..|sends|] == sends;
    RanTwice(c, Among(sends, meanwhile), meanwhile(|sends|) + Pushes(sent), capacity);
    RanTwice(c.Ran(Among(sends, meanwhile), capacity), meanwhile(|sends|), Pushes(sent), capacity);
  }

  /** A channel has come from `c` to where these sends, among the other threads, take it. */
  ghost predicate Reaches<T>(c: Channel<T>, now: Channel<T>, sends: seq<seq<T>>, meanwhile: Meanwhile<T>,
                             capacity: nat) {
    now == c.Ran(Among(sends, meanwhile), capacity)
  }

  lemma ReachesOne<T>(c: Channel<T>, before: Channel<T>, sends: seq<seq<T>>, sent: seq<T>, meanwhile: Meanwhile<T>,
                      capacity: nat)
    requires Reaches(c, before, sends, meanwhile, capacity)
    ensures Reaches(c, before.Ran(meanwhile(|sends|), capacity).Ran(Pushes(sent), capacity), sends + [sent],
            meanwhile, capacity)
  {
    AmongOne(c, sends, sent, meanwhile, capacity);
  }

  lemma PushesOne<T>(c: Channel<T>, x: T, capacity: nat)
    ensures c.Ran(Pushes([x]), capacity) == c.Did(Push(x), capacity) && Pushed(Pushes([x])) == [x]
    ensures c.Ran(Pushes([]), capacity) == c && Pushed<T>(Pushes([])) == []
  {
    assert Pushes([x]) == [] + [Push(x)];
    RanOne(c, [], Push(x), capacity);
  }

  function Flat<T>(sends: seq<seq<T>>): seq<T> {
    if sends == [] then [] else Flat(sends[..|sends| - 1]) + sends[|sends| - 1]
  }

  ghost predicate OnlyPulls<T>(meanwhile: Meanwhile<T>) {
    forall n :: Pushed(meanwhile(n)) == []
  }

  lemma {:induction false} PushedPushes<T>(sent: seq<T>)
    ensures Pushed(Pushes(sent)) == sent
  {
    if sent != [] {
      var n := |sent| - 1;
      PushedPushes(sent[..n]);
      assert Pushes(sent)[..n] == Pushes(sent[..n]);
      assert sent == sent[..n] + [sent[n]];
    }
  }

  /** If the others only take, what is sent is what the thread sends. */
  lemma {:induction false} PushedAmong<T>(sends: seq<seq<T>>, meanwhile: Meanwhile<T>)
    requires OnlyPulls(meanwhile)
    ensures Pushed(Among(sends, meanwhile)) == Flat(sends)
  {
    if sends != [] {
      var n := |sends| - 1;
      PushedAmong(sends[..n], meanwhile);
      PushedOne(meanwhile(n), sends[n]);
      PushedTwice(Among(sends[..n], meanwhile), meanwhile(n) + Pushes(sends[n]));
    }
  }

  lemma PushedOne<T>(acts: seq<Act<T>>, sent: seq<T>)
    requires Pushed(acts) == []
    ensures Pushed(acts + Pushes(sent)) == sent
  {
    PushedTwice(acts, Pushes(sent));
    PushedPushes(sent);
  }

  lemma {:induction false} Unreceived<T>(c: Channel<T>, acts: seq<Act<T>>, capacity: nat)
    requires |c.queue| <= capacity && forall n :: 0 <= n < |acts| ==> acts[n].Push?
    ensures var r := c.Ran(acts, capacity);
            r.taken == c.taken && |r.queue| ==
              if |c.queue| + |Pushed(acts)| <= capacity then |c.queue| + |Pushed(acts)| else capacity
  {
    if acts != [] {
      Unreceived(c, acts[..|acts| - 1], capacity);
    }
  }

  lemma {:induction false} AmongNobody<T>(sends: seq<seq<T>>, meanwhile: Meanwhile<T>)
    requires forall n :: meanwhile(n) == []
    ensures forall n :: 0 <= n < |Among(sends, meanwhile)| ==> Among(sends, meanwhile)[n].Push?
  {
    if sends != [] {
      AmongNobody(sends[..|sends| - 1], meanwhile);
    }
  }

  /** What is accepted of acts that only send is a prefix of what they send. */
  lemma {:induction false} AcceptsInOrder<T>(c: Channel<T>, acts: seq<Act<T>>, capacity: nat)
    requires |c.queue| <= capacity && forall n :: 0 <= n < |acts| ==> acts[n].Push?
    ensures c.Ran(acts, capacity).Accepted() <= c.Accepted() + Pushed(acts)
  {
    if acts != [] {
      var before := acts[..|acts| - 1];
      var a := acts[|acts| - 1];
      AcceptsInOrder(c, before, capacity);
      Unreceived(c, before, capacity);
      DidAccepts(c.Ran(before, capacity), a, capacity);
      assert c.Accepted() + Pushed(acts) == c.Accepted() + Pushed(before) + [a.item];
    }
  }
}
