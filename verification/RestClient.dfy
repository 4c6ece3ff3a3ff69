/**
 * The HTTP client: option handling, bounded retry with backoff, and what a send does to the receiver
 * (internal/client/rest.go).
 */
module RestClient {
  import opened Downstream

  /** Go's int and time.Duration (nanoseconds). */
  const MAX_INT: int := 0x7fff_ffff_ffff_ffff
  type Int64 = x: int | -MAX_INT - 1 <= x <= MAX_INT

  const SECOND: Int64 := 1_000_000_000

  datatype ClientOption =
    | WithTimeout(timeout: Int64)
    | WithRetry(maxRetries: Int64, initialDelay: Int64, maxDelay: Int64)

  datatype Settings = Settings(timeout: Int64, maxRetries: Int64, initialDelay: Int64, maxDelay: Int64) {
    predicate Sound() {
      0 < initialDelay <= maxDelay && 0 <= maxRetries
    }
  }

  const DEFAULTS := Settings(30 * SECOND, 3, SECOND, 30 * SECOND)

  /** One option: values out of range are ignored, and the initial delay never exceeds the maximum. */
  function Configured(s: Settings, option: ClientOption): Settings {
    match option
    case WithTimeout(d) => s.(timeout := d)
    case WithRetry(n, initial, max) =>
      var ceiling := if 0 < max then max else s.maxDelay;
      var first := if 0 < initial then initial else s.initialDelay;
      s.(maxRetries := if 0 <= n then n else s.maxRetries, maxDelay := ceiling, initialDelay := Min(first, ceiling))
  }

  function ConfiguredAll(options: seq<ClientOption>): Settings {
    if options == [] then DEFAULTS
    else Configured(ConfiguredAll(options[..|options| - 1]), options[|options| - 1])
  }

  /** Every sequence of options leaves sound settings. */
  lemma {:induction false} ConfigurationSound(options: seq<ClientOption>)
    ensures ConfiguredAll(options).Sound()
  {
    if options != [] {
      ConfigurationSound(options[..|options| - 1]);
    }
  }

  /** The client before any option. */
  lemma Unconfigured()
    ensures var s := ConfiguredAll([]);
            && s.timeout == 30_000_000_000 && s.maxRetries == 3
            && s.initialDelay == 1_000_000_000 && s.maxDelay == 30_000_000_000
  {
  }

  /** What the option asks for, where it is in range; nothing is asked where it is not. */
  predicate AsksRetries(option: ClientOption) {
    option.WithRetry? && 0 <= option.maxRetries
  }

  predicate AsksDelay(option: ClientOption) {
    option.WithRetry? && 0 < option.initialDelay
  }

  predicate AsksCeiling(option: ClientOption) {
    option.WithRetry? && 0 < option.maxDelay
  }

  /**
   * The last option that asks for a number of retries, a ceiling or a timeout gets it; if none does, nothing
   * changes.
   */
  lemma {:induction false} LastOptionWins(options: seq<ClientOption>, k: nat)
    requires k <= |options|
    ensures k < |options| && AsksRetries(options[k]) && (forall j :: k < j < |options| ==> !AsksRetries(options[j])) ==>
              ConfiguredAll(options).maxRetries == options[k].maxRetries
    ensures k < |options| && AsksCeiling(options[k]) && (forall j :: k < j < |options| ==> !AsksCeiling(options[j])) ==>
              ConfiguredAll(options).maxDelay == options[k].maxDelay
    ensures k < |options| && options[k].WithTimeout? && (forall j :: k < j < |options| ==> !options[j].WithTimeout?) ==>
              ConfiguredAll(options).timeout == options[k].timeout
    ensures (forall j :: k <= j < |options| ==> !AsksRetries(options[j])) ==>
              ConfiguredAll(options).maxRetries == ConfiguredAll(options[..k]).maxRetries
    ensures (forall j :: k <= j < |options| ==> !AsksCeiling(options[j])) ==>
              ConfiguredAll(options).maxDelay == ConfiguredAll(options[..k]).maxDelay
    ensures (forall j :: k <= j < |options| ==> !options[j].WithTimeout?) ==>
              ConfiguredAll(options).timeout == ConfiguredAll(options[..k]).timeout
  {
    if k == |options| {
      assert options[..k] == options;
    } else {
      var before := options[..|options| - 1];
      if k < |before| {
        LastOptionWins(before, k);
      }
      assert before[..k] == options[..k];
    }
  }

  /** The initial delay is what the last option asked for, but never more than the ceiling it meets. */
  lemma InitialDelayAsked(options: seq<ClientOption>, option: ClientOption)
    requires option.WithRetry?
    ensures var before, after := ConfiguredAll(options), ConfiguredAll(options + [option]);
            var asked := if AsksDelay(option) then option.initialDelay else before.initialDelay;
            && after.initialDelay <= asked && after.initialDelay <= after.maxDelay
            && (after.initialDelay == asked || after.initialDelay == after.maxDelay)
  {
    assert (options + [option])[..|options|] == options;
  }

  // ----- Backoff -----

  function Pow2(n: nat): nat {
    if n == 0 then 1 else 2 * Pow2(n - 1)
  }

  function Min(a: int, b: int): int {
    if a <= b then a else b
  }

  /** The delay before jitter in front of attempt `attempt` >= 1. */
  function Cap(s: Settings, attempt: nat): int
    requires 1 <= attempt
  {
    Min(s.initialDelay * Pow2(attempt - 1), s.maxDelay)
  }

  lemma CapsGrow(s: Settings, attempt: nat)
    requires s.Sound() && 1 <= attempt
    ensures 0 < Cap(s, attempt) <= Cap(s, attempt + 1) <= s.maxDelay
  {
    assert Pow2(attempt) == 2 * Pow2(attempt - 1);
    PowPositive(attempt - 1);
    Scaled(s.initialDelay, Pow2(attempt - 1));
  }

  /** The first delay is the initial one; each further one is twice the one before, up to the ceiling. */
  lemma CapsDouble(s: Settings, attempt: nat)
    requires s.Sound() && 1 <= attempt
    ensures Cap(s, 1) == s.initialDelay
    ensures Cap(s, attempt + 1) == Min(2 * Cap(s, attempt), s.maxDelay)
    ensures Cap(s, attempt) < s.maxDelay ==>
              Cap(s, attempt + 1) == s.maxDelay || Cap(s, attempt + 1) == 2 * Cap(s, attempt)
    ensures Cap(s, attempt) == s.maxDelay ==> Cap(s, attempt + 1) == s.maxDelay
  {
    assert Pow2(attempt) == 2 * Pow2(attempt - 1);
    PowPositive(attempt - 1);
    Scaled(s.initialDelay, Pow2(attempt - 1));
  }

  /** `j` retries come before the ceiling is met, and every later one waits for the ceiling. */
  ghost predicate MeetsCeiling(s: Settings, j: nat) {
    && (j == 0 || s.initialDelay * Pow2(j - 1) <= s.maxDelay)
    && s.maxDelay <= s.initialDelay * Pow2(j)
  }

  /** The delays of n retries: the geometric series as far as it is below the ceiling, then the ceiling. */
  function Delays(s: Settings, j: nat, n: nat): int {
    if n <= j then s.initialDelay * (Pow2(n) - 1) else s.initialDelay * (Pow2(j) - 1) + (n - j) * s.maxDelay
  }

  /** As many delays as fit are below the ceiling, and the others are at it. */
  lemma CapAt(s: Settings, j: nat, n: nat)
    requires s.Sound() && MeetsCeiling(s, j) && 1 <= n
    ensures Cap(s, n) == if n <= j then s.initialDelay * Pow2(n - 1) else s.maxDelay
  {
    if n <= j {
      PowGrows(s.initialDelay, n - 1, j - 1);
    } else {
      PowGrows(s.initialDelay, j, n - 1);
    }
  }

  lemma DelaysOneMore(s: Settings, j: nat, n: nat)
    requires 1 <= n
    ensures Delays(s, j, n) == Delays(s, j, n - 1) + if n <= j then s.initialDelay * Pow2(n - 1) else s.maxDelay
  {
    if n <= j {
      Distribute(s.initialDelay, Pow2(n - 1));
    } else {
      OneMoreTimes(n - 1 - j, s.maxDelay);
    }
  }

  lemma OneMoreTimes(m: int, d: int)
    ensures (m + 1) * d == m * d + d
  {
  }

  lemma {:induction false} CapSumExactly(s: Settings, j: nat, n: nat)
    requires s.Sound() && MeetsCeiling(s, j)
    ensures CapSum(s, n) == Delays(s, j, n)
  {
    if n > 0 {
      CapAt(s, j, n);
      DelaysOneMore(s, j, n);
      CapSumExactly(s, j, n - 1);
    }
  }

  lemma {:induction false} PowGrows(d: int, m: nat, n: nat)
    requires 0 < d && m <= n
    ensures d * Pow2(m) <= d * Pow2(n)
  {
    if m < n {
      PowGrows(d, m, n - 1);
      PowPositive(n - 1);
      Scaled(d, Pow2(n - 1));
    }
  }

  lemma ThreeQuartersOf(cap: int)
    ensures 3 * cap - 3 <= 4 * ThreeQuarters(cap) <= 3 * cap
  {
  }

  /** What is surely waited is three quarters of the caps, less than a nanosecond short at each retry. */
  lemma {:induction false} LowSumNear(s: Settings, n: nat)
    ensures 3 * CapSum(s, n) - 3 * n <= 4 * LowSum(s, n) <= 3 * CapSum(s, n)
  {
    if n > 0 {
      LowSumNear(s, n - 1);
      ThreeQuartersOf(Cap(s, n));
    }
  }

  lemma PowPositive(n: nat)
    ensures 1 <= Pow2(n)
  {
  }

  lemma Scaled(d: int, p: nat)
    requires 0 < d && 1 <= p
    ensures 0 < d * p <= d * (2 * p) == 2 * (d * p)
  {
  }

  /** Sum of the caps of the first n retries. */
  function CapSum(s: Settings, n: nat): int {
    if n == 0 then 0 else CapSum(s, n - 1) + Cap(s, n)
  }

  /** Sum of three quarters of those caps, each truncated. */
  function LowSum(s: Settings, n: nat): int {
    if n == 0 then 0 else LowSum(s, n - 1) + ThreeQuarters(Cap(s, n))
  }

  function ThreeQuarters(cap: int): int {
    (cap as real * 0.75).Floor
  }

  /** The waits of a send, the last one possibly cut short. */
  ghost predicate WaitedFor(s: Settings, outcome: Outcome, posts: nat, waited: int) {
    var done := if 0 < posts then posts - 1 else 0;
    LowSum(s, done) <= waited <= CapSum(s, if outcome.Interrupted? then posts else done)
  }

  lemma Distribute(d: int, p: int)
    ensures d * (2 * p - 1) == d * (p - 1) + d * p
  {
    assert d * (2 * p - 1) == d * ((p - 1) + p);
  }

  lemma {:induction false} CapSumGeometric(s: Settings, n: nat)
    requires s.Sound()
    ensures 0 <= CapSum(s, n) <= s.initialDelay * (Pow2(n) - 1)
  {
    if n > 0 {
      CapSumGeometric(s, n - 1);
      CapsGrow(s, n);
      Distribute(s.initialDelay, Pow2(n - 1));
    }
  }

  lemma {:induction false} CapSumLinear(s: Settings, n: nat)
    requires s.Sound()
    ensures CapSum(s, n) <= n * s.maxDelay
  {
    if n > 0 {
      CapSumLinear(s, n - 1);
      CapsGrow(s, n);
      assert n * s.maxDelay == (n - 1) * s.maxDelay + s.maxDelay;
    }
  }

  /** The waits of n retries are bounded by n times the ceiling, and by the whole geometric series. */
  lemma CapSumBound(s: Settings, n: nat)
    requires s.Sound()
    ensures 0 <= CapSum(s, n) <= Min(n * s.maxDelay, s.initialDelay * (Pow2(n) - 1))
  {
    CapSumGeometric(s, n);
    CapSumLinear(s, n);
  }

  /** What one POST gets: the status code of a response, or an error of the transport. */
  datatype Response = Status(code: int) | TransportError

  datatype Reply = Success | ClientError | ServerError | NetworkError

  /** How doPost reads it. */
  function ReplyTo(r: Response): Reply {
    match r
    case TransportError => NetworkError
    case Status(code) =>
      if 400 <= code < 500 then ClientError else if code >= 500 then ServerError else Success
  }

  /**
   `jitter` is the random number in [0, 1) drawn for the backoff in front of the attempt; `cancelled`
   says that the context ended that backoff, `elapsed` after it began.
   */
  datatype Attempt = Attempt(response: Response, applied: bool, jitter: real, cancelled: bool, elapsed: nat) {
    function Reply(): Reply {
      ReplyTo(response)
    }

    ghost predicate Possible() {
      0.0 <= jitter < 1.0 && (Reply().Success? ==> applied)
    }
  }

  predicate Retryable(r: Reply) {
    r.ServerError? || r.NetworkError?
  }

  // ----- Sending -----

  datatype Outcome = Skipped | Unencoded | Delivered | Rejected | Interrupted | Exhausted

  /**
   * The number of attempts the loop makes room for; `maxRetries + 1` wraps at the largest int, and the loop
   * then runs not at all.
   */
  function Budget(maxRetries: Int64): (n: int)
    requires 0 <= maxRetries
    ensures maxRetries < MAX_INT ==> n == maxRetries + 1
    ensures maxRetries == MAX_INT ==> n <= 0
  {
    if maxRetries == MAX_INT then -MAX_INT - 1 else maxRetries + 1
  }

  /** Attempt `i` was made and the loop went on. */
  ghost predicate WentOn(attempts: nat -> Attempt, i: nat) {
    Retryable(attempts(i).Reply()) && (0 < i ==> !attempts(i).cancelled)
  }

  /** What there is to post: nothing for a nil or an empty payload, and nothing either if marshalling it fails. */
  datatype Body = Nothing | Unencodable | Encoded

  function BodyOf(payload: Option<Payload>, encodes: bool): Body {
    if payload.None? || payload.value.IsEmpty() then Nothing else if encodes then Encoded else Unencodable
  }

  /** What `posts` attempts amount to, outcome by outcome. */
  ghost predicate SendIs(body: Body, budget: int, attempts: nat -> Attempt, outcome: Outcome, posts: nat) {
    && (body.Nothing? <==> outcome.Skipped?) && (body.Unencodable? <==> outcome.Unencoded?)
    && (match outcome
        case Skipped => posts == 0
        case Unencoded => posts == 0
        case Delivered =>
          && 1 <= posts <= budget && attempts(posts - 1).Reply().Success?
          && (1 < posts ==> !attempts(posts - 1).cancelled)
        case Rejected =>
          && 1 <= posts <= budget && attempts(posts - 1).Reply().ClientError?
          && (1 < posts ==> !attempts(posts - 1).cancelled)
        case Interrupted => 1 <= posts < budget && WentOn(attempts, posts - 1) && attempts(posts).cancelled
        case Exhausted => posts == if budget < 0 then 0 else budget)
    && (forall i: nat :: i < posts && (i < posts - 1 || outcome.Exhausted?) ==> WentOn(attempts, i))
  }

  /** The description leaves no choice: outcome and number of posts follow from the attempts. */
  lemma SendIsDetermined(body: Body, budget: int, attempts: nat -> Attempt, o1: Outcome, p1: nat, o2: Outcome, p2: nat)
    requires SendIs(body, budget, attempts, o1, p1) && SendIs(body, budget, attempts, o2, p2)
    ensures o1 == o2 && p1 == p2
  {
    // the loop of the longer send, or of the exhausted one, went on where the other stopped
    assert 0 < p1 <= p2 && (p1 < p2 || o2.Exhausted?) ==> WentOn(attempts, p1 - 1);
    assert 0 < p2 <= p1 && (p2 < p1 || o1.Exhausted?) ==> WentOn(attempts, p2 - 1);
    assert p1 < p2 && (p1 < p2 - 1 || o2.Exhausted?) ==> WentOn(attempts, p1);
    assert p2 < p1 && (p2 < p1 - 1 || o1.Exhausted?) ==> WentOn(attempts, p2);
  }

  predicate Refused(r: Response) {
    r.Status? && 400 <= r.code < 500
  }

  predicate Welcomed(r: Response) {
    r.Status? && r.code < 400
  }

  lemma ResponseAt(budget: int, attempts: nat -> Attempt, o: Outcome, posts: nat, i: nat)
    requires SendIs(Encoded, budget, attempts, o, posts) && i < posts
    ensures Refused(attempts(i).response) <==> o.Rejected? && i == posts - 1
    ensures Welcomed(attempts(i).response) <==> o.Delivered? && i == posts - 1
  {
    assert i < posts - 1 || o.Exhausted? ==> WentOn(attempts, i);
    assert o.Interrupted? ==> WentOn(attempts, posts - 1);
  }

  /**
   The codes decide: a send stops at its first 4xx, and is rejected, or at its first code below 400, and
   has delivered; it is interrupted or exhausted only if every post met a 5xx or no response at all.
   */
  lemma LastResponseDecides(budget: int, attempts: nat -> Attempt, o: Outcome, posts: nat)
    requires SendIs(Encoded, budget, attempts, o, posts)
    ensures o.Rejected? <==> exists i: nat :: i < posts && Refused(attempts(i).response)
    ensures o.Delivered? <==> exists i: nat :: i < posts && Welcomed(attempts(i).response)
    ensures forall i: nat :: i < posts && (Refused(attempts(i).response) || Welcomed(attempts(i).response)) ==>
            i == posts - 1
    ensures o.Interrupted? || o.Exhausted? <==>
            forall i: nat :: i < posts ==> attempts(i).response.TransportError? || attempts(i).response.code >= 500
  {
    forall i: nat | i < posts
      ensures Refused(attempts(i).response) <==> o.Rejected? && i == posts - 1
      ensures Welcomed(attempts(i).response) <==> o.Delivered? && i == posts - 1
    {
      ResponseAt(budget, attempts, o, posts, i);
    }
    if o.Rejected? || o.Delivered? {
      ResponseAt(budget, attempts, o, posts, posts - 1);
      assert var r := attempts(posts - 1).response; Refused(r) || Welcomed(r);
    }
  }

  /** Attempt `i` could be retried, and the backoff in front of it, if there was one, was not cut short. */
  ghost predicate GoesOn(attempts: nat -> Attempt, i: nat) {
    (attempts(i).response.TransportError? || attempts(i).response.code >= 500) && (0 < i ==> !attempts(i).cancelled)
  }

  /**
   A send is interrupted exactly when the first backoff that the context ends comes before any answer that
   settles it and within the budget; nothing is posted after it. It is exhausted exactly when nothing
   stops it before the budget does.
   */
  lemma InterruptedExactlyWhen(budget: int, attempts: nat -> Attempt, o: Outcome, posts: nat, k: nat)
    requires SendIs(Encoded, budget, attempts, o, posts)
    ensures o.Interrupted? && posts == k <==>
              1 <= k < budget && attempts(k).cancelled && forall i: nat :: i < k ==> GoesOn(attempts, i)
    ensures 1 <= budget ==> (o.Exhausted? <==> forall i: nat :: i < budget ==> GoesOn(attempts, i))
  {
    var before: nat := if posts == 0 then 0 else posts - 1;
    assert forall i: nat :: GoesOn(attempts, i) <==> WentOn(attempts, i);
    assert o.Interrupted? ==> WentOn(attempts, before);
    assert forall i: nat :: i < before ==> GoesOn(attempts, i);
    assert o.Delivered? || o.Rejected? ==> !GoesOn(attempts, before);
    assert o.Interrupted? ==> !GoesOn(attempts, posts);
    assert k < posts && (k < posts - 1 || o.Exhausted?) ==> WentOn(attempts, k);
  }

  /** Some of the first `posts` attempts reached the receiver. */
  ghost predicate TookEffect(attempts: nat -> Attempt, posts: nat) {
    exists i: nat :: i < posts && attempts(i).applied
  }

  /** The receiver's store after `posts` attempts: the payload has been applied if some attempt took effect. */
  ghost function StoreAfter(payload: Payload, attempts: nat -> Attempt, posts: nat, server: Store): Store {
    if TookEffect(attempts, posts) then Apply(payload, server) else server
  }

  class RestClient {
    var settings: Settings

    constructor New(options: seq<ClientOption>)
      ensures settings == ConfiguredAll(options) && settings.Sound()
    {
      settings := DEFAULTS;
      new;
      for n := 0 to |options|
        invariant settings == ConfiguredAll(options[..n])
      {
        assert options[..n + 1][..n] == options[..n];
        Configure(options[n]);
      }
      assert options[..|options|] == options;
      ConfigurationSound(options);
    }

    method Configure(option: ClientOption)
      modifies this
      ensures settings == Configured(old(settings), option)
    {
      match option
      case WithTimeout(d) =>
        settings := settings.(timeout := d);
      case WithRetry(n, initial, max) =>
        if n >= 0 {
          settings := settings.(maxRetries := n);
        }
        if initial > 0 {
          settings := settings.(initialDelay := initial);
        }
        if max > 0 {
          settings := settings.(maxDelay := max);
        }
        if settings.initialDelay > settings.maxDelay {
          settings := settings.(initialDelay := settings.maxDelay);
        }
    }

    /** The exponential delay in front of an attempt, cut off at the maximum. */
    method CappedDelay(attempt: nat) returns (d: real)
      requires settings.Sound() && 1 <= attempt
      ensures d == Cap(settings, attempt) as real && 0 < Cap(settings, attempt)
    {
      d := Uncapped(settings, attempt);
      if d > settings.maxDelay as real {
        d := settings.maxDelay as real;
      }
      CapIsReal(settings, attempt, d);
    }

    /** Three quarters of the cap and up, never more than the cap; truncated to whole nanoseconds. */
    method BackoffDelay(attempt: nat, jitter: real) returns (delay: int)
      requires settings.Sound() && 1 <= attempt && 0.0 <= jitter < 1.0
      ensures ThreeQuarters(Cap(settings, attempt)) <= delay <= Cap(settings, attempt)
      ensures delay == (Cap(settings, attempt) as real * Factor(jitter)).Floor
    {
      var d := CappedDelay(attempt);
      DelayBounds(Cap(settings, attempt), Factor(jitter));
      delay := (d * Factor(jitter)).Floor;
    }

    /** The wait in front of an attempt; a context that is cancelled cuts it short. */
    method Backoff(attempt: nat, a: Attempt) returns (waited: int)
      requires settings.Sound() && 1 <= attempt && a.Possible()
      ensures 0 <= waited <= Cap(settings, attempt)
      ensures !a.cancelled ==> ThreeQuarters(Cap(settings, attempt)) <= waited
    {
      var delay := BackoffDelay(attempt, a.jitter);
      DelayNonNegative(settings, attempt, delay);
      waited := if a.cancelled then Min(delay, a.elapsed) else delay;
    }

    /**
     A nil or empty payload is skipped, and one that cannot be marshalled is an error at once. Otherwise
     posts until the receiver accepts, refuses, or the attempts run out. `server` is the receiver's
     store; an attempt that reached it applied the payload, whatever the reply was.
     */
    method Send(payload: Option<Payload>, encodes: bool, attempts: nat -> Attempt, ghost server: Store)
      returns (outcome: Outcome, posts: nat, waited: int, ghost server': Store)
      requires settings.Sound() && forall i :: attempts(i).Possible()
      ensures outcome.Skipped? <==> payload.None? || (payload.value.upserts == [] && payload.value.deletes == [])
      ensures outcome.Unencoded? <==>
                !encodes && payload.Some? && (payload.value.upserts != [] || payload.value.deletes != [])
      ensures settings.maxRetries < MAX_INT ==>
                (1 <= posts <==>
                   encodes && payload.Some? && (payload.value.upserts != [] || payload.value.deletes != []))
      ensures outcome.Exhausted? && settings.maxRetries < MAX_INT ==> posts == settings.maxRetries + 1
      ensures SendIs(BodyOf(payload, encodes), Budget(settings.maxRetries), attempts, outcome, posts)
      ensures server' == if payload.None? then server else StoreAfter(payload.value, attempts, posts, server)
      ensures WaitedFor(settings, outcome, posts, waited)
    {
      posts, waited, server' := 0, 0, server;
      if payload.None? || payload.value.IsEmpty() {
        outcome := Skipped;
        return;
      }
      if !encodes {
        outcome := Unencoded;
        return;
      }
      outcome, posts, waited, server' := PostUntilDone(payload.value, attempts, server);
    }

    /** The retry loop. */
    method PostUntilDone(payload: Payload, attempts: nat -> Attempt, ghost server: Store)
      returns (outcome: Outcome, posts: nat, waited: int, ghost server': Store)
      requires settings.Sound() && forall i :: attempts(i).Possible()
      ensures SendIs(Encoded, Budget(settings.maxRetries), attempts, outcome, posts)
      ensures server' == StoreAfter(payload, attempts, posts, server)
      ensures WaitedFor(settings, outcome, posts, waited)
    {
      posts, waited, server' := 0, 0, server;
      var budget := Budget(settings.maxRetries);
      while posts < budget
        invariant posts <= budget || posts == 0
        invariant forall i: nat :: i < posts ==> WentOn(attempts, i)
        invariant server' == StoreAfter(payload, attempts, posts, server)
        invariant WaitedFor(settings, Exhausted, posts, waited)
      {
        var a := attempts(posts);
        if posts > 0 {
          var delay := Backoff(posts, a);
          waited := waited + delay;
          if a.cancelled {
            outcome := Interrupted;
            return;
          }
        }
        EffectOfOne(payload, attempts, posts, server);
        if a.applied {
          server' := Apply(payload, server');
        }
        posts := posts + 1;
        if a.Reply().Success? {
          outcome := Delivered;
          return;
        }
        if a.Reply().ClientError? {
          outcome := Rejected;
          return;
        }
      }
      outcome := Exhausted;
    }
  }

  /** Between three quarters and one. */
  function Factor(jitter: real): real {
    0.75 + jitter * 0.25
  }

  function Uncapped(s: Settings, attempt: nat): real
    requires 1 <= attempt
  {
    s.initialDelay as real * Pow2(attempt - 1) as real
  }

  lemma CapIsReal(s: Settings, attempt: nat, d: real)
    requires s.Sound() && 1 <= attempt
    requires d == if Uncapped(s, attempt) > s.maxDelay as real then s.maxDelay as real else Uncapped(s, attempt)
    ensures d == Cap(s, attempt) as real && 0 < Cap(s, attempt)
  {
    CapsGrow(s, attempt);
    assert Uncapped(s, attempt) == (s.initialDelay * Pow2(attempt - 1)) as real;
  }

  lemma TimesMonotone(c: real, f: real, g: real)
    requires 0.0 <= c && f <= g
    ensures c * f <= c * g
  {
    assert c * g - c * f == c * (g - f);
  }

  lemma FloorMonotone(a: real, b: real)
    requires a <= b
    ensures a.Floor <= b.Floor
  {
  }

  lemma DelayBounds(cap: int, f: real)
    requires 0 < cap && 0.75 <= f <= 1.0
    ensures ThreeQuarters(cap) <= (cap as real * f).Floor <= cap
  {
    TimesMonotone(cap as real, 0.75, f);
    TimesMonotone(cap as real, f, 1.0);
    FloorMonotone(cap as real * 0.75, cap as real * f);
    FloorMonotone(cap as real * f, cap as real);
  }

  lemma DelayNonNegative(s: Settings, attempt: nat, delay: int)
    requires s.Sound() && 1 <= attempt && ThreeQuarters(Cap(s, attempt)) <= delay
    ensures 0 <= delay
  {
    CapsGrow(s, attempt);
  }

  /** Applying again what has been applied changes nothing. */
  lemma EffectOfOne(payload: Payload, attempts: nat -> Attempt, n: nat, server: Store)
    ensures TookEffect(attempts, n + 1) <==> TookEffect(attempts, n) || attempts(n).applied
    ensures Apply(payload, Apply(payload, server)) == Apply(payload, server)
  {
    ApplyIdempotent(payload, server);
    if attempts(n).applied {
      assert n < n + 1 && attempts(n).applied;
    }
  }

  /** Nothing is too short: every delay from three quarters of the cap up to it is drawn by some jitter. */
  lemma EveryDelayDrawn(cap: int, delay: int) returns (jitter: real)
    requires 0 < cap && ThreeQuarters(cap) <= delay < cap
    ensures 0.0 <= jitter < 1.0 && (cap as real * Factor(jitter)).Floor == delay
  {
    var c := cap as real;
    if delay as real <= c * 0.75 {
      jitter := 0.0;
    } else {
      jitter := (delay as real / c - 0.75) * 4.0;
      assert Factor(jitter) == delay as real / c;
      QuotientBounds(delay as real, c);
    }
  }

  lemma QuotientBounds(d: real, c: real)
    requires 0.0 < c && c * 0.75 < d < c
    ensures c * (d / c) == d && 0.75 < d / c < 1.0
  {
    var q := d / c;
    assert c * q == d;
    if q <= 0.75 {
      TimesMonotone(c, q, 0.75);
    }
    if 1.0 <= q {
      TimesMonotone(c, 1.0, q);
    }
  }

  /** A larger random number never shortens the delay. */
  lemma JitterMonotone(cap: int, j1: real, j2: real)
    requires 0 < cap && j1 <= j2
    ensures (cap as real * Factor(j1)).Floor <= (cap as real * Factor(j2)).Floor
  {
    TimesMonotone(cap as real, Factor(j1), Factor(j2));
    FloorMonotone(cap as real * Factor(j1), cap as real * Factor(j2));
  }

  // ----- The retry budget -----

  /**
   Which payloads are posted: every one that has an upsert or a delete and marshals, unless the budget is
   the largest int; one that has neither is skipped.
   */
  lemma PostedExactlyWhen(s: Settings, payload: Option<Payload>, encodes: bool, attempts: nat -> Attempt,
                          outcome: Outcome, posts: nat)
    requires s.Sound() && SendIs(BodyOf(payload, encodes), Budget(s.maxRetries), attempts, outcome, posts)
    ensures var some := payload.Some? && (payload.value.upserts != [] || payload.value.deletes != []);
            && (outcome.Skipped? <==> !some) && (outcome.Unencoded? <==> some && !encodes)
            && (1 <= posts <==> some && encodes && s.maxRetries < MAX_INT)
            && (outcome.Exhausted? && s.maxRetries < MAX_INT ==> posts == s.maxRetries + 1)
  {
    if outcome.Exhausted? && s.maxRetries < MAX_INT {
      assert posts == s.maxRetries + 1;
    }
  }

  /** For sound settings some number of retries comes before the ceiling. */
  lemma CeilingMet(s: Settings) returns (j: nat)
    requires s.Sound()
    ensures MeetsCeiling(s, j)
  {
    j := 0;
    while s.initialDelay * Pow2(j) < s.maxDelay
      invariant j == 0 || s.initialDelay * Pow2(j - 1) <= s.maxDelay
      decreases s.maxDelay - s.initialDelay * Pow2(j)
    {
      PowPositive(j);
      Scaled(s.initialDelay, Pow2(j));
      j := j + 1;
    }
  }

  /**
   The waiting of n retries from below: three quarters of the delays, which double until they meet the
   ceiling, less than a nanosecond short at each.
   */
  lemma WaitsAtLeast(s: Settings, outcome: Outcome, posts: nat, waited: int, j: nat)
    requires s.Sound() && WaitedFor(s, outcome, posts, waited) && 1 <= posts && MeetsCeiling(s, j)
    ensures 4 * waited >= 3 * Delays(s, j, posts - 1) - 3 * (posts - 1)
  {
    CapSumExactly(s, j, posts - 1);
    LowSumNear(s, posts - 1);
  }

  /** At most maxRetries + 1 posts, and total waiting within both bounds. */
  lemma RetryBounds(s: Settings, body: Body, attempts: nat -> Attempt, outcome: Outcome, posts: nat, waited: int)
    requires s.Sound() && SendIs(body, Budget(s.maxRetries), attempts, outcome, posts)
    requires WaitedFor(s, outcome, posts, waited)
    ensures posts <= s.maxRetries + 1
    ensures waited <= Min(s.maxRetries * s.maxDelay, s.initialDelay * (Pow2(s.maxRetries) - 1))
  {
    var n := if outcome.Interrupted? then posts else if 0 < posts then posts - 1 else 0;
    CapSumGrows(s, n, s.maxRetries);
    CapSumBound(s, s.maxRetries);
  }

  lemma {:induction false} CapSumGrows(s: Settings, m: nat, n: nat)
    requires s.Sound() && m <= n
    ensures CapSum(s, m) <= CapSum(s, n)
  {
    if m < n {
      CapSumGrows(s, m, n - 1);
      CapsGrow(s, n);
    }
  }

  /** The largest int as maxRetries is a possible setting, and with it a non-empty payload is never posted at all. */
  lemma LargestBudgetPostsNothing(attempts: nat -> Attempt, outcome: Outcome, posts: nat)
    requires SendIs(Encoded, Budget(ConfiguredAll([WithRetry(MAX_INT, 0, 0)]).maxRetries), attempts, outcome, posts)
    ensures outcome.Exhausted? && posts == 0
  {
    assert ConfiguredAll([WithRetry(MAX_INT, 0, 0)]) == Configured(ConfiguredAll([]), WithRetry(MAX_INT, 0, 0));
  }

  /** A client posts every non-empty payload at least once exactly when its maxRetries is not the largest int. */
  lemma PostsExactlyWhen(s: Settings)
    requires s.Sound()
    ensures (forall attempts: nat -> Attempt, o, posts ::
               SendIs(Encoded, Budget(s.maxRetries), attempts, o, posts) ==> 1 <= posts)
            <==> s.maxRetries < MAX_INT
    ensures forall attempts: nat -> Attempt, o, posts ::
              SendIs(Encoded, Budget(s.maxRetries), attempts, o, posts) ==> (1 <= posts <==> s.maxRetries < MAX_INT)
  {
    if s.maxRetries == MAX_INT {
      var attempts: nat -> Attempt := _ => Attempt(TransportError, false, 0.0, false, 0);
      assert SendIs(Encoded, Budget(s.maxRetries), attempts, Exhausted, 0);
    }
  }
}
