/** The token bucket of each client: `RateLimiter.check` and `RateLimiter.cleanup`.
    Times are real seconds of one clock that never runs backwards. */
module RateLimiter {

  import opened Text

  type Client = string

  const MAX_AGE := 3600.0   // seconds until an unused bucket may be dropped

  datatype Bucket = Bucket(tokens: real, last: real)
  type Buckets = map<Client, Bucket>

  /** `rate` tokens per second, at most `burst` at once. */
  datatype Limits = Limits(rate: real, burst: int) {
    ghost predicate Valid() { rate > 0.0 && burst >= 1 }
  }

  /** `remaining` and `limit` are sent with every answer, `retryAfter` only with a refusal. */
  datatype Reply = Reply(allowed: bool, limit: int, remaining: int, retryAfter: Option<int>)

  datatype Event = Request(client: Client, now: real) | Cleanup(now: real)

  /** The tokens that come in during `seconds`. */
  function Gain(l: Limits, seconds: real): real { seconds * l.rate }

  lemma GainsAdd(l: Limits, a: real, b: real)
    requires l.Valid()
    ensures Gain(l, a + b) == Gain(l, a) + Gain(l, b)
    ensures 0.0 <= b ==> 0.0 <= Gain(l, b)
  {
  }

  /** The tokens a client would find at a moment. */
  function Level(l: Limits, b: Buckets, client: Client, now: real): real {
    if client in b then MinReal(l.burst as real, b[client].tokens + Gain(l, now - b[client].last)) else l.burst as real
  }

  function Answer(l: Limits, b: Buckets, client: Client, now: real): (r: Reply)
    requires l.Valid()
  {
    var tokens := Level(l, b, client, now);
    if tokens >= 1.0 then Reply(true, l.burst, Max(0, tokens.Floor - 1), None)
    else Reply(false, l.burst, 0, Some(((1.0 - tokens) / l.rate).Floor + 1))
  }

  function Taken(l: Limits, b: Buckets, client: Client, now: real): Buckets {
    var tokens := Level(l, b, client, now);
    b[client := Bucket(if tokens >= 1.0 then tokens - 1.0 else tokens, now)]
  }

  predicate Stale(bucket: Bucket, now: real) { now - bucket.last > MAX_AGE }

  function Cleaned(b: Buckets, now: real): Buckets {
    map client | client in b && !Stale(b[client], now) :: b[client]
  }

  function After(l: Limits, b: Buckets, e: Event): Buckets {
    match e
    case Request(client, now) => Taken(l, b, client, now)
    case Cleanup(now) => Cleaned(b, now)
  }

  /** The answers to the requests of a run, in order. */
  function Answers(l: Limits, b: Buckets, events: seq<Event>): seq<Reply>
    requires l.Valid()
    decreases |events|
  {
    if events == [] then [] else
      (if events[0].Request? then [Answer(l, b, events[0].client, events[0].now)] else [])
      + Answers(l, After(l, b, events[0]), events[1..])
  }

  function Grants(l: Limits, b: Buckets, e: Event, client: Client): nat {
    if e.Request? && e.client == client && Level(l, b, client, e.now) >= 1.0 then 1 else 0
  }

  /** How many requests of a client a run allows. */
  function Granted(l: Limits, b: Buckets, events: seq<Event>, client: Client): nat
    decreases |events|
  {
    if events == [] then 0
    else Grants(l, b, events[0], client) + Granted(l, After(l, b, events[0]), events[1..], client)
  }

  /** The events are in order and happen from `start` to `end`. */
  predicate Within(events: seq<Event>, start: real, end: real)
    decreases |events|
  {
    if events == [] then start <= end
    else start <= events[0].now && Within(events[1..], events[0].now, end)
  }

  predicate NoCleanup(events: seq<Event>) {
    forall e :: e in events ==> e.Request?
  }

  function RequestsOf(events: seq<Event>): seq<Event>
    decreases |events|
  {
    if events == [] then [] else (if events[0].Request? then [events[0]] else []) + RequestsOf(events[1..])
  }

  /** Tokens stay between 0 and the burst; no bucket is ahead of the clock. */
  ghost predicate Sound(l: Limits, b: Buckets, now: real) {
    forall client :: client in b ==> 0.0 <= b[client].tokens <= l.burst as real && b[client].last <= now
  }

  lemma LevelGrows(l: Limits, b: Buckets, client: Client, from: real, now: real)
    requires l.Valid() && from <= now
    ensures Level(l, b, client, from) <= Level(l, b, client, now) <= Level(l, b, client, from) + Gain(l, now - from)
  {
    GainsAdd(l, 0.0, now - from);
    if client in b {
      GainsAdd(l, from - b[client].last, now - from);
    }
  }

  lemma LevelInRange(l: Limits, b: Buckets, client: Client, now: real)
    requires l.Valid() && Sound(l, b, now)
    ensures 0.0 <= Level(l, b, client, now) <= l.burst as real
  {
    if client in b {
      GainsAdd(l, 0.0, now - b[client].last);
    }
  }

  lemma StaysSound(l: Limits, b: Buckets, e: Event)
    requires l.Valid() && Sound(l, b, e.now)
    ensures Sound(l, After(l, b, e), e.now)
  {
    if e.Request? { LevelInRange(l, b, e.client, e.now); }
  }

  /** A bucket that is old enough to be dropped has filled up, if the burst is at most what the
      rate brings in that time. */
  lemma StaleIsFull(l: Limits, b: Buckets, client: Client, now: real)
    requires l.Valid() && Sound(l, b, now) && l.burst as real <= Gain(l, MAX_AGE)
    requires client in b && Stale(b[client], now)
    ensures Level(l, b, client, now) == l.burst as real
  {
    GainsAdd(l, MAX_AGE, now - b[client].last - MAX_AGE);
  }

  /** One event: what a client is granted comes out of its level. */
  lemma GrantIsPaid(l: Limits, b: Buckets, e: Event, client: Client)
    requires l.Valid() && Sound(l, b, e.now) && (e.Cleanup? ==> l.burst as real <= Gain(l, MAX_AGE))
    ensures Grants(l, b, e, client) as real + Level(l, After(l, b, e), client, e.now) <= Level(l, b, client, e.now)
  {
    LevelInRange(l, b, client, e.now);
    GainsAdd(l, 0.0, 0.0);
    if e.Cleanup? && client in b && Stale(b[client], e.now) {
      StaleIsFull(l, b, client, e.now);
    }
  }

  lemma {:induction false} GrantedWithinLevel(l: Limits, b: Buckets, events: seq<Event>, client: Client, start: real,
      end: real)
    requires l.Valid() && Sound(l, b, start) && Within(events, start, end)
    requires l.burst as real <= Gain(l, MAX_AGE) || NoCleanup(events)
    ensures Granted(l, b, events, client) as real <= Level(l, b, client, start) + Gain(l, end - start)
    decreases |events|
  {
    if events == [] {
      LevelInRange(l, b, client, start);
      GainsAdd(l, 0.0, end - start);
    } else {
      var e := events[0];
      assert Sound(l, b, e.now);
      assert e in events;
      LevelGrows(l, b, client, start, e.now);
      GrantIsPaid(l, b, e, client);
      StaysSound(l, b, e);
      GrantedWithinLevel(l, After(l, b, e), events[1..], client, e.now, end);
      GainsAdd(l, e.now - start, end - e.now);
    }
  }

  /** In any stretch of a run a client is granted at most burst + rate * T requests, if nothing is
      cleaned up in it or the burst is at most what the rate brings in MAX_AGE seconds. */
  lemma GrantedWithinBurst(l: Limits, b: Buckets, events: seq<Event>, client: Client, start: real, end: real)
    requires l.Valid() && Sound(l, b, start) && Within(events, start, end)
    requires l.burst as real <= Gain(l, MAX_AGE) || NoCleanup(events)
    ensures Granted(l, b, events, client) as real <= l.burst as real + Gain(l, end - start)
  {
    GrantedWithinLevel(l, b, events, client, start, end);
    LevelInRange(l, b, client, start);
  }

  /** The same tokens for everyone, now and later. */
  ghost predicate SameLevels(l: Limits, a: Buckets, b: Buckets, from: real) {
    forall client, now {:trigger Level(l, a, client, now)} {:trigger Level(l, b, client, now)} ::
      from <= now ==> Level(l, a, client, now) == Level(l, b, client, now)
  }

  lemma CleanedIsSame(l: Limits, a: Buckets, b: Buckets, now: real)
    requires l.Valid() && Sound(l, a, now) && l.burst as real <= Gain(l, MAX_AGE) && SameLevels(l, a, b, now)
    ensures SameLevels(l, Cleaned(a, now), b, now)
  {
    forall client, t | now <= t
      ensures Level(l, Cleaned(a, now), client, t) == Level(l, b, client, t)
    {
      assert Level(l, a, client, t) == Level(l, b, client, t);
      if client in a && Stale(a[client], now) {
        StaleIsFull(l, a, client, now);
        LevelGrows(l, a, client, now, t);
      }
    }
  }

  lemma TakenIsSame(l: Limits, a: Buckets, b: Buckets, client: Client, now: real)
    requires l.Valid() && SameLevels(l, a, b, now)
    ensures SameLevels(l, Taken(l, a, client, now), Taken(l, b, client, now), now)
  {
    assert Level(l, a, client, now) == Level(l, b, client, now);
    assert Taken(l, a, client, now)[client] == Taken(l, b, client, now)[client];
    forall other, t | now <= t
      ensures Level(l, Taken(l, a, client, now), other, t) == Level(l, Taken(l, b, client, now), other, t)
    {
      assert Level(l, a, other, t) == Level(l, b, other, t);
    }
  }

  lemma {:induction false} SameAnswers(l: Limits, a: Buckets, b: Buckets, events: seq<Event>, start: real, end: real)
    requires l.Valid() && Sound(l, a, start) && SameLevels(l, a, b, start) && Within(events, start, end)
    requires l.burst as real <= Gain(l, MAX_AGE)
    ensures Answers(l, a, events) == Answers(l, b, RequestsOf(events))
    decreases |events|
  {
    if events != [] {
      var e := events[0];
      assert Sound(l, a, e.now) && SameLevels(l, a, b, e.now);
      StaysSound(l, a, e);
      if e.Request? {
        assert Level(l, a, e.client, e.now) == Level(l, b, e.client, e.now);
        TakenIsSame(l, a, b, e.client, e.now);
        SameAnswers(l, After(l, a, e), After(l, b, e), events[1..], e.now, end);
        assert RequestsOf(events)[1..] == RequestsOf(events[1..]);
      } else {
        CleanedIsSame(l, a, b, e.now);
        SameAnswers(l, After(l, a, e), b, events[1..], e.now, end);
        assert RequestsOf(events) == RequestsOf(events[1..]);
      }
    }
  }

  /** `n` requests of one client at one moment. */
  function Burst(client: Client, now: real, n: nat): seq<Event> {
    if n == 0 then [] else [Request(client, now)] + Burst(client, now, n - 1)
  }

  lemma {:induction false} BurstWithin(client: Client, now: real, n: nat)
    ensures Within(Burst(client, now, n), now, now) && NoCleanup(Burst(client, now, n))
  {
    if n > 0 {
      BurstWithin(client, now, n - 1);
      assert Burst(client, now, n)[1..] == Burst(client, now, n - 1);
    }
  }

  lemma {:induction false} BurstGranted(l: Limits, b: Buckets, client: Client, now: real, n: nat, rest: seq<Event>)
    returns (after: Buckets)
    requires l.Valid() && Level(l, b, client, now) >= n as real
    ensures Granted(l, b, Burst(client, now, n) + rest, client) == n + Granted(l, after, rest, client)
    ensures n > 0 ==> client in after && after[client].last == now
    decreases n
  {
    after := b;
    if n == 0 {
      assert Burst(client, now, n) + rest == rest;
    } else {
      GainsAdd(l, 0.0, 0.0);
      var next := Taken(l, b, client, now);
      assert (Burst(client, now, n) + rest)[1..] == Burst(client, now, n - 1) + rest;
      after := BurstGranted(l, next, client, now, n - 1, rest);
      if n == 1 { after := next; assert Burst(client, now, 0) + rest == rest; }
    }
  }

  lemma {:induction false} WithinConcat(a: seq<Event>, b: seq<Event>, start: real, mid: real, end: real)
    requires Within(a, start, mid) && Within(b, mid, end)
    ensures Within(a + b, start, end)
    decreases |a|
  {
    if a == [] {
      assert a + b == b;
    } else {
      assert (a + b)[1..] == a[1..] + b;
      WithinConcat(a[1..], b, a[0].now, mid, end);
    }
  }

  /** A whole burst, a cleanup just after the bucket has gone stale, and another burst. */
  function TwoBursts(l: Limits, client: Client, later: real): seq<Event>
    requires l.Valid()
  {
    Burst(client, 0.0, l.burst) + ([Cleanup(later)] + Burst(client, later, l.burst))
  }

  lemma TwoBurstsGranted(l: Limits, client: Client, later: real)
    requires l.Valid() && later > MAX_AGE
    ensures Within(TwoBursts(l, client, later), 0.0, later)
    ensures Granted(l, map[], TwoBursts(l, client, later), client) == 2 * l.burst
  {
    var second := Burst(client, later, l.burst);
    BurstWithin(client, 0.0, l.burst);
    BurstWithin(client, later, l.burst);
    WithinConcat(Burst(client, 0.0, l.burst), [Cleanup(later)] + second, 0.0, 0.0, later);
    var after := BurstGranted(l, map[], client, 0.0, l.burst, [Cleanup(later)] + second);
    assert ([Cleanup(later)] + second)[1..] == second == second + [];
    var _ := BurstGranted(l, Cleaned(after, later), client, later, l.burst, []);
  }

  lemma JustTooLate(l: Limits) returns (later: real)
    requires l.Valid() && l.burst as real > Gain(l, MAX_AGE)
    ensures later > MAX_AGE && Gain(l, later) < l.burst as real
  {
    var full := l.burst as real / l.rate;
    assert Gain(l, full) == l.burst as real;
    GainsAdd(l, MAX_AGE, full - MAX_AGE);
    if full <= MAX_AGE { GainsAdd(l, full, MAX_AGE - full); }
    later := (MAX_AGE + full) / 2.0;
    assert Gain(l, later) == (Gain(l, MAX_AGE) + Gain(l, full)) / 2.0;
  }

  ghost predicate Bounded(l: Limits, events: seq<Event>, client: Client, start: real, end: real) {
    Within(events, start, end) ==> Granted(l, map[], events, client) as real <= l.burst as real + Gain(l, end - start)
  }

  /** The bound of GrantedWithinBurst holds for every run, with cleanups at any moments, exactly
      when the burst is at most what the rate brings in MAX_AGE seconds. */
  lemma BoundedExactly(l: Limits)
    requires l.Valid()
    ensures l.burst as real <= Gain(l, MAX_AGE) <==>
            forall events, client, start, end :: Bounded(l, events, client, start, end)
  {
    if l.burst as real <= Gain(l, MAX_AGE) {
      forall events, client, start, end
        ensures Bounded(l, events, client, start, end)
      {
        if Within(events, start, end) { GrantedWithinBurst(l, map[], events, client, start, end); }
      }
    } else {
      var later := JustTooLate(l);
      TwoBurstsGranted(l, "", later);
      var run := TwoBursts(l, "", later);
      assert !Bounded(l, run, "", 0.0, later);
    }
  }

  function Count(answers: seq<Reply>): nat {
    if answers == [] then 0 else (if answers[0].allowed then 1 else 0) + Count(answers[1..])
  }

  lemma {:induction false} GrantedIsCount(l: Limits, b: Buckets, events: seq<Event>, client: Client)
    requires l.Valid() && forall e :: e in events && e.Request? ==> e.client == client
    ensures Granted(l, b, events, client) == Count(Answers(l, b, events))
    decreases |events|
  {
    if events != [] {
      var e, rest := events[0], Answers(l, After(l, b, events[0]), events[1..]);
      GrantedIsCount(l, After(l, b, e), events[1..], client);
      assert e in events;
      if e.Request? {
        var answer := Answer(l, b, e.client, e.now);
        assert ([answer] + rest)[1..] == rest;
      } else {
        assert [] + rest == rest;
      }
    }
  }

  lemma {:induction false} RequestsWithin(events: seq<Event>, start: real, end: real)
    requires Within(events, start, end)
    ensures Within(RequestsOf(events), start, end) && NoCleanup(RequestsOf(events))
    ensures forall e :: e in RequestsOf(events) ==> e in events
    decreases |events|
  {
    if events != [] {
      var rest := RequestsOf(events[1..]);
      RequestsWithin(events[1..], events[0].now, end);
      if events[0].Request? {
        assert ([events[0]] + rest)[1..] == rest;
      } else {
        assert [] + rest == rest;
      }
    }
  }

  lemma {:induction false} OneClient(l: Limits, client: Client, now: real, n: nat)
    ensures forall e :: e in Burst(client, now, n) ==> e == Request(client, now)
  {
    if n > 0 { OneClient(l, client, now, n - 1); }
  }

  ghost predicate Indifferent(l: Limits, events: seq<Event>, start: real, end: real)
    requires l.Valid()
  {
    Within(events, start, end) ==> Answers(l, map[], events) == Answers(l, map[], RequestsOf(events))
  }

  /** Cleaning up, at any moments, changes no answer of any run exactly when the burst is at most
      what the rate brings in MAX_AGE seconds. */
  lemma CleanupHarmlessExactly(l: Limits)
    requires l.Valid()
    ensures l.burst as real <= Gain(l, MAX_AGE) <==>
            forall events, start, end :: Indifferent(l, events, start, end)
  {
    if l.burst as real <= Gain(l, MAX_AGE) {
      forall events, start, end
        ensures Indifferent(l, events, start, end)
      {
        if Within(events, start, end) { SameAnswers(l, map[], map[], events, start, end); }
      }
    } else {
      var later := JustTooLate(l);
      TwoBurstsGranted(l, "", later);
      var run := TwoBursts(l, "", later);
      OneClient(l, "", 0.0, l.burst);
      OneClient(l, "", later, l.burst);
      GrantedIsCount(l, map[], run, "");
      RequestsWithin(run, 0.0, later);
      GrantedIsCount(l, map[], RequestsOf(run), "");
      GrantedWithinBurst(l, map[], RequestsOf(run), "", 0.0, later);
      assert !Indifferent(l, run, 0.0, later);
    }
  }

  /** Nothing of this client happens in the run. */
  predicate Silent(events: seq<Event>, client: Client) {
    forall e :: e in events ==> e.Cleanup? || e.client != client
  }

  lemma {:induction false} LevelKept(l: Limits, b: Buckets, events: seq<Event>, client: Client, start: real, end: real)
    returns (after: Buckets)
    requires l.Valid() && Within(events, start, end) && Silent(events, client)
    ensures after == AfterAll(l, b, events)
    ensures client !in after || (client in b && after[client] == b[client])
    decreases |events|
  {
    if events == [] {
      after := b;
    } else {
      assert events[0] in events;
      after := LevelKept(l, After(l, b, events[0]), events[1..], client, events[0].now, end);
    }
  }

  function AfterAll(l: Limits, b: Buckets, events: seq<Event>): Buckets
    decreases |events|
  {
    if events == [] then b else AfterAll(l, After(l, b, events[0]), events[1..])
  }

  lemma {:induction false} RunStaysSound(l: Limits, b: Buckets, events: seq<Event>, start: real, end: real)
    requires l.Valid() && Sound(l, b, start) && Within(events, start, end)
    ensures Sound(l, AfterAll(l, b, events), end)
    decreases |events|
  {
    if events != [] {
      assert Sound(l, b, events[0].now);
      StaysSound(l, b, events[0]);
      RunStaysSound(l, After(l, b, events[0]), events[1..], events[0].now, end);
    }
  }

  lemma Waited(l: Limits, tokens: real, wait: real)
    requires l.Valid() && tokens < 1.0
    ensures var retry := ((1.0 - tokens) / l.rate).Floor + 1;
            && (wait >= retry as real ==> tokens + Gain(l, wait) >= 1.0)
            && (wait < retry as real - 1.0 ==> tokens + Gain(l, wait) < 1.0)
  {
    var needed := (1.0 - tokens) / l.rate;
    assert Gain(l, needed) == 1.0 - tokens;
    GainsAdd(l, needed, wait - needed);
  }

  /** A refused client that sends nothing for the advertised time is then allowed, whatever the
      others do and whenever buckets are cleaned up; without cleanups one that comes back more
      than a second early is refused again. */
  lemma RetryAfterIsEnough(l: Limits, b: Buckets, client: Client, now: real, meanwhile: seq<Event>, back: real)
    requires l.Valid() && Sound(l, b, now) && Level(l, b, client, now) < 1.0
    requires Within(meanwhile, now, back) && Silent(meanwhile, client)
    ensures !Answer(l, b, client, now).allowed
    ensures var retry := Answer(l, b, client, now).retryAfter.value as real;
            var later := AfterAll(l, Taken(l, b, client, now), meanwhile);
            && (back >= now + retry ==> Answer(l, later, client, back).allowed)
            && (back < now + retry - 1.0 && NoCleanup(meanwhile) ==> !Answer(l, later, client, back).allowed)
  {
    var tokens := Level(l, b, client, now);
    var first := Taken(l, b, client, now);
    var later := LevelKept(l, first, meanwhile, client, now, back);
    LevelInRange(l, b, client, now);
    assert first[client] == Bucket(tokens, now);
    Waited(l, tokens, back - now);
    if NoCleanup(meanwhile) { StillThere(l, first, meanwhile, client); }
  }

  lemma {:induction false} StillThere(l: Limits, b: Buckets, events: seq<Event>, client: Client)
    requires client in b && NoCleanup(events)
    ensures client in AfterAll(l, b, events)
    decreases |events|
  {
    if events != [] {
      assert events[0] in events;
      StillThere(l, After(l, b, events[0]), events[1..], client);
    }
  }

  class Limiter {
    const limits: Limits
    var buckets: Buckets

    constructor (requestsPerMinute: int, burst: int)
      requires requestsPerMinute > 0 && burst >= 0
      ensures limits.Valid() && buckets == map[]
      ensures Gain(limits, 60.0) == requestsPerMinute as real
      ensures limits.burst == if burst != 0 then burst else requestsPerMinute
    {
      limits := Limits(requestsPerMinute as real / 60.0, if burst != 0 then burst else requestsPerMinute);
      buckets := map[];
    }

    method Check(client: Client, now: real) returns (reply: Reply)
      requires limits.Valid()
      modifies this`buckets
      ensures reply == Answer(limits, old(buckets), client, now)
      ensures buckets == Taken(limits, old(buckets), client, now)
    {
      var tokens := limits.burst as real;
      if client in buckets {
        var bucket := buckets[client];
        var elapsed := now - bucket.last;
        tokens := MinReal(limits.burst as real, bucket.tokens + elapsed * limits.rate);
      }
      reply := Reply(true, limits.burst, Max(0, tokens.Floor - 1), None);
      if tokens >= 1.0 {
        buckets := buckets[client := Bucket(tokens - 1.0, now)];
      } else {
        buckets := buckets[client := Bucket(tokens, now)];
        var wait := (1.0 - tokens) / limits.rate;
        reply := reply.(allowed := false, remaining := 0, retryAfter := Some(wait.Floor + 1));
      }
    }

    method Cleanup(now: real)
      modifies this`buckets
      ensures buckets == Cleaned(old(buckets), now)
    {
      var stale := set client | client in buckets && Stale(buckets[client], now);
      while stale != {}
        invariant forall client :: client in buckets <==>
                    client in old(buckets) && (client in stale || !Stale(old(buckets)[client], now))
        invariant forall client :: client in buckets ==> buckets[client] == old(buckets)[client]
        invariant forall client :: client in stale ==> client in old(buckets) && Stale(old(buckets)[client], now)
        decreases |stale|
      {
        var client :| client in stale;
        buckets := buckets - {client};
        stale := stale - {client};
      }
    }

    /** A whole run from an empty table answers as the model above says, and leaves sound buckets. */
    method Serve(events: seq<Event>, ghost start: real, ghost end: real) returns (replies: seq<Reply>)
      requires limits.Valid() && buckets == map[] && Within(events, start, end)
      modifies this`buckets
      ensures replies == Answers(limits, map[], events)
      ensures buckets == AfterAll(limits, map[], events) && Sound(limits, buckets, end)
    {
      replies := [];
      RunStaysSound(limits, map[], events, start, end);
      assert events[0..] == events;
      for i := 0 to |events|
        invariant replies + Answers(limits, buckets, events[i..]) == Answers(limits, map[], events)
        invariant AfterAll(limits, buckets, events[i..]) == AfterAll(limits, map[], events)
      {
        ServeStep(limits, buckets, events, i, replies);
        if events[i].Request? {
          var reply := Check(events[i].client, events[i].now);
          replies := replies + [reply];
        } else {
          Cleanup(events[i].now);
        }
      }
    }
  }

  lemma ServeStep(l: Limits, b: Buckets, events: seq<Event>, i: nat, replies: seq<Reply>)
    requires l.Valid() && i < |events|
    ensures AfterAll(l, b, events[i..]) == AfterAll(l, After(l, b, events[i]), events[i + 1..])
    ensures var more := if events[i].Request? then replies + [Answer(l, b, events[i].client, events[i].now)] else replies;
            replies + Answers(l, b, events[i..]) == more + Answers(l, After(l, b, events[i]), events[i + 1..])
  {
    assert events[i..][1..] == events[i + 1..] && events[i..][0] == events[i];
  }
}
