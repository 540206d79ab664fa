/** The per-credential token bucket (src/ratelimit.rs), over exact reals. */
module RateLimiting {
  import opened Wrappers

  const IDLE_EVICTION := 600.0

  datatype Bucket = Bucket(tokens: real, lastSeen: real)

  datatype Decision = Allow | Deny(retryAfterSecs: int)

  datatype Limits = Limits(burst: nat, perSecond: real) {
    predicate Usable() { burst >= 1 && perSecond > 0.0 }

    /** A bucket refills completely within the idle time after which it is dropped. */
    predicate RefillsBeforeEviction() { burst as real <= IDLE_EVICTION * perSecond }
  }

  function Min(a: real, b: real): real {
    if a <= b then a else b
  }

  function Ceil(x: real): int {
    -((-x).Floor)
  }

  /** `saturating_duration_since`. */
  function Elapsed(since: real, now: real): real {
    if since <= now then now - since else 0.0
  }

  function Lookup(buckets: map<string, Bucket>, key: string): Option<Bucket> {
    if key in buckets then Some(buckets[key]) else None
  }

  /** What one request finds: the allowance refilled up to the burst, a missing bucket being full. */
  function Available(l: Limits, entry: Option<Bucket>, now: real): real {
    match entry
    case None => l.burst as real
    case Some(b) => Min(b.tokens + Elapsed(b.lastSeen, now) * l.perSecond, l.burst as real)
  }

  function RetryAfter(l: Limits, available: real): int
    requires l.perSecond > 0.0
  {
    var secs := Ceil((1.0 - available) / l.perSecond);
    if secs < 1 then 1 else secs
  }

  /** One request: the bucket it leaves and its answer. */
  function Charge(l: Limits, entry: Option<Bucket>, now: real): (Bucket, Decision)
    requires l.Usable()
  {
    var available := Available(l, entry, now);
    if available >= 1.0 then (Bucket(available - 1.0, now), Allow)
    else (Bucket(available, now), Deny(RetryAfter(l, available)))
  }

  predicate Keep(b: Bucket, now: real) {
    Elapsed(b.lastSeen, now) < IDLE_EVICTION
  }

  class RateLimiter {
    var buckets: map<string, Bucket>
    const limits: Limits

    /** Degenerate settings are clamped to something usable. */
    constructor (burst: nat, perSecond: real)
      ensures limits.Usable() && buckets == map[]
      ensures limits == Limits(if burst < 1 then 1 else burst, if perSecond > 0.0 then perSecond else 1.0)
    {
      buckets := map[];
      limits := Limits(if burst < 1 then 1 else burst, if perSecond > 0.0 then perSecond else 1.0);
    }

    method CheckAt(key: string, now: real) returns (decision: Decision)
      requires limits.Usable()
      modifies this`buckets
      ensures var (bucket, answer) := Charge(limits, Lookup(old(buckets), key), now);
              buckets == old(buckets)[key := bucket] && decision == answer
    {
      ghost var was := buckets;
      if key !in buckets {
        buckets := buckets[key := Bucket(limits.burst as real, now)];
      }
      var bucket := buckets[key];
      var elapsed := Elapsed(bucket.lastSeen, now);
      var tokens := Min(bucket.tokens + elapsed * limits.perSecond, limits.burst as real);
      if tokens >= 1.0 {
        buckets := buckets[key := Bucket(tokens - 1.0, now)];
        assert buckets == was[key := Bucket(tokens - 1.0, now)];
        return Allow;
      }
      buckets := buckets[key := Bucket(tokens, now)];
      assert buckets == was[key := Bucket(tokens, now)];
      var deficit := 1.0 - tokens;
      var secs := Ceil(deficit / limits.perSecond);
      return Deny(if secs < 1 then 1 else secs);
    }

    method SweepAt(now: real)
      modifies this`buckets
      ensures buckets == Swept(old(buckets), now)
      ensures forall k :: k in buckets <==> k in old(buckets) && now - old(buckets)[k].lastSeen < 600.0
      ensures forall k :: k in buckets ==> buckets[k] == old(buckets)[k]
    {
      var kept: map<string, Bucket> := map[];
      var todo := buckets.Keys;
      while todo != {}
        invariant todo <= buckets.Keys && buckets == old(buckets)
        invariant kept == map k | k in buckets && k !in todo && Keep(buckets[k], now) :: buckets[k]
        decreases |todo|
      {
        var k :| k in todo;
        if Keep(buckets[k], now) {
          kept := kept[k := buckets[k]];
        }
        todo := todo - {k};
      }
      buckets := kept;
    }
  }

  function Swept(buckets: map<string, Bucket>, now: real): map<string, Bucket> {
    map k | k in buckets && Keep(buckets[k], now) :: buckets[k]
  }

  // ---- Runs ----

  datatype Event = Check(key: string, now: real) | Sweep(now: real)

  /** The whole limiter after a run of the two methods. */
  function Run(l: Limits, buckets: map<string, Bucket>, events: seq<Event>): map<string, Bucket>
    requires l.Usable()
  {
    if events == [] then buckets
    else
      var before := Run(l, buckets, events[..|events| - 1]);
      match events[|events| - 1]
      case Check(key, now) => before[key := Charge(l, Lookup(before, key), now).0]
      case Sweep(now) => Swept(before, now)
  }

  /** The answers `key` got during a run of the whole limiter. */
  function Answers(l: Limits, buckets: map<string, Bucket>, events: seq<Event>, key: string): seq<Decision>
    requires l.Usable()
  {
    if events == [] then []
    else
      var front, last := events[..|events| - 1], events[|events| - 1];
      Answers(l, buckets, front, key)
      + (if last.Check? && last.key == key then [Charge(l, Lookup(Run(l, buckets, front), key), last.now).1] else [])
  }

  function CountAllowed(answers: seq<Decision>): nat {
    if answers == [] then 0
    else CountAllowed(answers[..|answers| - 1]) + (if answers[|answers| - 1].Allow? then 1 else 0)
  }

  /** One key's own events: its requests (the instants) and the sweeps. */
  datatype KeyEvent = Request(now: real) | Evict(now: real)

  function Restrict(events: seq<Event>, key: string): seq<KeyEvent> {
    if events == [] then []
    else
      Restrict(events[..|events| - 1], key)
      + match events[|events| - 1]
        case Check(k, now) => if k == key then [Request(now)] else []
        case Sweep(now) => [Evict(now)]
  }

  function KeyStep(l: Limits, entry: Option<Bucket>, e: KeyEvent): Option<Bucket>
    requires l.Usable()
  {
    match e
    case Request(now) => Some(Charge(l, entry, now).0)
    case Evict(now) => if entry.Some? && Keep(entry.value, now) then entry else None
  }

  function KeyAnswer(l: Limits, entry: Option<Bucket>, e: KeyEvent): seq<Decision>
    requires l.Usable()
  {
    if e.Request? then [Charge(l, entry, e.now).1] else []
  }

  function KeyRun(l: Limits, entry: Option<Bucket>, events: seq<KeyEvent>): Option<Bucket>
    requires l.Usable()
  {
    if events == [] then entry
    else KeyStep(l, KeyRun(l, entry, events[..|events| - 1]), events[|events| - 1])
  }

  function KeyAnswers(l: Limits, entry: Option<Bucket>, events: seq<KeyEvent>): seq<Decision>
    requires l.Usable()
  {
    if events == [] then []
    else
      var front, last := events[..|events| - 1], events[|events| - 1];
      KeyAnswers(l, entry, front) + KeyAnswer(l, KeyRun(l, entry, front), last)
  }

  lemma KeyRunStep(l: Limits, entry: Option<Bucket>, events: seq<KeyEvent>, e: KeyEvent)
    requires l.Usable()
    ensures KeyRun(l, entry, events + [e]) == KeyStep(l, KeyRun(l, entry, events), e)
    ensures KeyAnswers(l, entry, events + [e]) == KeyAnswers(l, entry, events) + KeyAnswer(l, KeyRun(l, entry, events), e)
  {
    assert (events + [e])[..|events|] == events;
  }

  /** Callers are isolated: a key's bucket and answers depend on its own requests and the sweeps, nothing else. */
  lemma {:induction false} KeysAreIsolated(l: Limits, buckets: map<string, Bucket>, events: seq<Event>, key: string)
    requires l.Usable()
    ensures Lookup(Run(l, buckets, events), key) == KeyRun(l, Lookup(buckets, key), Restrict(events, key))
    ensures Answers(l, buckets, events, key) == KeyAnswers(l, Lookup(buckets, key), Restrict(events, key))
  {
    if events != [] {
      var front, last := events[..|events| - 1], events[|events| - 1];
      KeysAreIsolated(l, buckets, front, key);
      var mine := Restrict(front, key);
      assert mine + [] == mine;
      match last
      case Check(k, now) => if k == key { KeyRunStep(l, Lookup(buckets, key), mine, Request(now)); }
      case Sweep(now) => KeyRunStep(l, Lookup(buckets, key), mine, Evict(now));
    }
  }

  /** Clock readings never go back, and lie between `from` and `to`. */
  predicate Timed(events: seq<KeyEvent>, from: real, to: real) {
    && from <= to
    && (forall i :: 0 <= i < |events| ==> from <= events[i].now <= to)
    && forall i, j :: 0 <= i < j < |events| ==> events[i].now <= events[j].now
  }

  /** A bucket as the limiter leaves it: between empty and full, last seen in the past. */
  predicate Settled(l: Limits, entry: Option<Bucket>, now: real) {
    entry.Some? ==> 0.0 <= entry.value.tokens <= l.burst as real && entry.value.lastSeen <= now
  }

  lemma RefillIsLinear(l: Limits, entry: Option<Bucket>, t: real, u: real)
    requires l.Usable() && t <= u && Settled(l, entry, t)
    ensures Settled(l, entry, u)
    ensures Available(l, entry, u) == Min(Available(l, entry, t) + (u - t) * l.perSecond, l.burst as real)
    ensures 0.0 <= Available(l, entry, t) <= Available(l, entry, u) <= l.burst as real
  {
    NonNegative(u - t, l.perSecond);
    if entry.Some? {
      var last := entry.value.lastSeen;
      assert (u - last) * l.perSecond == (t - last) * l.perSecond + (u - t) * l.perSecond;
      NonNegative(t - last, l.perSecond);
    }
  }

  lemma NonNegative(a: real, b: real)
    requires a >= 0.0 && b >= 0.0
    ensures a * b >= 0.0
  {
  }

  lemma TimesRate(x: real, y: real, rate: real)
    requires x <= y && rate > 0.0
    ensures x * rate <= y * rate
  {
    NonNegative(y - x, rate);
    assert (y - x) * rate == y * rate - x * rate;
  }

  lemma CeilBounds(x: real)
    ensures x <= Ceil(x) as real < x + 1.0
  {
  }

  lemma DivideThenTimes(x: real, rate: real)
    requires rate > 0.0
    ensures (x / rate) * rate == x
  {
  }

  lemma OneAnswer(answers: seq<Decision>)
    requires |answers| == 1
    ensures CountAllowed(answers) == if answers[0].Allow? then 1 else 0
  {
    assert answers[..0] == [];
  }

  lemma {:induction false} RunSettles(l: Limits, entry: Option<Bucket>, events: seq<KeyEvent>, from: real, to: real)
    requires l.Usable() && Timed(events, from, to) && Settled(l, entry, from)
    ensures Settled(l, KeyRun(l, entry, events), if events == [] then from else events[|events| - 1].now)
    ensures Settled(l, KeyRun(l, entry, events), to)
  {
    if events != [] {
      var front, last := events[..|events| - 1], events[|events| - 1];
      RunSettles(l, entry, front, from, last.now);
      RefillIsLinear(l, KeyRun(l, entry, front), last.now, last.now);
    }
  }

  predicate NoEvictions(events: seq<KeyEvent>) {
    forall e :: e in events ==> e.Request?
  }

  // ---- What any clock whatever leaves of the bound ----

  /** The instant of the last event. */
  function Later(events: seq<KeyEvent>, from: real): real {
    if events == [] then from else events[|events| - 1].now
  }

  /** How far the clock moved forward, step by step; steps back count for nothing. */
  function Forward(events: seq<KeyEvent>, from: real): real {
    if events == [] then 0.0
    else
      var front := events[..|events| - 1];
      Forward(front, from) + Elapsed(Later(front, from), events[|events| - 1].now)
  }

  /** How far the clock stepped back in all. */
  function Backward(events: seq<KeyEvent>, from: real): real {
    if events == [] then 0.0
    else
      var front := events[..|events| - 1];
      Backward(front, from) + Elapsed(events[|events| - 1].now, Later(front, from))
  }

  lemma {:induction false} ForwardIsSpanPlusStepsBack(events: seq<KeyEvent>, from: real)
    ensures Forward(events, from) == Later(events, from) - from + Backward(events, from)
    ensures Backward(events, from) >= 0.0
  {
    if events != [] { ForwardIsSpanPlusStepsBack(events[..|events| - 1], from); }
  }

  lemma {:induction false} NoStepsBack(events: seq<KeyEvent>, from: real, to: real)
    requires Timed(events, from, to)
    ensures Backward(events, from) == 0.0
  {
    if events != [] {
      TimedPrefix(events, from, to);
      NoStepsBack(events[..|events| - 1], from, events[|events| - 1].now);
    }
  }

  /** Between empty and full, whenever it was last seen. */
  predicate Filled(l: Limits, entry: Option<Bucket>) {
    entry.Some? ==> 0.0 <= entry.value.tokens <= l.burst as real
  }

  /** Reading the clock at `u` after `t` finds at most the refill of the step forward more. */
  lemma RefillIsAtMost(l: Limits, entry: Option<Bucket>, t: real, u: real)
    requires l.Usable() && Filled(l, entry)
    ensures 0.0 <= Available(l, entry, u) <= l.burst as real
    ensures Available(l, entry, u) <= Available(l, entry, t) + Elapsed(t, u) * l.perSecond
  {
    NonNegative(Elapsed(t, u), l.perSecond);
    if entry.Some? {
      var last := entry.value.lastSeen;
      NonNegative(Elapsed(last, u), l.perSecond);
      TimesRate(Elapsed(last, u), Elapsed(last, t) + Elapsed(t, u), l.perSecond);
      Distribute(Elapsed(last, t), Elapsed(t, u), l.perSecond);
      CappedRefill(entry.value.tokens, Elapsed(last, u) * l.perSecond, Elapsed(last, t) * l.perSecond,
                   Elapsed(t, u) * l.perSecond, l.burst as real);
    }
  }

  lemma CappedRefill(tokens: real, x: real, y: real, z: real, cap: real)
    requires x <= y + z && z >= 0.0
    ensures Min(tokens + x, cap) <= Min(tokens + y, cap) + z
  {
  }

  lemma Distribute(x: real, y: real, rate: real)
    ensures (x + y) * rate == x * rate + y * rate
  {
  }

  /** One event spends exactly what it allows, and adds nothing unless a sweep drops a bucket that is not yet full. */
  lemma StepSpends(l: Limits, before: Option<Bucket>, e: KeyEvent)
    requires l.Usable() && Filled(l, before)
    requires l.RefillsBeforeEviction() || e.Request?
    ensures Filled(l, KeyStep(l, before, e))
    ensures Available(l, KeyStep(l, before, e), e.now) + CountAllowed(KeyAnswer(l, before, e)) as real == Available(l, before, e.now)
  {
    RefillIsAtMost(l, before, e.now, e.now);
    match e
    case Request(now) => OneAnswer(KeyAnswer(l, before, e));
    case Evict(now) =>
      if before.Some? && !Keep(before.value, now) {
        IdleRefills(l, Elapsed(before.value.lastSeen, now));
      }
  }

  lemma IdleRefills(l: Limits, idle: real)
    requires l.Usable() && l.RefillsBeforeEviction() && idle >= IDLE_EVICTION
    ensures idle * l.perSecond >= l.burst as real
  {
    TimesRate(IDLE_EVICTION, idle, l.perSecond);
  }

  /** `count` requests and what is `left` are paid for by what was there at the `start` and a refill for `span`. */
  predicate PaidFor(count: int, left: real, start: real, span: real, rate: real) {
    count as real + left <= start + span * rate
  }

  lemma PayOneMore(count: int, more: int, left: real, left': real, start: real, span: real, step: real, total: real, rate: real)
    requires total == span + step
    requires PaidFor(count, left, start, span, rate) && PaidFor(more, left', left, step, rate)
    ensures PaidFor(count + more, left', start, total, rate)
  {
    Distribute(span, step, rate);
  }

  /** Whatever the clock reads, what was allowed and what is left never exceed what was there plus the refill of its
      steps forward. */
  lemma {:induction false} AllowanceUnderAnyClock(l: Limits, entry: Option<Bucket>, events: seq<KeyEvent>, from: real)
    requires l.Usable() && Filled(l, entry)
    requires l.RefillsBeforeEviction() || NoEvictions(events)
    ensures Filled(l, KeyRun(l, entry, events))
    ensures PaidFor(CountAllowed(KeyAnswers(l, entry, events)), Available(l, KeyRun(l, entry, events), Later(events, from)),
                    Available(l, entry, from), Forward(events, from), l.perSecond)
  {
    if events != [] {
      var front, last := events[..|events| - 1], events[|events| - 1];
      var before, t := KeyRun(l, entry, front), Later(front, from);
      assert last in events && forall e :: e in front ==> e in events;
      AllowanceUnderAnyClock(l, entry, front, from);
      CountAllowedConcat(KeyAnswers(l, entry, front), KeyAnswer(l, before, last));
      StepIsPaidFor(l, before, t, last);
      PayOneMore(CountAllowed(KeyAnswers(l, entry, front)), CountAllowed(KeyAnswer(l, before, last)),
                 Available(l, before, t), Available(l, KeyStep(l, before, last), last.now),
                 Available(l, entry, from), Forward(front, from), Elapsed(t, last.now), Forward(events, from), l.perSecond);
    }
  }

  lemma StepIsPaidFor(l: Limits, before: Option<Bucket>, t: real, e: KeyEvent)
    requires l.Usable() && Filled(l, before)
    requires l.RefillsBeforeEviction() || e.Request?
    ensures Filled(l, KeyStep(l, before, e))
    ensures PaidFor(CountAllowed(KeyAnswer(l, before, e)), Available(l, KeyStep(l, before, e), e.now),
                    Available(l, before, t), Elapsed(t, e.now), l.perSecond)
  {
    StepSpends(l, before, e);
    RefillIsAtMost(l, before, t, e.now);
  }

  lemma StepConserves(l: Limits, before: Option<Bucket>, e: KeyEvent)
    requires l.Usable() && Settled(l, before, e.now)
    requires l.RefillsBeforeEviction() || e.Request?
    ensures Settled(l, KeyStep(l, before, e), e.now)
    ensures Available(l, KeyStep(l, before, e), e.now) + CountAllowed(KeyAnswer(l, before, e)) as real == Available(l, before, e.now)
  {
    StepSpends(l, before, e);
  }

  lemma {:induction false} CountAllowedConcat(a: seq<Decision>, b: seq<Decision>)
    ensures CountAllowed(a + b) == CountAllowed(a) + CountAllowed(b)
  {
    if b == [] {
      assert a + b == a;
    } else {
      assert (a + b)[..|a + b| - 1] == a + b[..|b| - 1];
      CountAllowedConcat(a, b[..|b| - 1]);
    }
  }

  lemma TimedPrefix(events: seq<KeyEvent>, from: real, to: real)
    requires Timed(events, from, to) && events != []
    ensures Timed(events[..|events| - 1], from, events[|events| - 1].now)
    ensures from <= events[|events| - 1].now <= to
  {
  }

  lemma RefillIsPaidFor(l: Limits, entry: Option<Bucket>, t: real, u: real)
    requires l.Usable() && Filled(l, entry) && t <= u
    ensures PaidFor(0, Available(l, entry, u), Available(l, entry, t), u - t, l.perSecond)
  {
    RefillIsAtMost(l, entry, t, u);
  }

  /** With a clock that never steps back, what was allowed and what is left never exceed what was there plus the
      refill of the time that passed. */
  lemma AllowanceIsConserved(l: Limits, entry: Option<Bucket>, events: seq<KeyEvent>, from: real, to: real)
    requires l.Usable() && Timed(events, from, to) && Settled(l, entry, from)
    requires l.RefillsBeforeEviction() || NoEvictions(events)
    ensures Settled(l, KeyRun(l, entry, events), to)
    ensures PaidFor(CountAllowed(KeyAnswers(l, entry, events)), Available(l, KeyRun(l, entry, events), to),
                    Available(l, entry, from), to - from, l.perSecond)
  {
    var t := Later(events, from);
    RunSettles(l, entry, events, from, to);
    AllowanceUnderAnyClock(l, entry, events, from);
    ForwardIsSpanPlusStepsBack(events, from);
    NoStepsBack(events, from, to);
    WaitIsPaidFor(l, KeyRun(l, entry, events), CountAllowed(KeyAnswers(l, entry, events)), Available(l, entry, from),
                  from, t, to, Forward(events, from));
  }

  lemma WaitIsPaidFor(l: Limits, after: Option<Bucket>, count: int, start: real, from: real, t: real, to: real, span: real)
    requires l.Usable() && Filled(l, after) && from <= t <= to && span == t - from
    requires PaidFor(count, Available(l, after, t), start, span, l.perSecond)
    ensures PaidFor(count, Available(l, after, to), start, to - from, l.perSecond)
  {
    RefillIsPaidFor(l, after, t, to);
    PayOneMore(count, 0, Available(l, after, t), Available(l, after, to), start, span, to - t, to - from, l.perSecond);
  }

  // ---- The rate bound ----

  lemma {:induction false} KeyRunConcat(l: Limits, entry: Option<Bucket>, a: seq<KeyEvent>, b: seq<KeyEvent>)
    requires l.Usable()
    ensures KeyRun(l, entry, a + b) == KeyRun(l, KeyRun(l, entry, a), b)
  {
    if b == [] {
      assert a + b == a;
    } else {
      var front, last := b[..|b| - 1], b[|b| - 1];
      KeyRunConcat(l, entry, a, front);
      assert a + b == (a + front) + [last];
      KeyRunStep(l, entry, a + front, last);
    }
  }

  lemma {:induction false} KeyAnswersConcat(l: Limits, entry: Option<Bucket>, a: seq<KeyEvent>, b: seq<KeyEvent>)
    requires l.Usable()
    ensures KeyAnswers(l, entry, a + b) == KeyAnswers(l, entry, a) + KeyAnswers(l, KeyRun(l, entry, a), b)
  {
    if b == [] {
      assert a + b == a;
    } else {
      var front, last := b[..|b| - 1], b[|b| - 1];
      var mid := KeyRun(l, entry, a);
      KeyRunConcat(l, entry, a, front);
      KeyAnswersConcat(l, entry, a, front);
      assert a + b == (a + front) + [last];
      KeyRunStep(l, entry, a + front, last);
      Associate(KeyAnswers(l, entry, a), KeyAnswers(l, mid, front), KeyAnswer(l, KeyRun(l, mid, front), last));
    }
  }

  lemma Associate(a: seq<Decision>, b: seq<Decision>, c: seq<Decision>)
    ensures (a + b) + c == a + (b + c)
  {
  }

  function Allowed(l: Limits, entry: Option<Bucket>, events: seq<KeyEvent>): nat
    requires l.Usable()
  {
    CountAllowed(KeyAnswers(l, entry, events))
  }

  /** `count` requests between `from` and `to` are within the burst and the refill. */
  predicate Within(l: Limits, count: int, from: real, to: real) {
    count as real <= l.burst as real + (to - from) * l.perSecond
  }

  /** In the window of events lo..hi of a run on a fresh limiter, no more is allowed than the burst and the refill. */
  ghost predicate WindowBounded(l: Limits, events: seq<KeyEvent>, lo: nat, hi: nat)
    requires l.Usable() && lo < hi <= |events|
  {
    Within(l, Allowed(l, None, events[..hi]) - Allowed(l, None, events[..lo]), events[lo].now, events[hi - 1].now)
  }

  lemma TimedWindow(events: seq<KeyEvent>, lo: nat, hi: nat, from: real, to: real)
    requires Timed(events, from, to) && lo < hi <= |events|
    ensures Timed(events[..lo], from, events[lo].now)
    ensures Timed(events[lo..hi], events[lo].now, events[hi - 1].now)
    ensures NoEvictions(events) ==> NoEvictions(events[lo..hi])
  {
    assert forall e :: e in events[lo..hi] ==> e in events;
  }

  lemma WindowIsBounded(l: Limits, events: seq<KeyEvent>, lo: nat, hi: nat, from: real, to: real)
    requires l.Usable() && Timed(events, from, to) && lo < hi <= |events|
    requires l.RefillsBeforeEviction() || NoEvictions(events)
    ensures WindowBounded(l, events, lo, hi)
  {
    TimedWindow(events, lo, hi, from, to);
    SplitWindow(l, events, lo, hi, from);
  }

  lemma SplitWindow(l: Limits, events: seq<KeyEvent>, lo: nat, hi: nat, from: real)
    requires l.Usable() && lo < hi <= |events|
    requires Timed(events[..lo], from, events[lo].now) && Timed(events[lo..hi], events[lo].now, events[hi - 1].now)
    requires l.RefillsBeforeEviction() || NoEvictions(events[lo..hi])
    ensures WindowBounded(l, events, lo, hi)
  {
    assert events[..hi] == events[..lo] + events[lo..hi];
    AllowedAfter(l, events[..lo], events[lo..hi], from, events[lo].now, events[hi - 1].now);
  }

  lemma AllowedAfter(l: Limits, past: seq<KeyEvent>, window: seq<KeyEvent>, from: real, t: real, u: real)
    requires l.Usable() && Timed(past, from, t) && Timed(window, t, u)
    requires l.RefillsBeforeEviction() || NoEvictions(window)
    ensures Within(l, Allowed(l, None, past + window) - Allowed(l, None, past), t, u)
  {
    RunSettles(l, None, past, from, t);
    KeyAnswersConcat(l, None, past, window);
    CountAllowedConcat(KeyAnswers(l, None, past), KeyAnswers(l, KeyRun(l, None, past), window));
    AllowedInWindow(l, KeyRun(l, None, past), window, t, u);
  }

  lemma AllowedInWindow(l: Limits, entry: Option<Bucket>, window: seq<KeyEvent>, from: real, to: real)
    requires l.Usable() && Timed(window, from, to) && Settled(l, entry, from)
    requires l.RefillsBeforeEviction() || NoEvictions(window)
    ensures Within(l, Allowed(l, entry, window), from, to)
  {
    AllowanceIsConserved(l, entry, window, from, to);
    RefillIsLinear(l, entry, from, from);
    RefillIsLinear(l, KeyRun(l, entry, window), to, to);
  }

  ghost predicate RateBounded(l: Limits)
    requires l.Usable()
  {
    forall events, from, to, lo, hi :: Timed(events, from, to) && 0 <= lo < hi <= |events| ==> WindowBounded(l, events, lo, hi)
  }

  /** `n` back-to-back requests. */
  function Volley(n: nat, now: real): seq<KeyEvent> {
    seq(n, _ => Request(now))
  }

  /** `spent` tokens were taken out of the bucket at this instant. */
  predicate Spent(l: Limits, entry: Option<Bucket>, after: Option<Bucket>, spent: nat, now: real) {
    && Settled(l, after, now)
    && Available(l, after, now) == Available(l, entry, now) - spent as real
    && (spent > 0 ==> after == Some(Bucket(Available(l, entry, now) - spent as real, now)))
  }

  lemma SpendOne(l: Limits, entry: Option<Bucket>, before: Option<Bucket>, spent: nat, now: real)
    requires l.Usable() && Spent(l, entry, before, spent, now)
    requires (spent + 1) as real <= Available(l, entry, now)
    ensures KeyAnswer(l, before, Request(now)) == [Allow]
    ensures Spent(l, entry, KeyStep(l, before, Request(now)), spent + 1, now)
  {
    RefillIsLinear(l, before, now, now);
    RefillIsLinear(l, KeyStep(l, before, Request(now)), now, now);
  }

  lemma {:induction false} VolleyIsAllowed(l: Limits, entry: Option<Bucket>, n: nat, now: real)
    requires l.Usable() && Settled(l, entry, now) && n as real <= Available(l, entry, now)
    ensures CountAllowed(KeyAnswers(l, entry, Volley(n, now))) == n
    ensures Spent(l, entry, KeyRun(l, entry, Volley(n, now)), n, now)
  {
    if n > 0 {
      var front := Volley(n - 1, now);
      VolleyIsAllowed(l, entry, n - 1, now);
      assert Volley(n, now) == front + [Request(now)];
      KeyRunStep(l, entry, front, Request(now));
      SpendOne(l, entry, KeyRun(l, entry, front), n - 1, now);
      CountAllowedConcat(KeyAnswers(l, entry, front), [Allow]);
      OneAnswer([Allow]);
    }
  }

  /** A burst, a sweep once the bucket counts as idle, and another burst. */
  function EvictedBursts(l: Limits): seq<KeyEvent> {
    Volley(l.burst, 0.0) + [Evict(IDLE_EVICTION)] + Volley(l.burst, IDLE_EVICTION)
  }

  lemma EvictionGrantsASecondBurst(l: Limits)
    requires l.Usable()
    ensures CountAllowed(KeyAnswers(l, None, EvictedBursts(l))) == 2 * l.burst
  {
    var first, second := Volley(l.burst, 0.0), Volley(l.burst, IDLE_EVICTION);
    VolleyIsAllowed(l, None, l.burst, 0.0);
    KeyRunStep(l, None, first, Evict(IDLE_EVICTION));
    assert KeyRun(l, None, first + [Evict(IDLE_EVICTION)]) == None;
    VolleyIsAllowed(l, None, l.burst, IDLE_EVICTION);
    KeyAnswersConcat(l, None, first + [Evict(IDLE_EVICTION)], second);
    CountAllowedConcat(KeyAnswers(l, None, first), KeyAnswers(l, None, second));
    assert KeyAnswers(l, None, first + [Evict(IDLE_EVICTION)]) == KeyAnswers(l, None, first);
  }

  /** With sweeps at arbitrary times the rate bound holds over every run exactly when a bucket refills within the
      idle time: a bucket dropped before it is full comes back full. */
  lemma RateBoundedIff(l: Limits)
    requires l.Usable()
    ensures RateBounded(l) <==> l.RefillsBeforeEviction()
  {
    if l.RefillsBeforeEviction() {
      forall events, from, to, lo, hi | Timed(events, from, to) && 0 <= lo < hi <= |events|
        ensures WindowBounded(l, events, lo, hi)
      {
        WindowIsBounded(l, events, lo, hi, from, to);
      }
    } else {
      BurstsBreakTheBound(l);
      var events := EvictedBursts(l);
      assert Timed(events, 0.0, IDLE_EVICTION) && 0 <= 0 < |events| <= |events| && !WindowBounded(l, events, 0, |events|);
    }
  }

  lemma BurstsBreakTheBound(l: Limits)
    requires l.Usable() && !l.RefillsBeforeEviction()
    ensures var events := EvictedBursts(l);
            Timed(events, 0.0, IDLE_EVICTION) && events != [] && !WindowBounded(l, events, 0, |events|)
  {
    var events := EvictedBursts(l);
    var n := |events|;
    EvictionGrantsASecondBurst(l);
    assert events[..n] == events && events[..0] == [];
    assert events[0].now == 0.0 && events[n - 1].now == IDLE_EVICTION;
    NotWithin(l, Allowed(l, None, events[..n]) - Allowed(l, None, events[..0]));
  }

  lemma NotWithin(l: Limits, count: int)
    requires l.Usable() && !l.RefillsBeforeEviction() && count == 2 * l.burst
    ensures !Within(l, count, 0.0, IDLE_EVICTION)
  {
    assert (IDLE_EVICTION - 0.0) * l.perSecond == IDLE_EVICTION * l.perSecond;
    assert count as real == l.burst as real + l.burst as real;
  }

  lemma {:induction false} RestrictConcat(a: seq<Event>, b: seq<Event>, key: string)
    ensures Restrict(a + b, key) == Restrict(a, key) + Restrict(b, key)
  {
    if b == [] {
      assert a + b == a;
    } else {
      assert (a + b)[..|a + b| - 1] == a + b[..|b| - 1];
      RestrictConcat(a, b[..|b| - 1], key);
    }
  }

  /** The whole limiter: in any run on a fresh limiter whose clock never steps back, one key is allowed at most
      burst + rate * T requests within any window, whatever other keys do and whenever sweeps come. */
  lemma LimiterIsRateBounded(l: Limits, past: seq<Event>, window: seq<Event>, key: string, from: real, t: real, u: real)
    requires l.Usable() && l.RefillsBeforeEviction()
    requires Timed(Restrict(past, key), from, t) && Timed(Restrict(window, key), t, u)
    ensures Within(l, CountAllowed(Answers(l, map[], past + window, key)) - CountAllowed(Answers(l, map[], past, key)), t, u)
  {
    KeysAreIsolated(l, map[], past, key);
    KeysAreIsolated(l, map[], past + window, key);
    RestrictConcat(past, window, key);
    AllowedAfter(l, Restrict(past, key), Restrict(window, key), from, t, u);
  }

  /** The bound for any clock: counted from any instant, the whole limiter allows a key in any window of events no more
      than the burst and the refill of the window's span plus whatever the clock stepped back in it. With no step back
      that is the bound. */
  lemma LimiterUnderAnyClock(l: Limits, past: seq<Event>, window: seq<Event>, key: string, from: real, to: real)
    requires l.Usable()
    requires l.RefillsBeforeEviction() || (NoEvictions(Restrict(past, key)) && NoEvictions(Restrict(window, key)))
    requires to == Later(Restrict(window, key), from) + Backward(Restrict(window, key), from)
    ensures Within(l, CountAllowed(Answers(l, map[], past + window, key)) - CountAllowed(Answers(l, map[], past, key)), from, to)
  {
    AllowedIsOwn(l, past, key);
    AllowedIsOwn(l, past + window, key);
    RestrictConcat(past, window, key);
    AllowedLaterUnderAnyClock(l, Restrict(past, key), Restrict(window, key), from, to);
  }

  lemma AllowedIsOwn(l: Limits, events: seq<Event>, key: string)
    requires l.Usable()
    ensures CountAllowed(Answers(l, map[], events, key)) == Allowed(l, None, Restrict(events, key))
  {
    KeysAreIsolated(l, map[], events, key);
  }

  lemma AllowedLaterUnderAnyClock(l: Limits, past: seq<KeyEvent>, window: seq<KeyEvent>, from: real, to: real)
    requires l.Usable()
    requires l.RefillsBeforeEviction() || (NoEvictions(past) && NoEvictions(window))
    requires to == Later(window, from) + Backward(window, from)
    ensures Within(l, Allowed(l, None, past + window) - Allowed(l, None, past), from, to)
  {
    AllowanceUnderAnyClock(l, None, past, from);
    KeyAnswersConcat(l, None, past, window);
    CountAllowedConcat(KeyAnswers(l, None, past), KeyAnswers(l, KeyRun(l, None, past), window));
    AllowedUnderAnyClock(l, KeyRun(l, None, past), window, from, to);
  }

  lemma AllowedUnderAnyClock(l: Limits, entry: Option<Bucket>, events: seq<KeyEvent>, from: real, to: real)
    requires l.Usable() && Filled(l, entry)
    requires l.RefillsBeforeEviction() || NoEvictions(events)
    requires to == Later(events, from) + Backward(events, from)
    ensures Within(l, Allowed(l, entry, events), from, to)
  {
    AllowanceUnderAnyClock(l, entry, events, from);
    RefillIsAtMost(l, entry, from, from);
    RefillIsAtMost(l, KeyRun(l, entry, events), from, Later(events, from));
    ForwardIsSpanPlusStepsBack(events, from);
    assert Forward(events, from) == to - from;
    PaidIsWithin(l, Allowed(l, entry, events), Available(l, KeyRun(l, entry, events), Later(events, from)),
                 Available(l, entry, from), from, to);
  }

  lemma PaidIsWithin(l: Limits, count: int, left: real, start: real, from: real, to: real)
    requires PaidFor(count, left, start, to - from, l.perSecond)
    requires left >= 0.0 && start <= l.burst as real
    ensures Within(l, count, from, to)
  {
    LessIsPaidFor(count as real, left, start, (to - from) * l.perSecond, l.burst as real);
  }

  lemma LessIsPaidFor(count: real, left: real, start: real, refill: real, burst: real)
    requires count + left <= start + refill && left >= 0.0 && start <= burst
    ensures count <= burst + refill
  {
  }

  lemma SameRefill(x: real, y: real, rate: real)
    requires x == y
    ensures x * rate == y * rate
  {
  }

  /** Clock readings that alternate between 0 and `d`. */
  function Alternating(d: real, n: nat): seq<KeyEvent> {
    if n == 0 then [] else Alternating(d, n - 1) + [Request(0.0), Request(d)]
  }

  lemma TwoRequests(l: Limits, entry: Option<Bucket>, a: KeyEvent, b: KeyEvent)
    requires l.Usable() && a.Request? && b.Request?
    ensures var (next, first) := Charge(l, entry, a.now);
            var (last, second) := Charge(l, Some(next), b.now);
            && KeyRun(l, entry, [a, b]) == Some(last)
            && CountAllowed(KeyAnswers(l, entry, [a, b])) == (if first.Allow? then 1 else 0) + (if second.Allow? then 1 else 0)
  {
    KeyRunStep(l, entry, [], a);
    KeyRunStep(l, entry, [a], b);
    assert [] + [a] == [a] && [a] + [b] == [a, b];
    CountAllowedConcat(KeyAnswers(l, entry, [a]), KeyAnswer(l, KeyRun(l, entry, [a]), b));
    OneAnswer(KeyAnswer(l, entry, a));
    OneAnswer(KeyAnswer(l, KeyRun(l, entry, [a]), b));
    assert [] + KeyAnswer(l, entry, a) == KeyAnswer(l, entry, a);
  }

  /** What is left, but for what it has beyond one token. */
  function UpToOne(l: Limits, entry: Option<Bucket>): real {
    match entry
    case None => 1.0
    case Some(b) => Min(b.tokens, 1.0)
  }

  /** Never seen, or last seen at `d`. */
  predicate LeftAt(l: Limits, entry: Option<Bucket>, d: real) {
    Filled(l, entry) && (entry.Some? ==> entry.value.lastSeen == d)
  }

  /** The refill of one step of `d`, up to a whole token. */
  function Gain(l: Limits, d: real): real {
    Min(d * l.perSecond, 1.0)
  }

  /** Counting each request let through twice. */
  predicate Gained(count: int, left: real, total: real) {
    2.0 * count as real + left >= total
  }

  lemma GainMore(count: int, more: int, left: real, left': real, total: real, gain: real)
    requires Gained(count, left, total) && Gained(more, left', left + gain)
    ensures Gained(count + more, left', total + gain)
  {
  }

  /** Stepping back costs nothing and stepping forward again refills: each pair of readings gains, in requests let
      through or in tokens kept. */
  lemma PairGains(l: Limits, entry: Option<Bucket>, d: real)
    requires l.Usable() && d > 0.0 && LeftAt(l, entry, d)
    ensures var pair := [Request(0.0), Request(d)];
            && LeftAt(l, KeyRun(l, entry, pair), d)
            && Gained(CountAllowed(KeyAnswers(l, entry, pair)), UpToOne(l, KeyRun(l, entry, pair)), UpToOne(l, entry) + Gain(l, d))
  {
    TwoRequests(l, entry, Request(0.0), Request(d));
    NonNegative(d, l.perSecond);
    SameRefill(d - 0.0, d, l.perSecond);
  }

  lemma {:induction false} AlternatingGains(l: Limits, d: real, n: nat)
    requires l.Usable() && d > 0.0
    ensures LeftAt(l, KeyRun(l, None, Alternating(d, n)), d)
    ensures Gained(Allowed(l, None, Alternating(d, n)), UpToOne(l, KeyRun(l, None, Alternating(d, n))), Gains(l, d, n))
  {
    if n > 0 {
      AlternatingGains(l, d, n - 1);
      PairGainsMore(l, d, Alternating(d, n - 1), Gains(l, d, n - 1));
    }
  }

  lemma PairGainsMore(l: Limits, d: real, front: seq<KeyEvent>, total: real)
    requires l.Usable() && d > 0.0 && LeftAt(l, KeyRun(l, None, front), d)
    requires Gained(Allowed(l, None, front), UpToOne(l, KeyRun(l, None, front)), total)
    ensures var events := front + [Request(0.0), Request(d)];
            && LeftAt(l, KeyRun(l, None, events), d)
            && Gained(Allowed(l, None, events), UpToOne(l, KeyRun(l, None, events)), total + Gain(l, d))
  {
    var pair := [Request(0.0), Request(d)];
    var mid := KeyRun(l, None, front);
    KeyRunConcat(l, None, front, pair);
    KeyAnswersConcat(l, None, front, pair);
    CountAllowedConcat(KeyAnswers(l, None, front), KeyAnswers(l, mid, pair));
    PairGains(l, mid, d);
    GainMore(Allowed(l, None, front), CountAllowed(KeyAnswers(l, mid, pair)), UpToOne(l, mid), UpToOne(l, KeyRun(l, mid, pair)),
             total, Gain(l, d));
  }

  function Gains(l: Limits, d: real, n: nat): real {
    if n == 0 then 1.0 else Gains(l, d, n - 1) + Gain(l, d)
  }

  lemma {:induction false} GainsAddUp(l: Limits, d: real, n: nat)
    ensures Gains(l, d, n) == 1.0 + n as real * Gain(l, d)
  {
    if n > 0 {
      GainsAddUp(l, d, n - 1);
      Distribute((n - 1) as real, 1.0, Gain(l, d));
      assert n as real == (n - 1) as real + 1.0;
    }
  }

  /** The clock must not step back, by however little: for every setting and every step back `d`, readings that
      alternate between 0 and `d` for long enough get more through than a span of `d` should pass. */
  lemma SteppingBackBreaksTheBound(l: Limits, d: real) returns (n: nat)
    requires l.Usable() && d > 0.0
    ensures !Within(l, Allowed(l, None, Alternating(d, n)), 0.0, d)
  {
    var bound := l.burst as real + d * l.perSecond;
    Positive(d, l.perSecond);
    n := EnoughGains(Gain(l, d), 2.0 * bound + 1.0);
    AlternatingGains(l, d, n);
    GainsAddUp(l, d, n);
    TooMany(l, Allowed(l, None, Alternating(d, n)), UpToOne(l, KeyRun(l, None, Alternating(d, n))), Gains(l, d, n), d);
  }

  lemma EnoughGains(gain: real, target: real) returns (n: nat)
    requires gain > 0.0 && target > 0.0
    ensures n as real * gain >= target
  {
    var cycles := target / gain;
    DivideThenTimes(target, gain);
    CeilBounds(cycles);
    Positive(cycles, gain);
    n := Ceil(cycles);
    TimesRate(cycles, n as real, gain);
  }

  lemma TooMany(l: Limits, count: int, left: real, total: real, d: real)
    requires Gained(count, left, total) && left <= 1.0
    requires total >= 1.0 + (2.0 * (l.burst as real + d * l.perSecond) + 1.0)
    ensures !Within(l, count, 0.0, d)
  {
    SameRefill(d - 0.0, d, l.perSecond);
  }

  lemma Positive(x: real, rate: real)
    requires rate > 0.0
    ensures x > 0.0 <==> x * rate > 0.0
  {
  }

  // ---- Sweeping never punishes ----

  function WithoutEvictions(events: seq<KeyEvent>): seq<KeyEvent> {
    if events == [] then []
    else
      WithoutEvictions(events[..|events| - 1])
      + (if events[|events| - 1].Request? then [events[|events| - 1]] else [])
  }

  /** Sweeping runs ahead: whatever the unswept bucket holds beyond the swept one has already been allowed there. */
  ghost predicate Ahead(l: Limits, swept: Option<Bucket>, plain: Option<Bucket>, lead: int, now: real) {
    && lead >= 0 && Settled(l, swept, now) && Settled(l, plain, now)
    && Available(l, plain, now) - Available(l, swept, now) <= lead as real
  }

  lemma AheadLater(l: Limits, swept: Option<Bucket>, plain: Option<Bucket>, lead: int, t: real, u: real)
    requires l.Usable() && t <= u && Ahead(l, swept, plain, lead, t)
    ensures Ahead(l, swept, plain, lead, u)
  {
    RefillIsLinear(l, swept, t, u);
    RefillIsLinear(l, plain, t, u);
  }

  lemma AheadAfterRequest(l: Limits, swept: Option<Bucket>, plain: Option<Bucket>, lead: int, now: real)
    requires l.Usable() && Ahead(l, swept, plain, lead, now)
    ensures var (s, a), (p, b) := Charge(l, swept, now), Charge(l, plain, now);
            Ahead(l, Some(s), Some(p), lead + (if a.Allow? then 1 else 0) - (if b.Allow? then 1 else 0), now)
  {
    RefillIsLinear(l, swept, now, now);
    RefillIsLinear(l, plain, now, now);
  }

  /** How many more requests the run with sweeps has let through. */
  function Lead(l: Limits, entry: Option<Bucket>, events: seq<KeyEvent>, plain: seq<KeyEvent>): int
    requires l.Usable()
  {
    Allowed(l, entry, events) - Allowed(l, entry, plain)
  }

  ghost predicate RunsAhead(l: Limits, entry: Option<Bucket>, events: seq<KeyEvent>, plain: seq<KeyEvent>, now: real)
    requires l.Usable()
  {
    Ahead(l, KeyRun(l, entry, events), KeyRun(l, entry, plain), Lead(l, entry, events, plain), now)
  }

  lemma RunsAheadAfterRequest(l: Limits, entry: Option<Bucket>, events: seq<KeyEvent>, plain: seq<KeyEvent>, now: real)
    requires l.Usable() && RunsAhead(l, entry, events, plain, now)
    ensures RunsAhead(l, entry, events + [Request(now)], plain + [Request(now)], now)
  {
    AllowedAfterRequest(l, entry, events, now);
    AllowedAfterRequest(l, entry, plain, now);
    AheadAfterRequest(l, KeyRun(l, entry, events), KeyRun(l, entry, plain), Lead(l, entry, events, plain), now);
  }

  lemma AllowedAfterRequest(l: Limits, entry: Option<Bucket>, events: seq<KeyEvent>, now: real)
    requires l.Usable()
    ensures var (bucket, answer) := Charge(l, KeyRun(l, entry, events), now);
            && KeyRun(l, entry, events + [Request(now)]) == Some(bucket)
            && Allowed(l, entry, events + [Request(now)]) == Allowed(l, entry, events) + (if answer.Allow? then 1 else 0)
  {
    var answers := KeyAnswer(l, KeyRun(l, entry, events), Request(now));
    KeyRunStep(l, entry, events, Request(now));
    CountAllowedConcat(KeyAnswers(l, entry, events), answers);
    OneAnswer(answers);
  }

  lemma RunsAheadAfterSweep(l: Limits, entry: Option<Bucket>, events: seq<KeyEvent>, plain: seq<KeyEvent>, now: real)
    requires l.Usable() && RunsAhead(l, entry, events, plain, now)
    ensures RunsAhead(l, entry, events + [Evict(now)], plain, now)
  {
    KeyRunStep(l, entry, events, Evict(now));
    assert KeyAnswers(l, entry, events) + [] == KeyAnswers(l, entry, events);
    RefillIsLinear(l, KeyRun(l, entry, plain), now, now);
  }

  lemma {:induction false} SweptRunStaysAhead(l: Limits, entry: Option<Bucket>, events: seq<KeyEvent>, from: real, to: real)
    requires l.Usable() && Timed(events, from, to) && Settled(l, entry, from)
    ensures RunsAhead(l, entry, events, WithoutEvictions(events), Later(events, from))
  {
    if events != [] {
      var front, last := events[..|events| - 1], events[|events| - 1];
      TimedPrefix(events, from, to);
      SweptRunStaysAhead(l, entry, front, from, last.now);
      RunsAheadAfter(l, entry, front, WithoutEvictions(front), Later(front, from), last);
      assert events == front + [last];
    }
  }

  lemma RunsAheadAfter(l: Limits, entry: Option<Bucket>, events: seq<KeyEvent>, plain: seq<KeyEvent>, t: real, e: KeyEvent)
    requires l.Usable() && RunsAhead(l, entry, events, plain, t) && t <= e.now
    ensures RunsAhead(l, entry, events + [e], plain + (if e.Request? then [e] else []), e.now)
  {
    AheadLater(l, KeyRun(l, entry, events), KeyRun(l, entry, plain), Lead(l, entry, events, plain), t, e.now);
    assert plain + [] == plain;
    match e
    case Request(now) => RunsAheadAfterRequest(l, entry, events, plain, now);
    case Evict(now) => RunsAheadAfterSweep(l, entry, events, plain, now);
  }

  /** Over any run a key is allowed at least as many requests with the sweeps as without them. */
  lemma SweepingNeverPunishes(l: Limits, entry: Option<Bucket>, events: seq<KeyEvent>, from: real, to: real)
    requires l.Usable() && Timed(events, from, to) && Settled(l, entry, from)
    ensures CountAllowed(KeyAnswers(l, entry, events)) >= CountAllowed(KeyAnswers(l, entry, WithoutEvictions(events)))
  {
    SweptRunStaysAhead(l, entry, events, from, to);
  }

  lemma SameAllowanceSameAnswer(l: Limits, a: Option<Bucket>, b: Option<Bucket>, now: real)
    requires l.Usable() && Available(l, a, now) == Available(l, b, now)
    ensures Charge(l, a, now) == Charge(l, b, now)
  {
  }

  ghost predicate Alike(l: Limits, swept: Option<Bucket>, plain: Option<Bucket>, now: real) {
    Settled(l, swept, now) && Settled(l, plain, now) && Available(l, swept, now) == Available(l, plain, now)
  }

  lemma AlikeLater(l: Limits, swept: Option<Bucket>, plain: Option<Bucket>, t: real, u: real)
    requires l.Usable() && t <= u && Alike(l, swept, plain, t)
    ensures Alike(l, swept, plain, u)
  {
    RefillIsLinear(l, swept, t, u);
    RefillIsLinear(l, plain, t, u);
  }

  lemma AlikeAfter(l: Limits, swept: Option<Bucket>, plain: Option<Bucket>, e: KeyEvent)
    requires l.Usable() && Alike(l, swept, plain, e.now) && l.RefillsBeforeEviction()
    ensures e.Request? ==> Alike(l, KeyStep(l, swept, e), KeyStep(l, plain, e), e.now)
                           && KeyAnswer(l, swept, e) == KeyAnswer(l, plain, e)
    ensures e.Evict? ==> Alike(l, KeyStep(l, swept, e), plain, e.now) && KeyAnswer(l, swept, e) == []
  {
    StepConserves(l, swept, e);
    if e.Request? { SameAllowanceSameAnswer(l, swept, plain, e.now); }
  }

  /** When a bucket refills within the idle time, sweeping changes no answer at all, retry times included. */
  lemma {:induction false} SweepingIsInvisible(l: Limits, entry: Option<Bucket>, events: seq<KeyEvent>, from: real, to: real)
    requires l.Usable() && Timed(events, from, to) && Settled(l, entry, from) && l.RefillsBeforeEviction()
    ensures Alike(l, KeyRun(l, entry, events), KeyRun(l, entry, WithoutEvictions(events)), Later(events, from))
    ensures KeyAnswers(l, entry, events) == KeyAnswers(l, entry, WithoutEvictions(events))
  {
    if events != [] {
      var front, last := events[..|events| - 1], events[|events| - 1];
      var plain := WithoutEvictions(front);
      TimedPrefix(events, from, to);
      SweepingIsInvisible(l, entry, front, from, last.now);
      AlikeLater(l, KeyRun(l, entry, front), KeyRun(l, entry, plain), Later(front, from), last.now);
      AlikeAfter(l, KeyRun(l, entry, front), KeyRun(l, entry, plain), last);
      KeyRunStep(l, entry, plain, last);
      assert plain + [] == plain;
    }
  }

  // ---- Retry-After ----

  /** The wait asked for covers the deficit, and one second less does not unless it is the minimum. */
  lemma RetryCoversDeficit(l: Limits, available: real)
    requires l.Usable() && available < 1.0
    ensures var r := RetryAfter(l, available);
            && r >= 1
            && available + r as real * l.perSecond >= 1.0
            && (r > 1 ==> available + (r - 1) as real * l.perSecond < 1.0)
  {
    var wait := (1.0 - available) / l.perSecond;
    CeilBounds(wait);
    DivideThenTimes(1.0 - available, l.perSecond);
    WaitBounds(1.0 - available, wait, RetryAfter(l, available), l.perSecond);
  }

  lemma WaitBounds(deficit: real, wait: real, r: int, rate: real)
    requires rate > 0.0 && wait * rate == deficit
    requires wait <= r as real && (r > 1 ==> (r - 1) as real < wait)
    ensures deficit <= r as real * rate
    ensures r > 1 ==> (r - 1) as real * rate < deficit
  {
    TimesRate(wait, r as real, rate);
    if r > 1 { LessTimesRate((r - 1) as real, wait, rate); }
  }

  lemma LessTimesRate(x: real, y: real, rate: real)
    requires x < y && rate > 0.0
    ensures x * rate < y * rate
  {
    assert (y - x) * rate > 0.0;
    assert (y - x) * rate == y * rate - x * rate;
  }

  ghost predicate AllDenied(answers: seq<Decision>) {
    forall a :: a in answers ==> a.Deny?
  }

  /** What polling from `from` on leaves at `to`: at least the refill, and just that when nothing was swept. */
  predicate KeepsUp(l: Limits, entry: Option<Bucket>, from: real, after: Option<Bucket>, to: real, swept: bool) {
    var refilled := Min(Available(l, entry, from) + (to - from) * l.perSecond, l.burst as real);
    && Settled(l, after, to)
    && Available(l, after, to) >= refilled
    && (!swept ==> Available(l, after, to) == refilled)
  }

  lemma KeepsUpLater(l: Limits, entry: Option<Bucket>, from: real, after: Option<Bucket>, t: real, to: real, swept: bool)
    requires l.Usable() && from <= t <= to && Settled(l, after, t) && KeepsUp(l, entry, from, after, t, swept)
    ensures KeepsUp(l, entry, from, after, to, swept)
  {
    RefillIsLinear(l, after, t, to);
    NonNegative(to - t, l.perSecond);
    Distribute(t - from, to - t, l.perSecond);
    CappedSums(Available(l, entry, from), (t - from) * l.perSecond, (to - t) * l.perSecond, Available(l, after, t), l.burst as real);
    assert to - from == (t - from) + (to - t);
  }

  /** Refilling in two stretches, capped after each, is refilling in one. */
  lemma CappedSums(start: real, x: real, y: real, mid: real, cap: real)
    requires y >= 0.0 && mid >= Min(start + x, cap)
    ensures Min(mid + y, cap) >= Min(start + (x + y), cap)
    ensures mid == Min(start + x, cap) ==> Min(mid + y, cap) == Min(start + (x + y), cap)
  {
  }

  lemma KeepsUpAfter(l: Limits, entry: Option<Bucket>, from: real, before: Option<Bucket>, e: KeyEvent, swept: bool)
    requires l.Usable() && KeepsUp(l, entry, from, before, e.now, swept)
    requires AllDenied(KeyAnswer(l, before, e))
    ensures KeepsUp(l, entry, from, KeyStep(l, before, e), e.now, swept || e.Evict?)
  {
    RefillIsLinear(l, before, e.now, e.now);
    if e.Request? {
      assert KeyAnswer(l, before, e)[0].Deny?;
    }
    RefillIsLinear(l, KeyStep(l, before, e), e.now, e.now);
  }

  lemma AllDeniedSplit(a: seq<Decision>, b: seq<Decision>)
    requires AllDenied(a + b)
    ensures AllDenied(a) && AllDenied(b)
  {
    assert forall x :: x in a ==> x in a + b;
    assert forall x :: x in b ==> x in a + b;
  }

  lemma FrontOfRequests(events: seq<KeyEvent>)
    requires events != []
    ensures NoEvictions(events) <==> NoEvictions(events[..|events| - 1]) && events[|events| - 1].Request?
  {
    assert events == events[..|events| - 1] + [events[|events| - 1]];
  }

  /** Denied requests cost nothing, and sweeps only help: the allowance keeps up with the refill. */
  lemma {:induction false} PollingIsFree(l: Limits, entry: Option<Bucket>, polls: seq<KeyEvent>, from: real, to: real)
    requires l.Usable() && Timed(polls, from, to) && Settled(l, entry, from)
    requires AllDenied(KeyAnswers(l, entry, polls))
    ensures KeepsUp(l, entry, from, KeyRun(l, entry, polls), to, !NoEvictions(polls))
  {
    if polls == [] {
      RefillIsLinear(l, entry, from, to);
    } else {
      var front, last := polls[..|polls| - 1], polls[|polls| - 1];
      var before, t, swept := KeyRun(l, entry, front), last.now, !NoEvictions(front);
      TimedPrefix(polls, from, to);
      FrontOfRequests(polls);
      AllDeniedSplit(KeyAnswers(l, entry, front), KeyAnswer(l, before, last));
      PollingIsFree(l, entry, front, from, t);
      KeepsUpAfter(l, entry, from, before, last, swept);
      KeepsUpLater(l, entry, from, KeyStep(l, before, last), t, to, swept || last.Evict?);
    }
  }

  lemma {:induction false} EarlyPollsAreDenied(l: Limits, entry: Option<Bucket>, polls: seq<KeyEvent>, from: real, to: real)
    requires l.Usable() && Timed(polls, from, to) && Settled(l, entry, from) && NoEvictions(polls)
    requires TooSoon(l, entry, from, to)
    ensures AllDenied(KeyAnswers(l, entry, polls))
  {
    if polls != [] {
      var front, last := polls[..|polls| - 1], polls[|polls| - 1];
      TimedPrefix(polls, from, to);
      FrontOfRequests(polls);
      TooSoonBefore(l, entry, from, last.now, to);
      EarlyPollsAreDenied(l, entry, front, from, last.now);
      TooEarlyIsDenied(l, entry, front, from, last.now);
      DeniedMore(KeyAnswers(l, entry, front), KeyAnswer(l, KeyRun(l, entry, front), last));
    }
  }

  /** Refilling until `to` does not make up a whole token. */
  predicate TooSoon(l: Limits, entry: Option<Bucket>, from: real, to: real) {
    Available(l, entry, from) + (to - from) * l.perSecond < 1.0
  }

  lemma TooSoonBefore(l: Limits, entry: Option<Bucket>, from: real, t: real, to: real)
    requires l.Usable() && t <= to && TooSoon(l, entry, from, to)
    ensures TooSoon(l, entry, from, t)
  {
    TimesRate(t - from, to - from, l.perSecond);
  }

  lemma DeniedMore(a: seq<Decision>, b: seq<Decision>)
    requires AllDenied(a) && |b| == 1 && b[0].Deny?
    ensures AllDenied(a + b)
  {
  }

  lemma TooEarlyIsDenied(l: Limits, entry: Option<Bucket>, polls: seq<KeyEvent>, from: real, now: real)
    requires l.Usable() && Timed(polls, from, now) && Settled(l, entry, from) && NoEvictions(polls)
    requires AllDenied(KeyAnswers(l, entry, polls))
    requires TooSoon(l, entry, from, now)
    ensures Charge(l, KeyRun(l, entry, polls), now).1.Deny?
  {
    PollingIsFree(l, entry, polls, from, now);
  }

  /** The bucket a denial leaves, and the wait it asks for. */
  ghost predicate DeniedAt(l: Limits, bucket: Option<Bucket>, now: real, r: int)
    requires l.Usable()
  {
    exists entry :: Settled(l, entry, now) && Charge(l, entry, now).1 == Deny(r) && bucket == Some(Charge(l, entry, now).0)
  }

  lemma DenialLeaves(l: Limits, bucket: Option<Bucket>, now: real, r: int)
    requires l.Usable() && DeniedAt(l, bucket, now, r)
    ensures Settled(l, bucket, now) && Available(l, bucket, now) < 1.0 && r == RetryAfter(l, Available(l, bucket, now))
  {
    var entry :| Settled(l, entry, now) && Charge(l, entry, now).1 == Deny(r) && bucket == Some(Charge(l, entry, now).0);
    RefillIsLinear(l, entry, now, now);
    RefillIsLinear(l, bucket, now, now);
  }

  lemma WaitedEnough(l: Limits, entry: Option<Bucket>, polls: seq<KeyEvent>, from: real, now: real)
    requires l.Usable() && Timed(polls, from, now) && Settled(l, entry, from)
    requires AllDenied(KeyAnswers(l, entry, polls))
    requires !TooSoon(l, entry, from, now)
    ensures Charge(l, KeyRun(l, entry, polls), now).1.Allow?
  {
    PollingIsFree(l, entry, polls, from, now);
  }

  lemma AfterWaiting(l: Limits, entry: Option<Bucket>, now: real, secs: int, later: real)
    requires later == now + secs as real
    ensures TooSoon(l, entry, now, later) <==> Available(l, entry, now) + secs as real * l.perSecond < 1.0
  {
    SameRefill(later - now, secs as real, l.perSecond);
  }

  /** Retry-After is sound however often the caller polls: after a denial asking for r seconds, a request r seconds
      later is allowed if every one in between was denied, sweeps or not; and r is at least 1. */
  lemma RetryAfterIsSound(l: Limits, bucket: Option<Bucket>, now: real, r: int, polls: seq<KeyEvent>)
    requires l.Usable() && DeniedAt(l, bucket, now, r)
    requires Timed(polls, now, now + r as real) && AllDenied(KeyAnswers(l, bucket, polls))
    ensures r >= 1 && Charge(l, KeyRun(l, bucket, polls), now + r as real).1.Allow?
  {
    DenialLeaves(l, bucket, now, r);
    RetryCoversDeficit(l, Available(l, bucket, now));
    var later := now + r as real;
    AfterWaiting(l, bucket, now, r, later);
    WaitedEnough(l, bucket, polls, now, later);
  }

  /** Retry-After is tight: unless it is the minimum, everyone who comes up to a second early is still denied. */
  lemma RetryAfterIsTight(l: Limits, bucket: Option<Bucket>, now: real, r: int, polls: seq<KeyEvent>)
    requires l.Usable() && DeniedAt(l, bucket, now, r) && r > 1
    requires Timed(polls, now, now + (r - 1) as real) && NoEvictions(polls)
    ensures AllDenied(KeyAnswers(l, bucket, polls))
    ensures Charge(l, KeyRun(l, bucket, polls), now + (r - 1) as real).1.Deny?
  {
    DenialLeaves(l, bucket, now, r);
    RetryCoversDeficit(l, Available(l, bucket, now));
    var early := now + (r - 1) as real;
    AfterWaiting(l, bucket, now, r - 1, early);
    EarlyPollsAreDenied(l, bucket, polls, now, early);
    TooEarlyIsDenied(l, bucket, polls, now, early);
  }
}
