/**
 The keyed rate limiter: one lazily refilled token bucket for each key, and a janitor that
 forgets idle keys. Tokens and times (in seconds) are real numbers.
 */
module KeyedLimiter {
  import opened Basics

  /** A limiter's settings. */
  datatype Config = Config(count: int, interval: real)

  /** Settings with a positive interval, for which limits mean something. */
  type Limits = c: Config | c.interval > 0.0 witness Config(1, 1.0)

  datatype Bucket = Bucket(tokens: real, lastFill: real, lastSeen: real)

  function Min(x: real, y: real): real {
    if x < y then x else y
  }

  /** The tokens that `elapsed` seconds add. */
  function Added(c: Config, elapsed: real): real
    requires c.interval != 0.0
  {
    elapsed / c.interval * c.count as real
  }

  /**
   The tokens after a refill. Over a zero interval the program adds an infinity, or no number at
   all when the count is zero; either way it then answers as with a bucket of `count` tokens.
   */
  function Filled(c: Config, tokens: real, elapsed: real): real {
    if c.interval == 0.0 then c.count as real else Min(c.count as real, tokens + Added(c, elapsed))
  }

  /** The tokens in a bucket once it is refilled at `now`; an absent bucket is full. */
  function Level(c: Config, b: Option<Bucket>, now: real): real {
    match b
    case None => c.count as real
    case Some(b) =>
      if now > b.lastFill then Filled(c, b.tokens, now - b.lastFill) else b.tokens
  }

  function Refilled(c: Config, b: Option<Bucket>, now: real): Bucket {
    Bucket(Level(c, b, now), if b.Some? && now <= b.value.lastFill then b.value.lastFill else now, now)
  }

  function Taken(c: Config, b: Option<Bucket>, now: real): Bucket {
    var r := Refilled(c, b, now);
    if r.tokens >= 1.0 then r.(tokens := r.tokens - 1.0) else r
  }

  function Lookup(buckets: map<string, Bucket>, key: string): Option<Bucket> {
    if key in buckets then Some(buckets[key]) else None
  }

  /** The idle time after which the janitor forgets a bucket. */
  function TimeToLive(c: Config): real {
    if c.interval < 60.0 then 60.0 else c.interval
  }

  function Swept(c: Config, buckets: map<string, Bucket>, now: real): map<string, Bucket> {
    map key | key in buckets && !(now - buckets[key].lastSeen > TimeToLive(c)) :: buckets[key]
  }

  class Limiter {
    const limits: Config
    var buckets: map<string, Bucket>

    constructor (count: int, interval: real)
      ensures limits == Config(count, interval) && buckets == map[]
    {
      limits := Config(count, interval);
      buckets := map[];
    }

    method Refill(key: string, now: real) returns (b: Bucket)
      modifies this
      ensures b == Refilled(limits, Lookup(old(buckets), key), now)
      ensures buckets == old(buckets)[key := b]
    {
      if key in buckets {
        b := buckets[key];
      } else {
        b := Bucket(limits.count as real, now, now);
      }
      var elapsed := now - b.lastFill;
      if elapsed > 0.0 {
        if limits.interval == 0.0 {
          b := b.(tokens := limits.count as real, lastFill := now);
        } else {
          var added := elapsed / limits.interval * limits.count as real;
          b := b.(tokens := Min(limits.count as real, b.tokens + added), lastFill := now);
        }
      }
      b := b.(lastSeen := now);
      buckets := buckets[key := b];
    }

    method Take(key: string, now: real) returns (ok: bool)
      modifies this
      ensures ok == (Level(limits, Lookup(old(buckets), key), now) >= 1.0)
      ensures buckets == old(buckets)[key := Taken(limits, Lookup(old(buckets), key), now)]
    {
      var b := Refill(key, now);
      if b.tokens >= 1.0 {
        b := b.(tokens := b.tokens - 1.0);
        buckets := buckets[key := b];
        return true;
      }
      return false;
    }

    method IsLimited(key: string, now: real) returns (limited: bool)
      modifies this
      ensures limited == !(Level(limits, Lookup(old(buckets), key), now) >= 1.0)
      ensures buckets == old(buckets)[key := Refilled(limits, Lookup(old(buckets), key), now)]
    {
      var b := Refill(key, now);
      limited := !(b.tokens >= 1.0);
    }

    /** One tick of the janitor. */
    method Sweep(now: real)
      modifies this
      ensures buckets == Swept(limits, old(buckets), now)
    {
      var ttl := limits.interval;
      if ttl < 60.0 {
        ttl := 60.0;
      }
      var left := buckets.Keys;
      while left != {}
        invariant left <= buckets.Keys <= old(buckets).Keys
        invariant forall key :: key in left ==> buckets[key] == old(buckets)[key]
        invariant forall key :: key in old(buckets) && key !in left ==>
          (key in buckets <==> key in Swept(limits, old(buckets), now))
        invariant forall key :: key in buckets ==> buckets[key] == old(buckets)[key]
        decreases left
      {
        var key :| key in left;
        if now - buckets[key].lastSeen > ttl {
          buckets := buckets - {key};
        }
        left := left - {key};
      }
      assert buckets.Keys == Swept(limits, old(buckets), now).Keys;
    }
  }

  // ---------------------------------------------------------------------------------------
  // Runs

  /** What happens to a limiter, in the order of its lock. */
  datatype Event = Take(key: string, now: real) | Query(key: string, now: real) | Sweep(now: real)

  function Next(c: Limits, buckets: map<string, Bucket>, e: Event): map<string, Bucket> {
    match e
    case Take(key, now) => buckets[key := Taken(c, Lookup(buckets, key), now)]
    case Query(key, now) => buckets[key := Refilled(c, Lookup(buckets, key), now)]
    case Sweep(now) => Swept(c, buckets, now)
  }

  predicate TakesFrom(e: Event, key: string) {
    e.Take? && e.key == key
  }

  /** The answers to the Takes of one key in a run of the limiter. */
  function Answers(c: Limits, buckets: map<string, Bucket>, events: seq<Event>, key: string): seq<bool>
    decreases events
  {
    if events == [] then []
    else
      var e := events[0];
      (if TakesFrom(e, key) then [Level(c, Lookup(buckets, key), e.now) >= 1.0] else []) +
      Answers(c, Next(c, buckets, e), events[1..], key)
  }

  /** The times of the Takes of one key. */
  function TakeTimes(events: seq<Event>, key: string): seq<real> {
    if events == [] then []
    else (if TakesFrom(events[0], key) then [events[0].now] else []) + TakeTimes(events[1..], key)
  }

  ghost predicate Ordered(events: seq<Event>) {
    forall i, j :: 0 <= i < j < |events| ==> events[i].now <= events[j].now
  }

  /** A bucket that is never forgotten and sees only Takes: its tokens, last counted at `at`. */
  datatype Ideal = Full | Ideal(tokens: real, at: real)

  function IdealLevel(c: Limits, b: Ideal, now: real): real {
    match b
    case Full => c.count as real
    case Ideal(tokens, at) => Min(c.count as real, tokens + Added(c, now - at))
  }

  function IdealTake(c: Limits, b: Ideal, now: real): Ideal {
    var level := IdealLevel(c, b, now);
    Ideal(if level >= 1.0 then level - 1.0 else level, now)
  }

  /** The answers of the ideal bucket to Takes at the given times. */
  function IdealAnswers(c: Limits, b: Ideal, times: seq<real>): seq<bool>
    decreases times
  {
    if times == [] then []
    else [IdealLevel(c, b, times[0]) >= 1.0] + IdealAnswers(c, IdealTake(c, b, times[0]), times[1..])
  }

  // ---------------------------------------------------------------------------------------
  // Arithmetic of refills

  lemma AddedSplits(c: Limits, x: real, y: real)
    ensures Added(c, x + y) == Added(c, x) + Added(c, y)
  {
    assert (x + y) / c.interval == x / c.interval + y / c.interval;
  }

  lemma AddedGrows(c: Limits, x: real, y: real)
    requires c.count >= 0 && x <= y
    ensures Added(c, x) <= Added(c, y)
  {
    AddedSplits(c, x, y - x);
    assert (y - x) / c.interval >= 0.0;
  }

  lemma AddedInterval(c: Limits)
    ensures Added(c, c.interval) == c.count as real && Added(c, 0.0) == 0.0
  {
  }

  /** Refilling at one time and then at a later one is refilling at the later one. */
  lemma RefillTwice(c: Limits, b: Option<Bucket>, t1: real, t2: real)
    requires c.count >= 0 && t1 <= t2
    requires b.Some? ==> b.value.lastFill <= t1 && b.value.tokens <= c.count as real
    ensures Level(c, Some(Refilled(c, b, t1)), t2) == Level(c, b, t2)
  {
    AddedInterval(c);
    AddedGrows(c, 0.0, t2 - t1);
    if b.Some? {
      AddedSplits(c, t1 - b.value.lastFill, t2 - t1);
    }
  }

  // ---------------------------------------------------------------------------------------
  // Forgetting is invisible

  /** A bucket as a run in lock order leaves it, at time `now`. */
  predicate WellKept(c: Limits, b: Option<Bucket>, now: real) {
    b.Some? ==>
      && b.value.lastFill == b.value.lastSeen <= now
      && b.value.tokens <= c.count as real
      && (c.count >= 0 ==> b.value.tokens >= 0.0)
  }

  predicate IdealKept(c: Limits, b: Ideal, now: real) {
    b.Ideal? ==> b.at <= now && b.tokens <= c.count as real && (c.count >= 0 ==> b.tokens >= 0.0)
  }

  /** From `now` on the two buckets hold the same tokens, if they can hold any. */
  ghost predicate Similar(c: Limits, b: Option<Bucket>, i: Ideal, now: real) {
    && WellKept(c, b, now)
    && IdealKept(c, i, now)
    && (c.count >= 0 ==> forall t :: t >= now ==> Level(c, b, t) == IdealLevel(c, i, t))
  }

  lemma KeptAfterTouch(c: Limits, b: Option<Bucket>, now: real)
    requires WellKept(c, b, now)
    ensures WellKept(c, Some(Refilled(c, b, now)), now) && WellKept(c, Some(Taken(c, b, now)), now)
  {
    AddedInterval(c);
    if b.Some? && c.count >= 0 {
      AddedGrows(c, 0.0, now - b.value.lastFill);
    }
  }

  lemma TakeKeepsSimilar(c: Limits, b: Option<Bucket>, i: Ideal, before: real, now: real)
    requires Similar(c, b, i, before) && before <= now
    ensures Similar(c, Some(Taken(c, b, now)), IdealTake(c, i, now), now)
  {
    KeptAfterTouch(c, b, now);
    AddedInterval(c);
    if i.Ideal? && c.count >= 0 {
      AddedGrows(c, 0.0, now - i.at);
    }
    if c.count >= 0 {
      assert Level(c, b, now) == IdealLevel(c, i, now);
      forall t | t >= now
        ensures Level(c, Some(Taken(c, b, now)), t) == IdealLevel(c, IdealTake(c, i, now), t)
      {
      }
    }
  }

  lemma QueryKeepsSimilar(c: Limits, b: Option<Bucket>, i: Ideal, before: real, now: real)
    requires Similar(c, b, i, before) && before <= now
    ensures Similar(c, Some(Refilled(c, b, now)), i, now)
  {
    KeptAfterTouch(c, b, now);
    if c.count >= 0 {
      forall t | t >= now
        ensures Level(c, Some(Refilled(c, b, now)), t) == IdealLevel(c, i, t)
      {
        RefillTwice(c, b, now, t);
      }
    }
  }

  /** A bucket that may be forgotten is already full, and stays so. */
  lemma ForgottenIsFull(c: Limits, b: Bucket, now: real, t: real)
    requires WellKept(c, Some(b), now) && c.count >= 0 && now - b.lastSeen > TimeToLive(c) && t >= now
    ensures Level(c, Some(b), t) == c.count as real
  {
    AddedInterval(c);
    AddedGrows(c, c.interval, t - b.lastFill);
  }

  lemma SweepKeepsSimilar(c: Limits, buckets: map<string, Bucket>, key: string, i: Ideal, before: real, now: real)
    requires Similar(c, Lookup(buckets, key), i, before) && before <= now
    ensures Similar(c, Lookup(Swept(c, buckets, now), key), i, now)
  {
    if key in buckets && key !in Swept(c, buckets, now) && c.count >= 0 {
      forall t | t >= now
        ensures c.count as real == IdealLevel(c, i, t)
      {
        ForgottenIsFull(c, buckets[key], now, t);
      }
    }
  }

  lemma SimilarAnswersAlike(c: Limits, b: Option<Bucket>, i: Ideal, before: real, now: real)
    requires Similar(c, b, i, before) && before <= now
    ensures Level(c, b, now) >= 1.0 <==> IdealLevel(c, i, now) >= 1.0
  {
  }

  /** One event keeps the bucket similar to the ideal one, which only Takes of its key change. */
  lemma EventKeepsSimilar(c: Limits, buckets: map<string, Bucket>, i: Ideal, e: Event, key: string, before: real)
    requires Similar(c, Lookup(buckets, key), i, before) && before <= e.now
    ensures Similar(c, Lookup(Next(c, buckets, e), key), if TakesFrom(e, key) then IdealTake(c, i, e.now) else i, e.now)
  {
    if TakesFrom(e, key) {
      TakeKeepsSimilar(c, Lookup(buckets, key), i, before, e.now);
    } else if e.Sweep? {
      SweepKeepsSimilar(c, buckets, key, i, before, e.now);
    } else if e.key == key {
      QueryKeepsSimilar(c, Lookup(buckets, key), i, before, e.now);
    } else {
      OtherKeyKeepsSimilar(c, Lookup(buckets, key), i, before, e.now);
    }
  }

  lemma OtherKeyKeepsSimilar(c: Limits, b: Option<Bucket>, i: Ideal, before: real, now: real)
    requires Similar(c, b, i, before) && before <= now
    ensures Similar(c, b, i, now)
  {
  }

  lemma {:induction false} SimilarRunsAnswerAlike(
      c: Limits, buckets: map<string, Bucket>, i: Ideal, events: seq<Event>, key: string, before: real)
    requires Ordered(events) && (events != [] ==> before <= events[0].now)
    requires Similar(c, Lookup(buckets, key), i, before)
    ensures Answers(c, buckets, events, key) == IdealAnswers(c, i, TakeTimes(events, key))
    decreases events
  {
    if events != [] {
      var e, rest := events[0], events[1..];
      var times := TakeTimes(rest, key);
      EventKeepsSimilar(c, buckets, i, e, key, before);
      if TakesFrom(e, key) {
        SimilarAnswersAlike(c, Lookup(buckets, key), i, before, e.now);
        assert ([e.now] + times)[1..] == times;
        SimilarRunsAnswerAlike(c, Next(c, buckets, e), IdealTake(c, i, e.now), rest, key, e.now);
      } else {
        assert [] + times == times;
        SimilarRunsAnswerAlike(c, Next(c, buckets, e), i, rest, key, e.now);
      }
    }
  }

  /**
   Forgetting is invisible: with times in lock order, any sweeps, any queries and any traffic
   on other keys, the Takes of a key are answered as by a bucket of its own that never forgets.
   */
  lemma ForgettingIsInvisible(c: Limits, events: seq<Event>, key: string)
    requires Ordered(events)
    ensures Answers(c, map[], events, key) == IdealAnswers(c, Full, TakeTimes(events, key))
  {
    if events != [] {
      SimilarRunsAnswerAlike(c, map[], Full, events, key, events[0].now);
    }
  }

  // ---------------------------------------------------------------------------------------
  // Admission

  /** The Takes admitted at times from `s` to `t`. */
  function Admitted(times: seq<real>, answers: seq<bool>, s: real, t: real): nat
    requires |times| == |answers|
  {
    if times == [] then 0
    else (if answers[0] && s <= times[0] <= t then 1 else 0) + Admitted(times[1..], answers[1..], s, t)
  }

  ghost predicate Sorted(times: seq<real>) {
    forall i, j :: 0 <= i < j < |times| ==> times[i] <= times[j]
  }

  lemma {:induction false} IdealAnswersLength(c: Limits, b: Ideal, times: seq<real>)
    ensures |IdealAnswers(c, b, times)| == |times|
    decreases times
  {
    if times != [] {
      IdealAnswersLength(c, IdealTake(c, b, times[0]), times[1..]);
    }
  }

  lemma {:induction false} TakeTimesAreEventTimes(events: seq<Event>, key: string, x: real) returns (i: nat)
    requires x in TakeTimes(events, key)
    ensures i < |events| && events[i].now == x
  {
    if TakesFrom(events[0], key) && x == events[0].now {
      i := 0;
    } else {
      i := TakeTimesAreEventTimes(events[1..], key, x);
      i := i + 1;
    }
  }

  lemma OrderedTail(events: seq<Event>)
    requires Ordered(events) && events != []
    ensures Ordered(events[1..]) && forall i :: 0 <= i < |events[1..]| ==> events[0].now <= events[1..][i].now
  {
  }

  lemma {:induction false} TakeTimesAreSorted(events: seq<Event>, key: string)
    requires Ordered(events)
    ensures Sorted(TakeTimes(events, key))
  {
    if events != [] {
      var times := TakeTimes(events[1..], key);
      OrderedTail(events);
      TakeTimesAreSorted(events[1..], key);
      forall i | 0 <= i < |times|
        ensures events[0].now <= times[i]
      {
        var j := TakeTimesAreEventTimes(events[1..], key, times[i]);
      }
    }
  }

  lemma IdealKeptAfterTake(c: Limits, b: Ideal, before: real, now: real)
    requires c.count >= 0 && IdealKept(c, b, before) && before <= now
    ensures IdealKept(c, IdealTake(c, b, now), now) && IdealLevel(c, b, now) >= 0.0
  {
    AddedInterval(c);
    if b.Ideal? {
      AddedGrows(c, 0.0, now - b.at);
    }
  }

  /** A bucket gains at most what is added in between. */
  lemma LevelGrowsAtMost(c: Limits, b: Ideal, x: real, y: real)
    requires c.count >= 0 && x <= y
    ensures IdealLevel(c, b, y) <= IdealLevel(c, b, x) + Added(c, y - x)
  {
    AddedInterval(c);
    AddedGrows(c, 0.0, y - x);
    if b.Ideal? {
      AddedSplits(c, x - b.at, y - x);
    }
  }

  lemma TakingLowersTheLevel(c: Limits, b: Ideal, before: real, x: real, y: real)
    requires c.count >= 0 && before <= x <= y && IdealKept(c, b, before)
    ensures IdealLevel(c, IdealTake(c, b, x), y) <= IdealLevel(c, b, y)
  {
    AddedInterval(c);
    AddedGrows(c, 0.0, y - x);
    if b.Ideal? {
      AddedSplits(c, x - b.at, y - x);
    }
  }

  /** From `from` to `t` an ideal bucket admits at most what it holds at `from` and what is added later. */
  lemma {:induction false} IdealAdmitsAtMost(
      c: Limits, b: Ideal, times: seq<real>, before: real, from: real, s: real, t: real)
    requires c.count >= 0 && Sorted(times) && IdealKept(c, b, before) && (times != [] ==> before <= times[0])
    requires from == (if s < before then before else s) && from <= t
    ensures |IdealAnswers(c, b, times)| == |times|
    ensures Admitted(times, IdealAnswers(c, b, times), s, t) as real <= IdealLevel(c, b, from) + Added(c, t - from)
    decreases times
  {
    IdealAnswersLength(c, b, times);
    AddedInterval(c);
    AddedGrows(c, 0.0, t - from);
    IdealKeptAfterTake(c, b, before, from);
    if times != [] {
      var x, next := times[0], IdealTake(c, b, times[0]);
      IdealKeptAfterTake(c, b, before, x);
      assert IdealAnswers(c, b, times)[1..] == IdealAnswers(c, next, times[1..]);
      if x > t {
        NoneAdmittedAfter(times, IdealAnswers(c, b, times), s, t);
      } else if x < s {
        IdealAdmitsAtMost(c, next, times[1..], x, s, s, t);
        TakingLowersTheLevel(c, b, before, x, s);
      } else {
        IdealAdmitsAtMost(c, next, times[1..], x, x, s, t);
        LevelGrowsAtMost(c, b, from, x);
        AddedSplits(c, x - from, t - x);
        LevelAfterTake(c, b, before, x);
      }
    }
  }

  lemma LevelAfterTake(c: Limits, b: Ideal, before: real, x: real)
    requires c.count >= 0 && IdealKept(c, b, before) && before <= x
    ensures var level := IdealLevel(c, b, x);
      IdealLevel(c, IdealTake(c, b, x), x) == if level >= 1.0 then level - 1.0 else level
  {
    AddedInterval(c);
    IdealKeptAfterTake(c, b, before, x);
  }

  lemma {:induction false} NoneAdmittedAfter(times: seq<real>, answers: seq<bool>, s: real, t: real)
    requires |times| == |answers| && Sorted(times) && (times != [] ==> times[0] > t)
    ensures Admitted(times, answers, s, t) == 0
    decreases times
  {
    if times != [] {
      NoneAdmittedAfter(times[1..], answers[1..], s, t);
    }
  }

  /** A limiter whose count is below one admits nothing. */
  lemma {:induction false} NothingAdmittedBelowOne(c: Limits, b: Ideal, times: seq<real>, s: real, t: real)
    requires c.count < 1 && (b.Ideal? ==> b.tokens <= c.count as real)
    ensures |IdealAnswers(c, b, times)| == |times|
    ensures Admitted(times, IdealAnswers(c, b, times), s, t) == 0
    decreases times
  {
    if times != [] {
      NothingAdmittedBelowOne(c, IdealTake(c, b, times[0]), times[1..], s, t);
      assert IdealAnswers(c, b, times)[1..] == IdealAnswers(c, IdealTake(c, b, times[0]), times[1..]);
    }
  }

  /** `count + count * span / interval`, where a negative count is as good as zero. */
  function Allowance(c: Limits, span: real): real {
    var count := if c.count < 0 then 0.0 else c.count as real;
    count + count * span / c.interval
  }

  lemma AllowanceIsTheRefill(c: Limits, span: real)
    requires span >= 0.0
    ensures c.count >= 0 ==> Allowance(c, span) == c.count as real + Added(c, span)
    ensures c.count < 1 ==> Allowance(c, span) == 0.0
  {
  }

  /**
   The admission bound: for every key, every run and every span of time from `s` to `t`,
   evictions included, at most `count + count * (t - s) / interval` Takes succeed.
   */
  lemma AdmissionBound(c: Limits, events: seq<Event>, key: string, s: real, t: real)
    requires Ordered(events) && s <= t
    ensures |Answers(c, map[], events, key)| == |TakeTimes(events, key)|
    ensures Admitted(TakeTimes(events, key), Answers(c, map[], events, key), s, t) as real <= Allowance(c, t - s)
  {
    var times := TakeTimes(events, key);
    ForgettingIsInvisible(c, events, key);
    TakeTimesAreSorted(events, key);
    if c.count < 1 {
      NothingAdmittedBelowOne(c, Full, times, s, t);
    } else {
      IdealBound(c, times, s, t);
    }
    AllowanceIsTheRefill(c, t - s);
  }

  lemma IdealBound(c: Limits, times: seq<real>, s: real, t: real)
    requires c.count >= 1 && Sorted(times) && s <= t
    ensures |IdealAnswers(c, Full, times)| == |times|
    ensures Admitted(times, IdealAnswers(c, Full, times), s, t) as real <= c.count as real + Added(c, t - s)
  {
    var before := if times != [] && times[0] < s then times[0] else s;
    IdealAdmitsAtMost(c, Full, times, before, s, s, t);
  }

  // ---------------------------------------------------------------------------------------
  // What is admitted for sure

  /** The ideal bucket after Takes at the given times. */
  function IdealAfter(c: Limits, b: Ideal, times: seq<real>): Ideal
    decreases times
  {
    if times == [] then b else IdealAfter(c, IdealTake(c, b, times[0]), times[1..])
  }

  lemma {:induction false} IdealAnswersAppend(c: Limits, b: Ideal, times: seq<real>, more: seq<real>)
    ensures IdealAnswers(c, b, times + more) ==
      IdealAnswers(c, b, times) + IdealAnswers(c, IdealAfter(c, b, times), more)
    ensures IdealAfter(c, b, times + more) == IdealAfter(c, IdealAfter(c, b, times), more)
    decreases times
  {
    if times == [] {
      assert times + more == more;
      assert [] + IdealAnswers(c, b, more) == IdealAnswers(c, b, more);
    } else {
      assert (times + more)[1..] == times[1..] + more;
      IdealAnswersAppend(c, IdealTake(c, b, times[0]), times[1..], more);
    }
  }

  lemma {:induction false} TakeTimesAppend(events: seq<Event>, more: seq<Event>, key: string)
    ensures TakeTimes(events + more, key) == TakeTimes(events, key) + TakeTimes(more, key)
  {
    if events == [] {
      assert events + more == more;
    } else {
      assert (events + more)[0] == events[0] && (events + more)[1..] == events[1..] + more;
      TakeTimesAppend(events[1..], more, key);
      var head := if TakesFrom(events[0], key) then [events[0].now] else [];
      assert head + TakeTimes(events[1..], key) + TakeTimes(more, key) ==
        head + (TakeTimes(events[1..], key) + TakeTimes(more, key));
    }
  }

  lemma {:induction false} IdealAfterIsKept(c: Limits, b: Ideal, times: seq<real>, before: real, now: real)
    requires c.count >= 0 && Sorted(times) && IdealKept(c, b, before) && before <= now
    requires forall x :: x in times ==> before <= x <= now
    ensures IdealKept(c, IdealAfter(c, b, times), now)
    ensures times != [] && IdealAfter(c, b, times).Ideal? ==> IdealAfter(c, b, times).at == times[|times| - 1]
    ensures times == [] ==> IdealAfter(c, b, times) == b
    ensures b == Full && times != [] ==> IdealAfter(c, b, times).Ideal?
    decreases times
  {
    if times != [] {
      assert times[0] in times;
      IdealKeptAfterTake(c, b, before, times[0]);
      forall x | x in times[1..]
        ensures times[0] <= x <= now
      {
        var i :| 0 <= i < |times[1..]| && times[1..][i] == x;
        assert times[i + 1] == x && x in times;
      }
      IdealAfterIsKept(c, IdealTake(c, b, times[0]), times[1..], times[0], now);
      if |times| == 1 {
        assert times[1..] == [];
      } else {
        assert IdealTake(c, b, times[0]).Ideal?;
        IdealStaysIdeal(c, IdealTake(c, b, times[0]), times[1..]);
      }
    }
  }

  lemma {:induction false} IdealStaysIdeal(c: Limits, b: Ideal, times: seq<real>)
    requires b.Ideal?
    ensures IdealAfter(c, b, times).Ideal?
    decreases times
  {
    if times != [] {
      IdealStaysIdeal(c, IdealTake(c, b, times[0]), times[1..]);
    }
  }

  /** `n` Takes at one time. */
  function Burst(key: string, now: real, n: nat): seq<Event> {
    if n == 0 then [] else [Event.Take(key, now)] + Burst(key, now, n - 1)
  }

  lemma {:induction false} BurstTimes(key: string, now: real, n: nat)
    ensures TakeTimes(Burst(key, now, n), key) == seq(n, i => now)
    ensures forall e :: e in Burst(key, now, n) ==> e.now == now
  {
    if n > 0 {
      BurstTimes(key, now, n - 1);
      assert Burst(key, now, n)[1..] == Burst(key, now, n - 1);
      assert seq(n, i => now) == [now] + seq(n - 1, i => now);
    }
  }

  /** A burst gets exactly the whole tokens that the bucket holds. */
  lemma {:induction false} BurstAnswers(c: Limits, b: Ideal, now: real, n: nat)
    requires c.count >= 0 && IdealKept(c, b, now)
    ensures IdealAnswers(c, b, seq(n, i => now)) == seq(n, i => IdealLevel(c, b, now) >= (i + 1) as real)
    decreases n
  {
    if n > 0 {
      var next := IdealTake(c, b, now);
      IdealKeptAfterTake(c, b, now, now);
      LevelAfterTake(c, b, now, now);
      BurstAnswers(c, next, now, n - 1);
      assert seq(n, i => now)[1..] == seq(n - 1, i => now);
      var level := IdealLevel(c, b, now);
      var answers := IdealAnswers(c, b, seq(n, i => now));
      assert answers == [level >= 1.0] + IdealAnswers(c, next, seq(n - 1, i => now));
      forall i | 0 <= i < n
        ensures answers[i] == (level >= (i + 1) as real)
      {
        assert (i + 1) as real == i as real + 1.0;
      }
    }
  }

  /** After a silent interval the ideal bucket is full. */
  lemma SilentIsFull(c: Limits, events: seq<Event>, key: string, now: real)
    requires Ordered(events) && c.count >= 0 && (forall e :: e in events ==> e.now <= now)
    requires forall x :: x in TakeTimes(events, key) ==> x + c.interval <= now
    ensures IdealKept(c, IdealAfter(c, Full, TakeTimes(events, key)), now)
    ensures IdealLevel(c, IdealAfter(c, Full, TakeTimes(events, key)), now) == c.count as real
  {
    var times := TakeTimes(events, key);
    TakeTimesAreSorted(events, key);
    forall x | x in times
      ensures x <= now
    {
      var i := TakeTimesAreEventTimes(events, key, x);
      assert events[i] in events;
    }
    AddedInterval(c);
    if times != [] {
      assert times[0] in times;
      IdealAfterIsKept(c, Full, times, times[0], now);
      var b := IdealAfter(c, Full, times);
      assert times[|times| - 1] in times;
      AddedGrows(c, c.interval, now - b.at);
    }
  }

  lemma OrderedThen(events: seq<Event>, more: seq<Event>, now: real)
    requires Ordered(events) && (forall e :: e in events ==> e.now <= now) && forall e :: e in more ==> e.now == now
    ensures Ordered(events + more)
  {
    var all := events + more;
    forall i | 0 <= i < |all|
      ensures if i < |events| then all[i] == events[i] && events[i].now <= now else all[i].now == now
    {
      assert i < |events| ==> events[i] in events;
      assert i >= |events| ==> all[i] in more;
    }
  }

  /** A key that took nothing for one interval can take exactly `count` at once, whatever else went on. */
  lemma SilentKeyGetsTheWholeCount(c: Limits, events: seq<Event>, key: string, now: real, n: nat)
    requires Ordered(events) && c.count >= 0 && (forall e :: e in events ==> e.now <= now)
    requires forall x :: x in TakeTimes(events, key) ==> x + c.interval <= now
    ensures Answers(c, map[], events + Burst(key, now, n), key) ==
      Answers(c, map[], events, key) + seq(n, i => i < c.count)
  {
    var times, b := TakeTimes(events, key), IdealAfter(c, Full, TakeTimes(events, key));
    BurstTimes(key, now, n);
    OrderedThen(events, Burst(key, now, n), now);
    TakeTimesAppend(events, Burst(key, now, n), key);
    AnswersExtend(c, events, events + Burst(key, now, n), key, seq(n, i => now));
    SilentIsFull(c, events, key, now);
    BurstAnswers(c, b, now, n);
    assert seq(n, i => c.count as real >= (i + 1) as real) == seq(n, i => i < c.count);
  }

  /** A refused key succeeds once it has waited `interval / count`, if it takes nothing in between. */
  lemma RefusedKeyRecovers(c: Limits, events: seq<Event>, between: seq<Event>, key: string, t: real, later: real)
    requires c.count >= 1 && later >= t + c.interval / c.count as real
    requires Ordered(events + [Event.Take(key, t)] + between + [Event.Take(key, later)])
    requires TakeTimes(between, key) == []
    ensures |Answers(c, map[], events + [Event.Take(key, t)], key)| == |Answers(c, map[], events, key)| + 1
    ensures Answers(c, map[], events + [Event.Take(key, t)] + between + [Event.Take(key, later)], key) ==
      Answers(c, map[], events + [Event.Take(key, t)], key) + [true]
  {
    var first := events + [Event.Take(key, t)];
    var all := first + between + [Event.Take(key, later)];
    PrefixIsOrdered(events, all);
    PrefixIsOrdered(first, all);
    var times := TakeTimes(events, key);
    TakeTimesAppend(events, [Event.Take(key, t)], key);
    assert TakeTimes(first, key) == times + [t];
    assert TakeTimes(all, key) == times + [t] + [later] by {
      TakeTimesAppend(first, between, key);
      TakeTimesAppend(first + between, [Event.Take(key, later)], key);
      assert times + [t] + [] == times + [t];
    }
    AnswersExtend(c, events, first, key, [t]);
    AnswersExtend(c, first, all, key, [later]);
    TakeTimesAreSorted(first, key);
    IdealRecovers(c, times, t, later);
  }

  /** More Takes leave the earlier answers as they were and are answered from there on. */
  lemma AnswersExtend(c: Limits, events: seq<Event>, all: seq<Event>, key: string, more: seq<real>)
    requires Ordered(events) && Ordered(all) && TakeTimes(all, key) == TakeTimes(events, key) + more
    ensures |Answers(c, map[], all, key)| == |TakeTimes(all, key)|
    ensures |Answers(c, map[], events, key)| == |TakeTimes(events, key)|
    ensures Answers(c, map[], all, key) ==
      Answers(c, map[], events, key) + IdealAnswers(c, IdealAfter(c, Full, TakeTimes(events, key)), more)
  {
    ForgettingIsInvisible(c, events, key);
    ForgettingIsInvisible(c, all, key);
    IdealAnswersLength(c, Full, TakeTimes(events, key));
    IdealAnswersLength(c, Full, TakeTimes(all, key));
    IdealAnswersAppend(c, Full, TakeTimes(events, key), more);
  }

  lemma IdealRecovers(c: Limits, times: seq<real>, t: real, later: real)
    requires c.count >= 1 && later >= t + c.interval / c.count as real && Sorted(times + [t])
    ensures IdealAnswers(c, IdealAfter(c, Full, times + [t]), [later]) == [true]
  {
    var all := times + [t];
    assert forall x :: x in all ==> exists i :: 0 <= i < |all| && all[i] == x;
    assert all[|times|] == t;
    IdealAfterIsKept(c, Full, all, all[0], t);
    WaitingFillsOneToken(c, IdealAfter(c, Full, all), later);
  }

  lemma PrefixIsOrdered(a: seq<Event>, b: seq<Event>)
    requires Ordered(b) && a <= b
    ensures Ordered(a)
  {
  }

  lemma WaitingFillsOneToken(c: Limits, b: Ideal, later: real)
    requires c.count >= 1 && b.Ideal? && b.tokens >= 0.0 && later >= b.at + c.interval / c.count as real
    ensures IdealLevel(c, b, later) >= 1.0
  {
    var wait := c.interval / c.count as real;
    assert wait / c.interval * c.count as real == 1.0;
    AddedGrows(c, wait, later - b.at);
  }

  // ---------------------------------------------------------------------------------------
  // What the janitor forgets

  /** The buckets after a run. */
  function BucketsAfter(c: Limits, buckets: map<string, Bucket>, events: seq<Event>): map<string, Bucket> {
    if events == [] then buckets
    else Next(c, BucketsAfter(c, buckets, events[..|events| - 1]), events[|events| - 1])
  }

  predicate Touches(e: Event, key: string) {
    (e.Take? || e.Query?) && e.key == key
  }

  /** The key was used within the longer of a minute and the interval before `now`. */
  ghost predicate UsedLately(c: Limits, events: seq<Event>, key: string, now: real) {
    exists i :: 0 <= i < |events| && Touches(events[i], key)
      && now - events[i].now <= (if c.interval < 60.0 then 60.0 else c.interval)
  }

  /** `seen` is when the key was last used. */
  ghost predicate LastUse(events: seq<Event>, key: string, seen: real) {
    && (exists i :: 0 <= i < |events| && Touches(events[i], key) && events[i].now == seen)
    && (forall i :: 0 <= i < |events| && Touches(events[i], key) ==> events[i].now <= seen)
  }

  /** A remembered key was last seen at its last use, and a forgotten one has not been used lately. */
  ghost predicate Remembers(c: Limits, events: seq<Event>, key: string, buckets: map<string, Bucket>, now: real) {
    if key in buckets then LastUse(events, key, buckets[key].lastSeen)
    else !UsedLately(c, events, key, now)
  }

  lemma UseIsRemembered(c: Limits, init: seq<Event>, e: Event, key: string)
    requires Ordered(init + [e]) && Touches(e, key)
    ensures LastUse(init + [e], key, e.now)
  {
    var events := init + [e];
    assert Touches(events[|init|], key) && events[|init|].now == e.now;
    forall i | 0 <= i < |events| && Touches(events[i], key)
      ensures events[i].now <= e.now
    {
      assert i < |init| ==> events[i].now <= events[|init|].now;
    }
  }

  lemma OthersKeepTheLastUse(init: seq<Event>, e: Event, key: string, seen: real)
    requires LastUse(init, key, seen) && !Touches(e, key)
    ensures LastUse(init + [e], key, seen)
  {
    var i :| 0 <= i < |init| && Touches(init[i], key) && init[i].now == seen;
    assert (init + [e])[i] == init[i];
    forall j | 0 <= j < |init + [e]| && Touches((init + [e])[j], key)
      ensures (init + [e])[j].now <= seen
    {
      assert (init + [e])[j] == init[j];
    }
  }

  /** A key that was not used lately is not used lately any later, as long as it is not used. */
  lemma StaysUnused(c: Limits, init: seq<Event>, e: Event, key: string, before: real, now: real)
    requires !UsedLately(c, init, key, before) && !Touches(e, key) && before <= now
    ensures !UsedLately(c, init, key, now) && !UsedLately(c, init + [e], key, now)
  {
    forall i | 0 <= i < |init + [e]| && Touches((init + [e])[i], key)
      ensures now - (init + [e])[i].now > (if c.interval < 60.0 then 60.0 else c.interval)
    {
      assert (init + [e])[i] == init[i];
    }
  }

  lemma LastUseDecides(c: Limits, events: seq<Event>, key: string, seen: real, now: real)
    requires LastUse(events, key, seen)
    ensures UsedLately(c, events, key, now) <==> now - seen <= (if c.interval < 60.0 then 60.0 else c.interval)
  {
    var i :| 0 <= i < |events| && Touches(events[i], key) && events[i].now == seen;
  }

  /** The time of the last event. */
  function LastTime(events: seq<Event>): real {
    if events == [] then 0.0 else events[|events| - 1].now
  }

  lemma OneMoreEvent(c: Limits, init: seq<Event>, e: Event)
    requires Ordered(init + [e])
    ensures BucketsAfter(c, map[], init + [e]) == Next(c, BucketsAfter(c, map[], init), e)
    ensures LastTime(init + [e]) == e.now && Ordered(init) && (init != [] ==> LastTime(init) <= e.now)
  {
    var events := init + [e];
    assert events[..|init|] == init;
    PrefixIsOrdered(init, events);
    assert init != [] ==> events[|init| - 1].now <= events[|init|].now;
  }

  /** A use stamps the bucket, and only a sweep takes one away. */
  lemma EventOnBucket(c: Limits, buckets: map<string, Bucket>, e: Event, key: string)
    ensures Touches(e, key) ==> key in Next(c, buckets, e) && Next(c, buckets, e)[key].lastSeen == e.now
    ensures !Touches(e, key) && key !in buckets ==> key !in Next(c, buckets, e)
    ensures !Touches(e, key) && key in buckets && key in Next(c, buckets, e) ==>
      Next(c, buckets, e)[key] == buckets[key]
    ensures !Touches(e, key) && key in buckets && key !in Next(c, buckets, e) ==>
      e.now - buckets[key].lastSeen > (if c.interval < 60.0 then 60.0 else c.interval)
  {
  }

  lemma ForgottenWasUnused(c: Limits, init: seq<Event>, e: Event, key: string, seen: real)
    requires LastUse(init, key, seen) && !Touches(e, key)
    requires e.now - seen > (if c.interval < 60.0 then 60.0 else c.interval)
    ensures !UsedLately(c, init + [e], key, e.now)
  {
    OthersKeepTheLastUse(init, e, key, seen);
    LastUseDecides(c, init + [e], key, seen, e.now);
  }

  lemma NeverUsed(c: Limits, e: Event, key: string)
    requires !Touches(e, key)
    ensures !UsedLately(c, [] + [e], key, e.now)
  {
  }

  lemma RemembersOneMore(c: Limits, init: seq<Event>, e: Event, key: string, buckets: map<string, Bucket>)
    requires Ordered(init + [e]) && Remembers(c, init, key, buckets, LastTime(init))
    ensures Remembers(c, init + [e], key, Next(c, buckets, e), e.now)
  {
    EventOnBucket(c, buckets, e, key);
    if Touches(e, key) {
      UseIsRemembered(c, init, e, key);
    } else if key in buckets {
      if key in Next(c, buckets, e) {
        OthersKeepTheLastUse(init, e, key, buckets[key].lastSeen);
      } else {
        ForgottenWasUnused(c, init, e, key, buckets[key].lastSeen);
      }
    } else if init == [] {
      NeverUsed(c, e, key);
    } else {
      OneMoreEvent(c, init, e);
      StaysUnused(c, init, e, key, LastTime(init), e.now);
    }
  }

  lemma {:induction false} AlwaysRemembers(c: Limits, events: seq<Event>, key: string)
    requires Ordered(events)
    ensures Remembers(c, events, key, BucketsAfter(c, map[], events), LastTime(events))
  {
    if events != [] {
      var init, e := events[..|events| - 1], events[|events| - 1];
      assert init + [e] == events;
      OneMoreEvent(c, init, e);
      AlwaysRemembers(c, init, key);
      RemembersOneMore(c, init, e, key, BucketsAfter(c, map[], init));
    }
  }

  /**
   After a sweep the limiter remembers exactly the keys that were used, by a Take or a query,
   within the longer of a minute and the interval.
   */
  lemma SweepRemembersRecentKeys(c: Limits, events: seq<Event>, key: string, now: real)
    requires Ordered(events + [Event.Sweep(now)])
    ensures key in BucketsAfter(c, map[], events + [Event.Sweep(now)]) <==> UsedLately(c, events, key, now)
  {
    var all := events + [Event.Sweep(now)];
    assert all[..|events|] == events;
    PrefixIsOrdered(events, all);
    AlwaysRemembers(c, events, key);
    var buckets := BucketsAfter(c, map[], events);
    if key in buckets {
      LastUseDecides(c, events, key, buckets[key].lastSeen, now);
    } else if events != [] {
      assert all[|events| - 1].now <= all[|events|].now;
      StaysUnused(c, events, Event.Sweep(now), key, events[|events| - 1].now, now);
    }
  }
}
