/**
  The keyed token-bucket limiter of internal/ratelimit/limiter.go and the question
  whether its idle eviction can be observed.

  Instants are integer nanoseconds of one clock.  A bucket is the exact token bucket
  that golang.org/x/time/rate approximates in floating point; `rate` is in tokens per
  nanosecond.
 */
module RateLimit {
  import opened Wrappers

  const NANOS_PER_SECOND := 1_000_000_000
  const DEFAULT_TTL := 600 * NANOS_PER_SECOND

  datatype Config = Config(rate: real, burst: int, ttl: int) {
    predicate Valid() {
      rate > 0.0 && burst >= 1 && ttl >= 1
    }
  }

  /** The defaults New substitutes for unusable arguments. */
  function Sanitize(rps: real, burst: int, ttl: int): (c: Config)
    ensures c.Valid()
  {
    Config((if rps <= 0.0 then 1.0 else rps) / NANOS_PER_SECOND as real,
           if burst <= 0 then 1 else burst,
           if ttl <= 0 then DEFAULT_TTL else ttl)
  }

  /** Usable arguments are kept, each for itself: so many tokens a second, this burst, this ttl. */
  lemma UsableIsKept(rps: real, burst: int, ttl: int)
    ensures var c := Sanitize(rps, burst, ttl);
      && Refill(c, 1_000_000_000) == (if rps > 0.0 then rps else 1.0)
      && c.burst == (if burst > 0 then burst else 1)
      && c.ttl == (if ttl > 0 then ttl else 600_000_000_000)
  {
    var perSecond := if rps <= 0.0 then 1.0 else rps;
    assert perSecond / 1_000_000_000.0 * 1_000_000_000.0 == perSecond;
  }

  datatype Bucket = Bucket(tokens: real, at: int)

  datatype Entry = Entry(bucket: Bucket, lastSeen: int)

  /** What Allow returns: whether the call may go on, and the Retry-After hint in nanoseconds. */
  datatype Answer = Answer(allowed: bool, wait: real)

  type Entries = map<string, Entry>

  // ---------------------------------------------------------------- one bucket

  function Refill(c: Config, dt: int): real {
    c.rate * dt as real
  }

  function Tokens(c: Config, b: Bucket, now: int): real {
    var grown := b.tokens + Refill(c, if now < b.at then 0 else now - b.at);
    if grown > c.burst as real then c.burst as real else grown
  }

  /** Reserve one token; a call that would have to wait cancels its reservation and pays nothing. */
  function Take(c: Config, b: Bucket, now: int): (Bucket, Answer)
    requires c.Valid()
  {
    var t := Tokens(c, b, now);
    if t >= 1.0 then (Bucket(t - 1.0, now), Answer(true, 0.0))
    else (Bucket(t, now), Answer(false, (1.0 - t) / c.rate))
  }

  function NewEntry(c: Config, now: int): Entry {
    Entry(Bucket(c.burst as real, now), now)
  }

  // ---------------------------------------------------------------- the limiter

  function AllowStep(c: Config, entries: Entries, key: string, now: int): (Entries, Answer)
    requires c.Valid()
  {
    var e := if key in entries then entries[key] else NewEntry(c, now);
    var (b, answer) := Take(c, e.bucket, now);
    (entries[key := Entry(b, now)], answer)
  }

  function EvictStep(c: Config, entries: Entries, now: int): Entries {
    map k | k in entries && !(entries[k].lastSeen < now - c.ttl) :: entries[k]
  }

  /** golang's KeyedLimiter; the clock reading of each call is a parameter. */
  class KeyedLimiter {
    const config: Config
    var entries: Entries

    constructor (rps: real, burst: int, ttl: int)
      ensures config == Sanitize(rps, burst, ttl) && entries == map[]
    {
      config := Sanitize(rps, burst, ttl);
      entries := map[];
    }

    method Allow(key: string, now: int) returns (allowed: bool, wait: real)
      requires config.Valid()
      modifies this
      ensures entries == AllowStep(config, old(entries), key, now).0
      ensures Answer(allowed, wait) == AllowStep(config, old(entries), key, now).1
    {
      if key !in entries {
        entries := entries[key := NewEntry(config, now)];
      }
      entries := entries[key := entries[key].(lastSeen := now)];
      var (bucket, answer) := Take(config, entries[key].bucket, now);
      entries := entries[key := entries[key].(bucket := bucket)];
      allowed, wait := answer.allowed, answer.wait;
    }

    method Evict(now: int)
      modifies this
      ensures entries == EvictStep(config, old(entries), now)
    {
      var cutoff := now - config.ttl;
      var todo := entries.Keys;
      while todo != {}
        invariant todo <= entries.Keys <= old(entries).Keys
        invariant forall k :: k in entries ==> entries[k] == old(entries)[k]
        invariant forall k :: k in old(entries) ==>
                    (k in entries <==> k in todo || !(old(entries)[k].lastSeen < cutoff))
      {
        var k :| k in todo;
        if entries[k].lastSeen < cutoff {
          entries := entries - {k};
        }
        todo := todo - {k};
      }
    }
  }

  // ---------------------------------------------------------------- runs

  datatype Step = Call(key: string, now: int) | Sweep(now: int)

  /** The clock never runs backwards. */
  ghost predicate Monotone(steps: seq<Step>) {
    forall i, j :: 0 <= i < j < |steps| ==> steps[i].now <= steps[j].now
  }

  /** One step; with `evicting` false the sweeps are ignored. */
  function Next(c: Config, entries: Entries, step: Step, evicting: bool): (Entries, Option<Answer>)
    requires c.Valid()
  {
    match step
    case Call(key, now) => var (e, a) := AllowStep(c, entries, key, now); (e, Some(a))
    case Sweep(now) => (if evicting then EvictStep(c, entries, now) else entries, None)
  }

  function After(c: Config, steps: seq<Step>, evicting: bool): Entries
    requires c.Valid()
  {
    if steps == [] then map[]
    else Next(c, After(c, steps[..|steps| - 1], evicting), steps[|steps| - 1], evicting).0
  }

  /** The answer to every step, in order. */
  function Answers(c: Config, steps: seq<Step>, evicting: bool): (answers: seq<Option<Answer>>)
    requires c.Valid()
    ensures |answers| == |steps|
  {
    if steps == [] then []
    else
      var before := steps[..|steps| - 1];
      Answers(c, before, evicting) + [Next(c, After(c, before, evicting), steps[|steps| - 1], evicting).1]
  }

  /** Tokens key would find: a key without an entry starts full. */
  function Level(c: Config, entries: Entries, key: string, now: int): real {
    if key in entries then Tokens(c, entries[key].bucket, now) else c.burst as real
  }

  lemma RunSnoc(c: Config, steps: seq<Step>, step: Step, evicting: bool)
    requires c.Valid()
    ensures var (next, answer) := Next(c, After(c, steps, evicting), step, evicting);
      && After(c, steps + [step], evicting) == next
      && Answers(c, steps + [step], evicting) == Answers(c, steps, evicting) + [answer]
  {
    assert (steps + [step])[..|steps|] == steps;
  }

  lemma RefillMonotone(c: Config, a: int, b: int)
    requires c.Valid() && a <= b
    ensures Refill(c, a) <= Refill(c, b)
    ensures Refill(c, 0) == 0.0
  {
    assert (b - a) as real >= 0.0;
    assert c.rate * ((b - a) as real) >= 0.0;
    assert c.rate * (b as real) == c.rate * (a as real) + c.rate * ((b - a) as real);
  }

  lemma RefillAdds(c: Config, a: int, b: int)
    ensures Refill(c, a + b) == Refill(c, a) + Refill(c, b)
  {
  }

  // ---------------------------------------------------------------- eviction cannot be observed

  ghost predicate Sound(c: Config, entries: Entries, now: int) {
    forall k :: k in entries ==>
      && entries[k].bucket.at == entries[k].lastSeen <= now
      && 0.0 <= entries[k].bucket.tokens <= c.burst as real
  }

  /** The evicting limiter holds a part of the other's entries; what it lacks is full anyway. */
  ghost predicate Agree(c: Config, evicting: Entries, keeping: Entries, now: int) {
    && Sound(c, keeping, now)
    && (forall k :: k in evicting ==> k in keeping && evicting[k] == keeping[k])
    && (forall k :: k in keeping && k !in evicting ==> Level(c, keeping, k, now) == c.burst as real)
  }

  lemma FullStaysFull(c: Config, b: Bucket, now: int, later: int)
    requires c.Valid() && b.at <= now <= later
    requires Tokens(c, b, now) == c.burst as real
    ensures Tokens(c, b, later) == c.burst as real
  {
    RefillMonotone(c, now - b.at, later - b.at);
  }

  lemma IdleIsFull(c: Config, b: Bucket, now: int)
    requires c.Valid() && Refill(c, c.ttl + 1) >= c.burst as real
    requires 0.0 <= b.tokens && b.at < now - c.ttl
    ensures Tokens(c, b, now) == c.burst as real
  {
    RefillMonotone(c, c.ttl + 1, now - b.at);
  }

  lemma TokensInRange(c: Config, b: Bucket, now: int)
    requires c.Valid() && 0.0 <= b.tokens <= c.burst as real
    ensures 0.0 <= Tokens(c, b, now) <= c.burst as real
  {
    RefillMonotone(c, 0, if now < b.at then 0 else now - b.at);
  }

  /** At whatever two times a bucket is looked at, it holds no less later, and no more than refilled in between. */
  lemma TokensGrow(c: Config, b: Bucket, now: int, later: int)
    requires c.Valid() && now <= later
    ensures Tokens(c, b, now) <= Tokens(c, b, later) <= Tokens(c, b, now) + Refill(c, later - now)
    ensures b.tokens <= c.burst as real ==> Tokens(c, b, b.at) == b.tokens
  {
    RefillMonotone(c, 0, later - now);
    var from, to := if now < b.at then 0 else now - b.at, if later < b.at then 0 else later - b.at;
    RefillMonotone(c, from, to);
    RefillAdds(c, from, to - from);
    RefillMonotone(c, to - from, later - now);
  }

  lemma SoundStep(c: Config, entries: Entries, step: Step, evicting: bool)
    requires c.Valid() && Sound(c, entries, step.now)
    ensures Sound(c, Next(c, entries, step, evicting).0, step.now)
  {
    if step.Call? {
      TokensInRange(c, (if step.key in entries then entries[step.key] else NewEntry(c, step.now)).bucket, step.now);
    }
  }

  lemma AgreeLater(c: Config, evicting: Entries, keeping: Entries, now: int, later: int)
    requires c.Valid() && Agree(c, evicting, keeping, now) && now <= later
    ensures Agree(c, evicting, keeping, later)
  {
    forall k | k in keeping && k !in evicting ensures Level(c, keeping, k, later) == c.burst as real {
      FullStaysFull(c, keeping[k].bucket, now, later);
    }
  }

  lemma AgreeStep(c: Config, evicting: Entries, keeping: Entries, step: Step)
    requires c.Valid() && Refill(c, c.ttl + 1) >= c.burst as real
    requires Agree(c, evicting, keeping, step.now)
    ensures Next(c, evicting, step, true).1 == Next(c, keeping, step, false).1
    ensures Agree(c, Next(c, evicting, step, true).0, Next(c, keeping, step, false).0, step.now)
  {
    SoundStep(c, keeping, step, false);
    match step
    case Call(key, now) =>
      if key !in evicting {
        RefillMonotone(c, 0, 0);
        assert Tokens(c, NewEntry(c, now).bucket, now) == c.burst as real;
      }
    case Sweep(now) =>
      var swept := EvictStep(c, evicting, now);
      forall k | k in keeping && k !in swept ensures Level(c, keeping, k, now) == c.burst as real {
        if k in evicting {
          IdleIsFull(c, keeping[k].bucket, now);
        }
      }
  }

  ghost predicate EndsBy(steps: seq<Step>, now: int) {
    steps == [] || steps[|steps| - 1].now <= now
  }

  lemma {:induction false} RunsAgree(c: Config, steps: seq<Step>, now: int)
    requires c.Valid() && Refill(c, c.ttl + 1) >= c.burst as real
    requires Monotone(steps) && EndsBy(steps, now)
    ensures Answers(c, steps, true) == Answers(c, steps, false)
    ensures Agree(c, After(c, steps, true), After(c, steps, false), now)
  {
    if steps != [] {
      var before, last := steps[..|steps| - 1], steps[|steps| - 1];
      RunsAgree(c, before, last.now);
      AgreeStep(c, After(c, before, true), After(c, before, false), last);
      AgreeLater(c, After(c, steps, true), After(c, steps, false), last.now, now);
    }
  }

  // ---------------------------------------------------------------- unless the ttl is too short

  function Calls(key: string, now: int, n: nat): (calls: seq<Step>)
    ensures |calls| == n && forall i :: 0 <= i < n ==> calls[i] == Call(key, now)
  {
    if n == 0 then [] else Calls(key, now, n - 1) + [Call(key, now)]
  }

  function Granted(n: nat): (answers: seq<Option<Answer>>)
    ensures |answers| == n && forall i :: 0 <= i < n ==> answers[i] == Some(Answer(true, 0.0))
  {
    if n == 0 then [] else Granted(n - 1) + [Some(Answer(true, 0.0))]
  }

  /** A call is allowed exactly when the level covers it, and then costs one token. */
  lemma OneCall(c: Config, entries: Entries, key: string, now: int)
    requires c.Valid()
    ensures var (next, answer) := AllowStep(c, entries, key, now);
      var level := Level(c, entries, key, now);
      && (answer.allowed <==> level >= 1.0)
      && (answer.allowed ==> answer == Answer(true, 0.0))
      && Level(c, next, key, now) == (if answer.allowed then level - 1.0 else level)
      && key in next && next[key].lastSeen == now
  {
    RefillMonotone(c, 0, 0);
    TokensCapped(c, entries, key, now);
  }

  lemma OneMore(c: Config, steps: seq<Step>, key: string, now: int, evicting: bool)
    requires c.Valid()
    ensures var all := steps + [Call(key, now)];
      var level := Level(c, After(c, steps, evicting), key, now);
      && |Answers(c, all, evicting)| == |steps| + 1
      && Answers(c, all, evicting)[..|steps|] == Answers(c, steps, evicting)
      && (level >= 1.0 <==> Answers(c, all, evicting)[|steps|] == Some(Answer(true, 0.0)))
      && (level >= 1.0 ==> Level(c, After(c, all, evicting), key, now) == level - 1.0)
      && key in After(c, all, evicting) && After(c, all, evicting)[key].lastSeen == now
  {
    RunSnoc(c, steps, Call(key, now), evicting);
    OneCall(c, After(c, steps, evicting), key, now);
  }

  /** A burst is allowed call by call exactly when the level covers all of it. */
  lemma {:induction false} BurstAllowed(c: Config, steps: seq<Step>, key: string, now: int, n: nat, evicting: bool)
    requires c.Valid() && Level(c, After(c, steps, evicting), key, now) >= 0.0
    ensures var all, level := steps + Calls(key, now, n), Level(c, After(c, steps, evicting), key, now);
      && (Answers(c, all, evicting) == Answers(c, steps, evicting) + Granted(n) <==> n as real <= level)
      && (n as real <= level ==> Level(c, After(c, all, evicting), key, now) == level - n as real)
      && (n > 0 ==> key in After(c, all, evicting) && After(c, all, evicting)[key].lastSeen == now)
  {
    var all := steps + Calls(key, now, n);
    if n == 0 {
      assert all == steps;
    } else {
      var before := steps + Calls(key, now, n - 1);
      BurstAllowed(c, steps, key, now, n - 1, evicting);
      assert all == before + [Call(key, now)];
      OneMore(c, before, key, now, evicting);
      BurstStep(Answers(c, all, evicting), Answers(c, steps, evicting), Answers(c, before, evicting), n,
                Level(c, After(c, steps, evicting), key, now), Level(c, After(c, before, evicting), key, now),
                Level(c, After(c, all, evicting), key, now));
    }
  }

  /** The same step on the answers and levels alone. */
  lemma BurstStep(all: seq<Option<Answer>>, start: seq<Option<Answer>>, before: seq<Option<Answer>>, n: nat,
                  level: real, levelBefore: real, levelAfter: real)
    requires n > 0 && |all| == |before| + 1 && |before| == |start| + n - 1 && all[..|before|] == before
    requires before == start + Granted(n - 1) <==> (n - 1) as real <= level
    requires (n - 1) as real <= level ==> levelBefore == level - (n - 1) as real
    requires levelBefore >= 1.0 <==> all[|before|] == Some(Answer(true, 0.0))
    requires levelBefore >= 1.0 ==> levelAfter == levelBefore - 1.0
    ensures all == start + Granted(n) <==> n as real <= level
    ensures n as real <= level ==> levelAfter == level - n as real
  {
    LastAnswer(all, start, before, n);
  }

  lemma LastAnswer(all: seq<Option<Answer>>, start: seq<Option<Answer>>, before: seq<Option<Answer>>, n: nat)
    requires n > 0 && |all| == |before| + 1 && |before| == |start| + n - 1 && all[..|before|] == before
    ensures all == start + Granted(n) <==> before == start + Granted(n - 1) && all[|before|] == Some(Answer(true, 0.0))
  {
    if all == start + Granted(n) {
      assert before == (start + Granted(n))[..|before|] == start + Granted(n - 1);
    }
    assert all == before + [all[|before|]];
    assert start + Granted(n) == start + Granted(n - 1) + [Some(Answer(true, 0.0))];
  }

  lemma TokensCapped(c: Config, entries: Entries, key: string, now: int)
    requires c.Valid()
    ensures Level(c, entries, key, now) <= c.burst as real
    ensures Level(c, entries, key, now)
            == Tokens(c, (if key in entries then entries[key] else NewEntry(c, now)).bucket, now)
  {
    RefillMonotone(c, 0, 0);
  }

  lemma {:induction false} AnswersPrefix(c: Config, steps: seq<Step>, more: seq<Step>, evicting: bool)
    requires c.Valid()
    ensures Answers(c, steps, evicting) <= Answers(c, steps + more, evicting)
  {
    if more == [] {
      assert steps + more == steps;
    } else {
      var all := steps + more;
      assert all[..|all| - 1] == steps + more[..|more| - 1];
      AnswersPrefix(c, steps, more[..|more| - 1], evicting);
    }
  }

  function Exhausted(c: Config): seq<Step>
    requires c.Valid()
  {
    Calls("k", 0, c.burst) + [Sweep(c.ttl + 1)]
  }

  /** Exhaust the bucket, sit out the ttl, sweep, and ask for a whole burst again. */
  function Witness(c: Config): seq<Step>
    requires c.Valid()
  {
    Exhausted(c) + Calls("k", c.ttl + 1, c.burst)
  }

  /** Both limiters spend the first burst completely. */
  lemma FirstBurst(c: Config, evicting: bool)
    requires c.Valid()
    ensures var entries := After(c, Calls("k", 0, c.burst), evicting);
      && Answers(c, Calls("k", 0, c.burst), evicting) == Granted(c.burst)
      && "k" in entries && entries["k"].lastSeen == 0
      && Level(c, entries, "k", 0) == 0.0
  {
    var first := Calls("k", 0, c.burst);
    assert [] + first == first;
    BurstAllowed(c, [], "k", 0, c.burst, evicting);
  }

  lemma SweptAway(c: Config, entries: Entries)
    requires c.Valid() && "k" in entries && entries["k"].lastSeen == 0
    ensures Level(c, EvictStep(c, entries, c.ttl + 1), "k", c.ttl + 1) == c.burst as real
  {
  }

  lemma EvictingForgets(c: Config)
    requires c.Valid()
    ensures Answers(c, Exhausted(c), true) == Granted(c.burst) + [None]
    ensures Level(c, After(c, Exhausted(c), true), "k", c.ttl + 1) == c.burst as real
  {
    var first := Calls("k", 0, c.burst);
    FirstBurst(c, true);
    SweptAway(c, After(c, first, true));
    RunSnoc(c, first, Sweep(c.ttl + 1), true);
  }

  lemma SpentBucket(c: Config, entries: Entries)
    requires c.Valid() && Refill(c, c.ttl + 1) < c.burst as real
    requires Sound(c, entries, 0) && "k" in entries && entries["k"].lastSeen == 0
    requires Level(c, entries, "k", 0) == 0.0
    ensures 0.0 <= Level(c, entries, "k", c.ttl + 1) < c.burst as real
  {
    RefillMonotone(c, 0, 0);
    RefillMonotone(c, 0, c.ttl + 1);
  }

  lemma Unswept(c: Config)
    requires c.Valid()
    ensures Answers(c, Exhausted(c), false) == Answers(c, Calls("k", 0, c.burst), false) + [None]
    ensures After(c, Exhausted(c), false) == After(c, Calls("k", 0, c.burst), false)
  {
    RunSnoc(c, Calls("k", 0, c.burst), Sweep(c.ttl + 1), false);
  }

  lemma KeepingRemembers(c: Config)
    requires c.Valid() && Refill(c, c.ttl + 1) < c.burst as real
    ensures Answers(c, Exhausted(c), false) == Granted(c.burst) + [None]
    ensures 0.0 <= Level(c, After(c, Exhausted(c), false), "k", c.ttl + 1) < c.burst as real
  {
    FirstBurst(c, false);
    AlwaysSound(c, Calls("k", 0, c.burst), 0);
    SpentBucket(c, After(c, Calls("k", 0, c.burst), false));
    Unswept(c);
  }

  lemma BurstDecides(c: Config, steps: seq<Step>, start: seq<Option<Answer>>, level: real, evicting: bool)
    requires c.Valid() && Answers(c, steps, evicting) == start
    requires Level(c, After(c, steps, evicting), "k", c.ttl + 1) == level >= 0.0
    ensures Answers(c, steps + Calls("k", c.ttl + 1, c.burst), evicting) == start + Granted(c.burst)
       <==> level >= c.burst as real
  {
    BurstAllowed(c, steps, "k", c.ttl + 1, c.burst, evicting);
  }

  lemma EvictingGrants(c: Config, steps: seq<Step>, start: seq<Option<Answer>>)
    requires c.Valid() && steps == Exhausted(c) && start == Granted(c.burst) + [None]
    ensures Answers(c, steps + Calls("k", c.ttl + 1, c.burst), true) == start + Granted(c.burst)
  {
    EvictingForgets(c);
    BurstDecides(c, steps, start, c.burst as real, true);
  }

  lemma KeepingRefuses(c: Config, steps: seq<Step>, start: seq<Option<Answer>>)
    requires c.Valid() && Refill(c, c.ttl + 1) < c.burst as real
    requires steps == Exhausted(c) && start == Granted(c.burst) + [None]
    ensures Answers(c, steps + Calls("k", c.ttl + 1, c.burst), false) != start + Granted(c.burst)
  {
    KeepingRemembers(c);
    BurstDecides(c, steps, start, Level(c, After(c, steps, false), "k", c.ttl + 1), false);
  }

  /** With a ttl too short to refill, the evicting limiter forgives a debt the other one remembers. */
  lemma WitnessTellsApart(c: Config)
    requires c.Valid() && Refill(c, c.ttl + 1) < c.burst as real
    ensures Answers(c, Witness(c), true) != Answers(c, Witness(c), false)
  {
    TellApart(c, Exhausted(c), Granted(c.burst) + [None], Witness(c));
  }

  lemma TellApart(c: Config, steps: seq<Step>, start: seq<Option<Answer>>, all: seq<Step>)
    requires c.Valid() && Refill(c, c.ttl + 1) < c.burst as real
    requires steps == Exhausted(c) && start == Granted(c.burst) + [None]
    requires all == steps + Calls("k", c.ttl + 1, c.burst)
    ensures Answers(c, all, true) != Answers(c, all, false)
  {
    EvictingGrants(c, steps, start);
    KeepingRefuses(c, steps, start);
  }

  lemma WitnessIsMonotone(c: Config)
    requires c.Valid()
    ensures Monotone(Witness(c))
  {
  }

  /** Eviction is unobservable exactly when an entry idle for longer than the ttl must be full. */
  lemma EvictionUnobservable(c: Config)
    requires c.Valid()
    ensures (forall steps: seq<Step> :: Monotone(steps) ==> Answers(c, steps, true) == Answers(c, steps, false))
            <==> Refill(c, c.ttl + 1) >= c.burst as real
  {
    if Refill(c, c.ttl + 1) >= c.burst as real {
      forall steps: seq<Step> | Monotone(steps) ensures Answers(c, steps, true) == Answers(c, steps, false) {
        RunsAgree(c, steps, if steps == [] then 0 else steps[|steps| - 1].now);
      }
    } else {
      WitnessIsMonotone(c);
      WitnessTellsApart(c);
    }
  }

  /** The server's wiring: burst = RPM, RPM/60 tokens a second, ten minutes of ttl. */
  lemma ServerWiringIsSafe(rpm: int)
    requires rpm >= 1
    ensures var c := Sanitize(rpm as real / 60.0, rpm, DEFAULT_TTL);
      c.burst == rpm && Refill(c, c.ttl + 1) >= c.burst as real
  {
    var c := Sanitize(rpm as real / 60.0, rpm, DEFAULT_TTL);
    var perNano := rpm as real / 60.0 / NANOS_PER_SECOND as real;
    assert c.rate == perNano;
    assert perNano * (600 * NANOS_PER_SECOND) as real == 10.0 * rpm as real;
    RefillMonotone(c, c.ttl, c.ttl + 1);
  }

  // ---------------------------------------------------------------- the rate bound

  function Allowed(steps: seq<Step>, answers: seq<Option<Answer>>, key: string): nat
    requires |steps| == |answers|
  {
    if steps == [] then 0
    else
      var m := |steps| - 1;
      Allowed(steps[..m], answers[..m], key)
      + if steps[m].Call? && steps[m].key == key && answers[m].Some? && answers[m].value.allowed then 1 else 0
  }

  lemma AllowedSnoc(steps: seq<Step>, answers: seq<Option<Answer>>, step: Step, answer: Option<Answer>, key: string)
    requires |steps| == |answers|
    ensures Allowed(steps + [step], answers + [answer], key)
            == Allowed(steps, answers, key)
               + if step.Call? && step.key == key && answer.Some? && answer.value.allowed then 1 else 0
  {
    assert (steps + [step])[..|steps|] == steps && (answers + [answer])[..|steps|] == answers;
  }

  /** Calls of key that the never-evicting limiter allows in a window. */
  function AllowedIn(c: Config, past: seq<Step>, window: seq<Step>, key: string): nat
    requires c.Valid()
  {
    Allowed(window, Answers(c, past + window, false)[|past|..], key)
  }

  lemma OneMoreCall(c: Config, past: seq<Step>, window: seq<Step>, last: Step, key: string)
    requires c.Valid()
    ensures var before, after := After(c, past + window, false), After(c, past + (window + [last]), false);
      AllowedIn(c, past, window + [last], key) as real + Level(c, after, key, last.now)
      == AllowedIn(c, past, window, key) as real + Level(c, before, key, last.now)
  {
    var before := past + window;
    var (next, answer) := Next(c, After(c, before, false), last, false);
    assert past + (window + [last]) == before + [last];
    RunSnoc(c, before, last, false);
    LevelSpent(c, After(c, before, false), last, key);
    var earlier := Answers(c, before, false)[|past|..];
    AllowedSnoc(window, earlier, last, answer, key);
    assert Answers(c, before + [last], false)[|past|..] == earlier + [answer];
  }

  lemma MonotonePrefix(steps: seq<Step>, more: seq<Step>)
    requires Monotone(steps + more)
    ensures Monotone(steps)
  {
    assert forall i :: 0 <= i < |steps| ==> steps[i] == (steps + more)[i];
  }

  /** Every allowed call is paid for by the level at the start or by the refill since. */
  lemma {:induction false} LevelPays(c: Config, past: seq<Step>, window: seq<Step>, key: string)
    requires c.Valid() && Monotone(past + window) && window != []
    ensures var from, to := window[0].now, window[|window| - 1].now;
      AllowedIn(c, past, window, key) as real + Level(c, After(c, past + window, false), key, to)
      <= c.burst as real + Refill(c, to - from)
  {
    var m := |window| - 1;
    var shorter, last := window[..m], window[m];
    assert window == shorter + [last];
    OneMoreCall(c, past, shorter, last, key);
    TokensCapped(c, After(c, past + shorter, false), key, last.now);
    if m > 0 {
      assert past + window == (past + shorter) + [last];
      MonotonePrefix(past + shorter, [last]);
      var previous := window[m - 1].now;
      assert (past + window)[|past| + m - 1].now <= (past + window)[|past| + m].now;
      LevelPays(c, past, shorter, key);
      LevelGrows(c, After(c, past + shorter, false), key, previous, last.now);
      RefillAdds(c, previous - window[0].now, last.now - previous);
    } else {
      RefillMonotone(c, 0, 0);
    }
  }

  lemma LevelGrows(c: Config, entries: Entries, key: string, now: int, later: int)
    requires c.Valid() && now <= later
    ensures Level(c, entries, key, now) <= Level(c, entries, key, later)
    ensures Level(c, entries, key, later) <= Level(c, entries, key, now) + Refill(c, later - now)
  {
    RefillMonotone(c, 0, later - now);
    if key in entries {
      TokensGrow(c, entries[key].bucket, now, later);
    }
  }

  lemma LevelSpent(c: Config, entries: Entries, step: Step, key: string)
    requires c.Valid()
    ensures var (next, answer) := Next(c, entries, step, false);
      Level(c, next, key, step.now) ==
      Level(c, entries, key, step.now) - if step.Call? && step.key == key && answer.value.allowed then 1.0 else 0.0
  {
    RefillMonotone(c, 0, 0);
    TokensCapped(c, entries, key, step.now);
  }

  lemma {:induction false} AlwaysSound(c: Config, steps: seq<Step>, now: int)
    requires c.Valid() && Monotone(steps) && EndsBy(steps, now)
    ensures Sound(c, After(c, steps, false), now)
  {
    if steps != [] {
      AlwaysSound(c, steps[..|steps| - 1], steps[|steps| - 1].now);
      SoundStep(c, After(c, steps[..|steps| - 1], false), steps[|steps| - 1], false);
    }
  }

  /** In any window of a run, with evictions inside it, a key is allowed at most burst + rate * length calls. */
  lemma WindowBound(c: Config, past: seq<Step>, window: seq<Step>, future: seq<Step>, key: string)
    requires c.Valid() && Refill(c, c.ttl + 1) >= c.burst as real
    requires Monotone(past + window + future) && window != []
    ensures var answers := Answers(c, past + window + future, true);
      Allowed(window, answers[|past|..|past + window|], key) as real
      <= c.burst as real + Refill(c, window[|window| - 1].now - window[0].now)
  {
    var head := past + window;
    var last := window[|window| - 1].now;
    var steps := head + future;
    MonotonePrefix(head, future);
    RunsAgree(c, steps, steps[|steps| - 1].now);
    AnswersPrefix(c, head, future, false);
    assert Answers(c, steps, true)[|past|..|head|] == Answers(c, head, false)[|past|..];
    LevelPays(c, past, window, key);
    LevelNonNegative(c, head, key, last);
  }

  lemma LevelNonNegative(c: Config, steps: seq<Step>, key: string, now: int)
    requires c.Valid() && Monotone(steps) && EndsBy(steps, now)
    ensures Level(c, After(c, steps, false), key, now) >= 0.0
  {
    AlwaysSound(c, steps, now);
    if key in After(c, steps, false) {
      TokensInRange(c, After(c, steps, false)[key].bucket, now);
    }
  }

  /** The Retry-After hint is exact: left alone, the key is allowed again from that moment on and no sooner. */
  lemma RetryAfterIsExact(c: Config, b: Bucket, now: int, later: int)
    requires c.Valid() && now <= later && !Take(c, b, now).1.allowed
    ensures var (after, answer) := Take(c, b, now);
      Take(c, after, later).1.allowed <==> (later - now) as real >= answer.wait
  {
    var t := Tokens(c, b, now);
    var d := (later - now) as real;
    assert c.rate * ((1.0 - t) / c.rate) == 1.0 - t;
    if d >= (1.0 - t) / c.rate {
      assert c.rate * d >= c.rate * ((1.0 - t) / c.rate);
    } else {
      assert c.rate * d < c.rate * ((1.0 - t) / c.rate);
    }
  }
}
