/**
  The fixed-window rate limiter: every call issues a few Redis commands, and calls from several
  instances interleave command by command.  One throttle key is modelled; keys are independent.
 */
module Throttler {
  import opened Platforms

  type CallId = nat

  /** Durations in milliseconds. */
  datatype Config = Config(ttl: nat, limit: nat, blockDuration: nat)

  /** The hit key. `life` numbers the successive lives of the key and `born` is when this one began. */
  datatype Counter = Counter(count: nat, expiresAt: Option<int>, life: nat, born: int)

  /** Where a call stands between two commands. */
  datatype Call = Idle | Passed | First | Refusing

  /** One INCR: when, in which life of the key, and what it returned. */
  datatype Hit = Hit(at: int, life: nat, total: nat)

  datatype State = State(
    now: int, counter: Option<Counter>, blockedUntil: Option<int>, calls: map<CallId, Call>, log: seq<Hit>, lives: nat)

  datatype Step =
    | Tick(ms: nat)
    | Check(c: CallId)
    | Incr(c: CallId)
    | Expire(c: CallId)
    | Block(c: CallId)
    | Crash(c: CallId)

  function CallOf(s: State, c: CallId): Call {
    if c in s.calls then s.calls[c] else Idle
  }

  /** `pttl(blockKey) > 0`. */
  predicate BlockLives(s: State) {
    s.blockedUntil.Some? && s.now < s.blockedUntil.value
  }

  predicate CounterLives(s: State) {
    s.counter.Some? && (s.counter.value.expiresAt.None? || s.now < s.counter.value.expiresAt.value)
  }

  predicate Unblocked(h: Hit, limit: nat) {
    h.total <= limit
  }

  /** What follows once the hit is counted and its expiry set. */
  function AfterCount(cfg: Config, total: nat): Call {
    if total > cfg.limit && cfg.blockDuration > 0 then Refusing else Idle
  }

  function Counted(s: State): Counter {
    if CounterLives(s) then s.counter.value.(count := s.counter.value.count + 1)
    else Counter(1, None, s.lives, s.now)
  }

  function DoIncr(cfg: Config, s: State, c: CallId): State {
    var k := Counted(s);
    s.(counter := Some(k),
       lives := k.life + 1,
       log := s.log + [Hit(s.now, k.life, k.count)],
       calls := s.calls[c := if k.count == 1 then First else AfterCount(cfg, k.count)])
  }

  function DoExpire(cfg: Config, s: State, c: CallId): State {
    s.(counter := if CounterLives(s) then Some(s.counter.value.(expiresAt := Some(s.now + cfg.ttl))) else s.counter,
       calls := s.calls[c := AfterCount(cfg, 1)])
  }

  function Next(cfg: Config, s: State, step: Step): State {
    match step
    case Tick(ms) => s.(now := s.now + ms)
    case Check(c) => if CallOf(s, c).Idle? && !BlockLives(s) then s.(calls := s.calls[c := Passed]) else s
    case Incr(c) => if CallOf(s, c).Passed? then DoIncr(cfg, s, c) else s
    case Expire(c) => if CallOf(s, c).First? then DoExpire(cfg, s, c) else s
    case Block(c) =>
      if CallOf(s, c).Refusing? then s.(blockedUntil := Some(s.now + cfg.blockDuration), calls := s.calls[c := Idle])
      else s
    case Crash(c) => s.(calls := s.calls[c := Idle])
  }

  function Run(cfg: Config, s: State, steps: seq<Step>): State
    decreases |steps|
  {
    if steps == [] then s else Run(cfg, Next(cfg, s, steps[0]), steps[1..])
  }

  // ---------------------------------------------------------------- the invariant

  /** Hits come in time order, lives in order, and within a life the totals count up. */
  ghost predicate LogOrdered(log: seq<Hit>) {
    forall i, j | 0 <= i < j < |log| ::
      && log[i].at <= log[j].at && log[i].life <= log[j].life
      && (log[i].life == log[j].life ==> log[i].total < log[j].total)
  }

  /** Two hits two lives apart, or one life apart if the earlier begun its life, are a window apart. */
  ghost predicate LivesApart(log: seq<Hit>, ttl: nat) {
    forall i, j | 0 <= i < j < |log| && Apart(log[i], log[j].life) :: log[i].at + ttl <= log[j].at
  }

  predicate Apart(h: Hit, life: nat) {
    h.life + 2 <= life || (h.life < life && h.total == 1)
  }

  ghost predicate CounterOk(s: State, ttl: nat, k: Counter) {
    && k.life + 1 == s.lives && k.born <= s.now && k.count >= 1
    && (k.expiresAt.Some? ==> k.born + ttl <= k.expiresAt.value <= s.now + ttl)
    && (forall i | 0 <= i < |s.log| :: HitOk(s.log[i], k, ttl))
  }

  /** A hit against the key's present life. */
  ghost predicate HitOk(h: Hit, k: Counter, ttl: nat) {
    && h.life <= k.life
    && (h.life == k.life ==> k.born <= h.at && h.total <= k.count && (h.total == 1 ==> h.at == k.born))
    && (h.life < k.life ==> h.at <= k.born)
    && (Apart(h, k.life) ==> h.at + ttl <= k.born)
  }

  /** Only the call that created the key is still to set its expiry. */
  ghost predicate PendingExpiry(s: State) {
    && (forall c | c in s.calls && s.calls[c].First? :: s.counter.Some? && s.counter.value.expiresAt.None?)
    && (forall c, d | c in s.calls && d in s.calls && s.calls[c].First? && s.calls[d].First? :: c == d)
  }

  ghost predicate Inv(s: State, ttl: nat) {
    && LogOrdered(s.log) && LivesApart(s.log, ttl) && PendingExpiry(s)
    && (forall i | 0 <= i < |s.log| :: s.log[i].at <= s.now && s.log[i].total >= 1)
    && (s.counter.None? ==> s.log == [] && s.lives == 0)
    && (s.counter.Some? ==> CounterOk(s, ttl, s.counter.value))
  }

  ghost predicate Init(s: State) {
    s.counter.None? && s.log == [] && s.lives == 0 && forall c | c in s.calls :: s.calls[c].Idle?
  }

  lemma InitInv(s: State, ttl: nat)
    requires Init(s)
    ensures Inv(s, ttl)
  {
  }

  /** The counter after INCR, against an earlier hit: a new life begins only after a full window. */
  lemma CountedOk(s: State, ttl: nat, i: nat)
    requires Inv(s, ttl) && i < |s.log|
    ensures HitOk(s.log[i], Counted(s), ttl)
    ensures s.log[i].life == Counted(s).life ==> s.log[i].total < Counted(s).count
    ensures Apart(s.log[i], Counted(s).life) ==> s.log[i].at + ttl <= s.now
  {
    assert HitOk(s.log[i], s.counter.value, ttl);
  }

  lemma LogGrows(s: State, ttl: nat)
    requires Inv(s, ttl)
    ensures var h := Hit(s.now, Counted(s).life, Counted(s).count);
            LogOrdered(s.log + [h]) && LivesApart(s.log + [h], ttl)
  {
    forall i | 0 <= i < |s.log|
      ensures s.log[i].life <= Counted(s).life
      ensures s.log[i].life == Counted(s).life ==> s.log[i].total < Counted(s).count
      ensures Apart(s.log[i], Counted(s).life) ==> s.log[i].at + ttl <= s.now
    {
      CountedOk(s, ttl, i);
    }
  }

  lemma CounterGrows(cfg: Config, s: State, c: CallId)
    requires Inv(s, cfg.ttl) && CallOf(s, c).Passed?
    ensures CounterOk(DoIncr(cfg, s, c), cfg.ttl, Counted(s))
  {
    var t, k := DoIncr(cfg, s, c), Counted(s);
    forall i | 0 <= i < |t.log| ensures HitOk(t.log[i], k, cfg.ttl) {
      if i < |s.log| {
        CountedOk(s, cfg.ttl, i);
      }
    }
  }

  lemma IncrKeeps(cfg: Config, s: State, c: CallId)
    requires Inv(s, cfg.ttl) && CallOf(s, c).Passed?
    ensures Inv(DoIncr(cfg, s, c), cfg.ttl)
  {
    var t := DoIncr(cfg, s, c);
    LogGrows(s, cfg.ttl);
    CounterGrows(cfg, s, c);
    assert t.counter == Some(Counted(s));
    assert PendingExpiry(t);
  }

  lemma NextKeeps(cfg: Config, s: State, step: Step)
    requires Inv(s, cfg.ttl)
    ensures Inv(Next(cfg, s, step), cfg.ttl)
  {
    if step.Incr? && CallOf(s, step.c).Passed? {
      IncrKeeps(cfg, s, step.c);
    }
  }

  lemma {:induction false} RunKeeps(cfg: Config, s: State, steps: seq<Step>)
    requires Inv(s, cfg.ttl)
    ensures Inv(Run(cfg, s, steps), cfg.ttl)
    decreases |steps|
  {
    if steps != [] {
      NextKeeps(cfg, s, steps[0]);
      RunKeeps(cfg, Next(cfg, s, steps[0]), steps[1..]);
    }
  }

  // ---------------------------------------------------------------- the limits

  /** Hits of one life whose totals lie between `least` and `limit`. */
  function PassedInLife(log: seq<Hit>, life: nat, least: nat, limit: nat): nat {
    if log == [] then 0 else
    var before, h := PassedInLife(log[..|log| - 1], life, least, limit), log[|log| - 1];
    if h.life == life && least <= h.total && Unblocked(h, limit) then before + 1 else before
  }

  /** Hits let through in the `length` milliseconds from `start` on. */
  function PassedInWindow(log: seq<Hit>, start: int, length: nat, limit: nat): nat {
    if log == [] then 0 else
    var before, h := PassedInWindow(log[..|log| - 1], start, length, limit), log[|log| - 1];
    if InWindow(h, start, length) && Unblocked(h, limit) then before + 1 else before
  }

  predicate InWindow(h: Hit, start: int, length: nat) {
    start <= h.at < start + length
  }

  lemma {:induction false} PassedUpTo(log: seq<Hit>, life: nat, least: nat, limit: nat, most: nat)
    requires LogOrdered(log) && least >= 1
    requires forall i | 0 <= i < |log| && log[i].life == life :: log[i].total <= most
    ensures PassedInLife(log, life, least, limit) + least <= most + 1 || PassedInLife(log, life, least, limit) == 0
    ensures PassedInLife(log, life, least, limit) + least <= limit + 1 || PassedInLife(log, life, least, limit) == 0
  {
    if log != [] {
      var n := |log| - 1;
      var h := log[n];
      PassedUpTo(log[..n], life, least, limit, most);
      if h.life == life && least <= h.total && Unblocked(h, limit) {
        PassedUpTo(log[..n], life, least, limit, h.total - 1);
      }
    }
  }

  lemma MostTotal(log: seq<Hit>) returns (most: nat)
    ensures forall i | 0 <= i < |log| :: log[i].total <= most
  {
    most := 0;
    for n := 0 to |log|
      invariant forall i | 0 <= i < n :: log[i].total <= most
    {
      most := if log[n].total > most then log[n].total else most;
    }
  }

  lemma TotalsPerLife(log: seq<Hit>, life: nat, least: nat, limit: nat)
    requires LogOrdered(log) && 1 <= least
    ensures PassedInLife(log, life, least, limit) == 0 || PassedInLife(log, life, least, limit) + least <= limit + 1
  {
    var most := MostTotal(log);
    PassedUpTo(log, life, least, limit, most);
  }

  /** Between the creation of the hit key and its expiry at most `limit` hits pass. */
  lemma LimitPerLife(cfg: Config, s: State, steps: seq<Step>, life: nat)
    requires Init(s)
    ensures PassedInLife(Run(cfg, s, steps).log, life, 1, cfg.limit) <= cfg.limit
  {
    InitInv(s, cfg.ttl);
    RunKeeps(cfg, s, steps);
    TotalsPerLife(Run(cfg, s, steps).log, life, 1, cfg.limit);
  }

  /** A window sees the tail of one life, from total `least` on, and perhaps the next life. */
  lemma {:induction false} WindowInTwoLives(log: seq<Hit>, start: int, length: nat, limit: nat, life: nat, least: nat)
    requires forall i | 0 <= i < |log| && InWindow(log[i], start, length) ::
      log[i].total >= 1 && ((log[i].life == life && least <= log[i].total) || log[i].life == life + 1)
    ensures PassedInWindow(log, start, length, limit)
         <= PassedInLife(log, life, least, limit) + PassedInLife(log, life + 1, 1, limit)
  {
    if log != [] {
      WindowInTwoLives(log[..|log| - 1], start, length, limit, life, least);
    }
  }

  /** If a window sees the hit that begun a life, it sees no later life. */
  lemma {:induction false} WindowInOneLife(log: seq<Hit>, start: int, length: nat, limit: nat, life: nat)
    requires forall i | 0 <= i < |log| && InWindow(log[i], start, length) :: log[i].total >= 1 && log[i].life == life
    ensures PassedInWindow(log, start, length, limit) <= PassedInLife(log, life, 1, limit)
  {
    if log != [] {
      WindowInOneLife(log[..|log| - 1], start, length, limit, life);
    }
  }

  /** The index of the first hit inside a window; the log's length when there is none. */
  function FirstIn(log: seq<Hit>, n: nat, start: int, length: nat): (i: nat)
    requires n <= |log|
    ensures i <= n && forall j | 0 <= j < i :: !InWindow(log[j], start, length)
    ensures i < n ==> InWindow(log[i], start, length)
  {
    if n == 0 then 0
    else
      var i := FirstIn(log, n - 1, start, length);
      if i < n - 1 || InWindow(log[n - 1], start, length) then i else n
  }

  /** Any run of hits in good order lets at most 2 * limit - 1 through per window. */
  lemma WindowBound(log: seq<Hit>, start: int, ttl: nat, limit: nat)
    requires LogOrdered(log) && LivesApart(log, ttl) && forall i | 0 <= i < |log| :: log[i].total >= 1
    ensures PassedInWindow(log, start, ttl, limit) <= if limit == 0 then 0 else 2 * limit - 1
  {
    var i := FirstIn(log, |log|, start, ttl);
    var life := if i < |log| then log[i].life else 0;
    TotalsPerLife(log, life, 1, limit);
    TotalsPerLife(log, life, 2, limit);
    TotalsPerLife(log, life + 1, 1, limit);
    if i == |log| || log[i].total == 1 {
      WindowInOneLife(log, start, ttl, limit, life);
    } else {
      WindowInTwoLives(log, start, ttl, limit, life, 2);
    }
  }

  /**
    In any interval of one window's length at most 2 * limit - 1 hits pass, however the calls interleave
    and wherever they crash.
   */
  lemma LimitPerWindow(cfg: Config, s: State, steps: seq<Step>, start: int)
    requires Init(s)
    ensures PassedInWindow(Run(cfg, s, steps).log, start, cfg.ttl, cfg.limit)
         <= if cfg.limit == 0 then 0 else 2 * cfg.limit - 1
  {
    InitInv(s, cfg.ttl);
    RunKeeps(cfg, s, steps);
    WindowBound(Run(cfg, s, steps).log, start, cfg.ttl, cfg.limit);
  }

  ghost predicate Reaches(cfg: Config, s: State, t: State) {
    exists steps :: Run(cfg, s, steps) == t
  }

  lemma {:induction false} RunThen(cfg: Config, s: State, steps: seq<Step>, step: Step)
    ensures Run(cfg, s, steps + [step]) == Next(cfg, Run(cfg, s, steps), step)
    decreases |steps|
  {
    if steps == [] {
      assert Run(cfg, Next(cfg, s, step), []) == Next(cfg, s, step);
      assert [] + [step] == [step];
    } else {
      assert (steps + [step])[1..] == steps[1..] + [step];
      RunThen(cfg, Next(cfg, s, steps[0]), steps[1..], step);
    }
  }

  lemma Reach(cfg: Config, s: State, t: State, step: Step)
    requires Reaches(cfg, s, t)
    ensures Reaches(cfg, s, Next(cfg, t, step))
  {
    var steps :| Run(cfg, s, steps) == t;
    RunThen(cfg, s, steps, step);
  }

  /** The state after `n` more hits of the idle call 0, all at this instant. */
  function AfterHits(t: State, n: nat): State
    requires t.counter.Some?
  {
    if n == 0 then t else
    var before := AfterHits(t, n - 1);
    var k := before.counter.value;
    before.(counter := Some(k.(count := k.count + 1)), log := before.log + [Hit(t.now, k.life, k.count + 1)])
  }

  lemma {:induction false} AfterHitsAre(t: State, n: nat)
    requires t.counter.Some?
    ensures var u := AfterHits(t, n);
            && u.now == t.now && u.calls == t.calls && u.blockedUntil == t.blockedUntil && u.lives == t.lives
            && u.counter == Some(t.counter.value.(count := t.counter.value.count + n))
  {
    if n > 0 {
      AfterHitsAre(t, n - 1);
    }
  }

  /** Call 0 is idle, nothing is blocked, and the key lives with its expiry set. */
  ghost predicate Calm(t: State) {
    && t.calls == map[0 := Idle] && t.blockedUntil.None?
    && CounterLives(t) && t.counter.value.expiresAt.Some? && t.lives == t.counter.value.life + 1
    && t.counter.value.count >= 1
  }

  lemma {:induction false} ReachHits(cfg: Config, s: State, t: State, n: nat)
    requires Reaches(cfg, s, t) && Calm(t) && t.counter.value.count + n <= cfg.limit
    ensures Reaches(cfg, s, AfterHits(t, n))
  {
    if n > 0 {
      var u := AfterHits(t, n - 1);
      ReachHits(cfg, s, t, n - 1);
      AfterHitsAre(t, n - 1);
      Reach(cfg, s, u, Check(0));
      var v := u.(calls := map[0 := Passed]);
      assert Next(cfg, u, Check(0)) == v;
      Reach(cfg, s, v, Incr(0));
      assert Next(cfg, v, Incr(0)) == AfterHits(t, n);
    }
  }

  lemma OneMoreHit(log: seq<Hit>, h: Hit, start: int, length: nat, limit: nat)
    ensures PassedInWindow(log + [h], start, length, limit)
         == PassedInWindow(log, start, length, limit)
            + (if InWindow(h, start, length) && Unblocked(h, limit) then 1 else 0)
  {
    assert (log + [h])[..|log|] == log;
  }

  lemma LastOfHits(t: State, n: nat)
    requires t.counter.Some? && n > 0
    ensures AfterHits(t, n).log
         == AfterHits(t, n - 1).log + [Hit(t.now, t.counter.value.life, t.counter.value.count + n)]
  {
    AfterHitsAre(t, n - 1);
  }

  lemma {:induction false} HitsPass(t: State, n: nat, start: int, length: nat, limit: nat)
    requires t.counter.Some? && t.counter.value.count + n <= limit && InWindow(Hit(t.now, 0, 1), start, length)
    ensures PassedInWindow(AfterHits(t, n).log, start, length, limit) == PassedInWindow(t.log, start, length, limit) + n
  {
    if n > 0 {
      HitsPass(t, n - 1, start, length, limit);
      LastOfHits(t, n);
      var h := Hit(t.now, t.counter.value.life, t.counter.value.count + n);
      OneMoreHit(AfterHits(t, n - 1).log, h, start, length, limit);
      assert InWindow(h, start, length) && Unblocked(h, limit);
    }
  }

  /** The first hit of a new life, with its expiry. */
  lemma ReachFirst(cfg: Config, s: State, t: State)
    requires Reaches(cfg, s, t) && t.calls == map[0 := Idle] && t.blockedUntil.None? && !CounterLives(t)
    requires cfg.limit >= 1 && cfg.ttl >= 1
    ensures Reaches(cfg, s, Opened(cfg, t)) && Calm(Opened(cfg, t))
  {
    var v := t.(calls := map[0 := Passed]);
    Reach(cfg, s, t, Check(0));
    assert Next(cfg, t, Check(0)) == v;
    Reach(cfg, s, v, Incr(0));
    Reach(cfg, s, Next(cfg, v, Incr(0)), Expire(0));
    assert Next(cfg, Next(cfg, v, Incr(0)), Expire(0)) == Opened(cfg, t);
  }

  function Opened(cfg: Config, t: State): State {
    t.(counter := Some(Counter(1, Some(t.now + cfg.ttl), t.lives, t.now)), lives := t.lives + 1,
       log := t.log + [Hit(t.now, t.lives, 1)])
  }

  const EMPTY := State(0, None, None, map[0 := Idle], [], 0)

  /** One hit at 0, then nothing until a millisecond before its expiry. */
  function Waited(cfg: Config): State {
    Opened(cfg, EMPTY).(now := cfg.ttl - 1)
  }

  /** Then the rest of the limit, and the expiry. */
  function Expired(cfg: Config): State
    requires cfg.limit >= 1
  {
    AfterHits(Waited(cfg), cfg.limit - 1).(now := cfg.ttl)
  }

  /** Then at once a full limit in the key's next life. */
  function TightRun(cfg: Config): State
    requires cfg.limit >= 1
  {
    AfterHits(Opened(cfg, Expired(cfg)), cfg.limit - 1)
  }

  lemma ExpiredReached(cfg: Config)
    requires cfg.limit >= 1 && cfg.ttl >= 2
    ensures Reaches(cfg, EMPTY, Expired(cfg)) && !CounterLives(Expired(cfg))
    ensures Expired(cfg).calls == map[0 := Idle] && Expired(cfg).blockedUntil.None?
  {
    assert Run(cfg, EMPTY, []) == EMPTY;
    ReachFirst(cfg, EMPTY, EMPTY);
    Reach(cfg, EMPTY, Opened(cfg, EMPTY), Tick(cfg.ttl - 1));
    ReachHits(cfg, EMPTY, Waited(cfg), cfg.limit - 1);
    AfterHitsAre(Waited(cfg), cfg.limit - 1);
    Reach(cfg, EMPTY, AfterHits(Waited(cfg), cfg.limit - 1), Tick(1));
  }

  lemma TightReached(cfg: Config)
    requires cfg.limit >= 1 && cfg.ttl >= 2
    ensures Reaches(cfg, EMPTY, TightRun(cfg))
  {
    ExpiredReached(cfg);
    ReachFirst(cfg, EMPTY, Expired(cfg));
    ReachHits(cfg, EMPTY, Opened(cfg, Expired(cfg)), cfg.limit - 1);
  }

  lemma OpeningOutside(start: int, length: nat, limit: nat)
    requires start >= 1
    ensures PassedInWindow([Hit(0, 0, 1)], start, length, limit) == 0
  {
    OneMoreHit([], Hit(0, 0, 1), start, length, limit);
    assert [] + [Hit(0, 0, 1)] == [Hit(0, 0, 1)];
  }

  lemma WaitedCount(cfg: Config)
    requires cfg.limit >= 1 && cfg.ttl >= 2
    ensures PassedInWindow(Expired(cfg).log, cfg.ttl - 1, cfg.ttl, cfg.limit) == cfg.limit - 1
  {
    OpeningOutside(cfg.ttl - 1, cfg.ttl, cfg.limit);
    assert Waited(cfg).log == [Hit(0, 0, 1)];
    HitsPass(Waited(cfg), cfg.limit - 1, cfg.ttl - 1, cfg.ttl, cfg.limit);
  }

  lemma TightCount(cfg: Config)
    requires cfg.limit >= 1 && cfg.ttl >= 2
    ensures PassedInWindow(TightRun(cfg).log, cfg.ttl - 1, cfg.ttl, cfg.limit) == 2 * cfg.limit - 1
  {
    WaitedCount(cfg);
    var again := Opened(cfg, Expired(cfg));
    OneMoreHit(Expired(cfg).log, Hit(cfg.ttl, Expired(cfg).lives, 1), cfg.ttl - 1, cfg.ttl, cfg.limit);
    HitsPass(again, cfg.limit - 1, cfg.ttl - 1, cfg.ttl, cfg.limit);
  }

  /** For every limit, and every window of at least two milliseconds, a run meets the bound. */
  lemma BoundIsTight(cfg: Config)
    requires cfg.limit >= 1 && cfg.ttl >= 2
    ensures exists s, t :: Init(s) && Reaches(cfg, s, t)
              && PassedInWindow(t.log, cfg.ttl - 1, cfg.ttl, cfg.limit) == 2 * cfg.limit - 1
  {
    TightReached(cfg);
    TightCount(cfg);
    assert Init(EMPTY);
  }

  // ---------------------------------------------------------------- the block

  /** Nobody is between a passed block check and the count that follows it. */
  ghost predicate NonePassed(s: State) {
    forall c | c in s.calls :: !s.calls[c].Passed?
  }

  lemma {:induction false} TimeGoesOn(cfg: Config, s: State, steps: seq<Step>)
    ensures s.now <= Run(cfg, s, steps).now
    decreases |steps|
  {
    if steps != [] {
      TimeGoesOn(cfg, Next(cfg, s, steps[0]), steps[1..]);
    }
  }

  /** An idle call gets past the check exactly when there is no block or its time is over. */
  lemma CheckPassesIff(cfg: Config, s: State, c: CallId)
    ensures CallOf(s, c).Idle? && (s.blockedUntil.None? || s.blockedUntil.value <= s.now)
       <==> Next(cfg, s, Check(c)) != s
    ensures Next(cfg, s, Check(c)) != s ==> Next(cfg, s, Check(c)) == s.(calls := s.calls[c := Passed])
  {
  }

  /** Until a block is over nothing is counted, however the calls interleave; a further block only prolongs it. */
  lemma {:induction false} BlockHolds(cfg: Config, s: State, steps: seq<Step>, until: int)
    requires NonePassed(s) && s.blockedUntil.Some?
    requires until <= s.blockedUntil.value && until <= s.now + cfg.blockDuration
    requires Run(cfg, s, steps).now < until
    ensures Run(cfg, s, steps).log == s.log
    ensures Run(cfg, s, steps).blockedUntil.Some? && until <= Run(cfg, s, steps).blockedUntil.value
    decreases |steps|
  {
    if steps != [] {
      var t := Next(cfg, s, steps[0]);
      TimeGoesOn(cfg, t, steps[1..]);
      BlockHolds(cfg, t, steps[1..], until);
    }
  }

  ghost predicate OverLimit(cfg: Config, log: seq<Hit>) {
    cfg.blockDuration > 0 && exists i :: 0 <= i < |log| && log[i].total > cfg.limit
  }

  /** A refusal, pending or done, goes back to a hit over the limit, of a limiter that blocks. */
  ghost predicate RefusalsEarned(cfg: Config, s: State) {
    && (s.blockedUntil.Some? ==> OverLimit(cfg, s.log))
    && (forall c | c in s.calls ::
          && (s.calls[c].Refusing? ==> OverLimit(cfg, s.log))
          && (s.calls[c].First? ==> s.log != []))
  }

  lemma OverStays(cfg: Config, log: seq<Hit>, longer: seq<Hit>)
    requires OverLimit(cfg, log) && log <= longer
    ensures OverLimit(cfg, longer)
  {
    var i :| 0 <= i < |log| && log[i].total > cfg.limit;
    assert longer[i] == log[i];
  }

  lemma AfterCountEarned(cfg: Config, log: seq<Hit>, i: nat, total: nat)
    requires i < |log| && log[i].total >= total
    ensures AfterCount(cfg, total).Refusing? ==> OverLimit(cfg, log)
    ensures !AfterCount(cfg, total).First?
  {
  }

  lemma RefusalStep(cfg: Config, s: State, step: Step)
    requires Inv(s, cfg.ttl) && RefusalsEarned(cfg, s)
    ensures RefusalsEarned(cfg, Next(cfg, s, step))
  {
    var t := Next(cfg, s, step);
    assert s.log <= t.log;
    if OverLimit(cfg, s.log) {
      OverStays(cfg, s.log, t.log);
    }
    if step.Incr? && CallOf(s, step.c).Passed? {
      AfterCountEarned(cfg, t.log, |s.log|, Counted(s).count);
    } else if step.Expire? && CallOf(s, step.c).First? {
      AfterCountEarned(cfg, t.log, 0, 1);
    }
  }

  /** Nobody is ever blocked before some hit has gone over the limit, nor without a block duration. */
  lemma {:induction false} BlockedOnlyOverLimit(cfg: Config, s: State, steps: seq<Step>)
    requires Inv(s, cfg.ttl) && RefusalsEarned(cfg, s)
    ensures RefusalsEarned(cfg, Run(cfg, s, steps))
    decreases |steps|
  {
    if steps != [] {
      NextKeeps(cfg, s, steps[0]);
      RefusalStep(cfg, s, steps[0]);
      BlockedOnlyOverLimit(cfg, Next(cfg, s, steps[0]), steps[1..]);
    }
  }

  // ---------------------------------------------------------------- a call that dies between two commands

  /** The key lives without an expiry and no call is left that would set one. */
  ghost predicate Stuck(s: State) {
    && s.counter.Some? && s.counter.value.expiresAt.None?
    && forall c | c in s.calls :: !s.calls[c].First?
  }

  lemma StuckStep(cfg: Config, s: State, step: Step)
    requires Stuck(s) && s.counter.value.count >= 1
    ensures var t := Next(cfg, s, step);
            Stuck(t) && t.counter.value.life == s.counter.value.life && t.counter.value.count >= s.counter.value.count
  {
  }

  /** It stays so forever: the window never ends. */
  lemma {:induction false} StuckForever(cfg: Config, s: State, steps: seq<Step>)
    requires Stuck(s) && s.counter.value.count >= 1
    ensures Stuck(Run(cfg, s, steps)) && Run(cfg, s, steps).counter.value.life == s.counter.value.life
    decreases |steps|
  {
    if steps != [] {
      StuckStep(cfg, s, steps[0]);
      StuckForever(cfg, Next(cfg, s, steps[0]), steps[1..]);
    }
  }

  /** Once its count has reached the limit, no hit ever passes again. */
  lemma {:induction false} LockedOut(cfg: Config, s: State, steps: seq<Step>)
    requires Stuck(s) && s.counter.value.count >= cfg.limit && s.counter.value.count >= 1
    ensures s.log <= Run(cfg, s, steps).log
    ensures forall i | |s.log| <= i < |Run(cfg, s, steps).log| :: !Unblocked(Run(cfg, s, steps).log[i], cfg.limit)
    decreases |steps|
  {
    if steps != [] {
      var t := Next(cfg, s, steps[0]);
      StuckStep(cfg, s, steps[0]);
      assert s.log <= t.log;
      assert forall i | |s.log| <= i < |t.log| :: !Unblocked(t.log[i], cfg.limit);
      LockedOut(cfg, t, steps[1..]);
    }
  }

  ghost predicate CanEnd(cfg: Config, s: State) {
    exists steps :: !CounterLives(Run(cfg, s, steps))
  }

  lemma EndsAfter(cfg: Config, s: State, step: Step)
    requires CanEnd(cfg, Next(cfg, s, step))
    ensures CanEnd(cfg, s)
  {
    var t := Next(cfg, s, step);
    var steps :| !CounterLives(Run(cfg, t, steps));
    assert ([step] + steps)[1..] == steps;
    assert Run(cfg, s, [step] + steps) == Run(cfg, t, steps);
  }

  /** A key whose expiry is set ends when its time has passed. */
  lemma SetExpiryEnds(cfg: Config, s: State)
    requires s.counter.Some? && s.counter.value.expiresAt.Some?
    ensures CanEnd(cfg, s)
  {
    var e := s.counter.value.expiresAt.value;
    var wait := if e > s.now then e - s.now else 0;
    var t := Next(cfg, s, Tick(wait));
    assert Run(cfg, t, []) == t && !CounterLives(t);
    EndsAfter(cfg, s, Tick(wait));
  }

  /** The window can still end exactly when the key is not stuck. */
  lemma EndsIff(cfg: Config, s: State)
    requires Inv(s, cfg.ttl)
    ensures CanEnd(cfg, s) <==> !Stuck(s)
  {
    if Stuck(s) {
      forall steps ensures CounterLives(Run(cfg, s, steps)) {
        StuckForever(cfg, s, steps);
      }
    } else if s.counter.None? {
      assert Run(cfg, s, []) == s;
    } else if s.counter.value.expiresAt.Some? {
      SetExpiryEnds(cfg, s);
    } else {
      var c :| c in s.calls && s.calls[c].First?;
      var t := Next(cfg, s, Expire(c));
      SetExpiryEnds(cfg, t);
      EndsAfter(cfg, s, Expire(c));
    }
  }

  /** Whoever counts the first hit and crashes before setting the expiry leaves the key like that. */
  lemma CrashLeavesStuck(cfg: Config, s: State, c: CallId)
    requires Inv(s, cfg.ttl) && CallOf(s, c).Passed? && !CounterLives(s)
    ensures Stuck(Next(cfg, Next(cfg, s, Incr(c)), Crash(c)))
  {
    var t := DoIncr(cfg, s, c);
    IncrKeeps(cfg, s, c);
    assert t.calls[c].First?;
  }

  // ---------------------------------------------------------------- the storage service

  predicate ByCall(step: Step, c: CallId) {
    match step
    case Tick(_) => false
    case Check(d) => d == c
    case Incr(d) => d == c
    case Expire(d) => d == c
    case Block(d) => d == c
    case Crash(d) => d == c
  }

  lemma {:induction false} OthersLeaveCall(cfg: Config, s: State, steps: seq<Step>, c: CallId)
    requires forall i | 0 <= i < |steps| :: !ByCall(steps[i], c)
    ensures CallOf(Run(cfg, s, steps), c) == CallOf(s, c)
    decreases |steps|
  {
    if steps != [] {
      OthersLeaveCall(cfg, Next(cfg, s, steps[0]), steps[1..], c);
    }
  }

  lemma {:induction false} RunAppend(cfg: Config, s: State, a: seq<Step>, b: seq<Step>)
    ensures Run(cfg, s, a + b) == Run(cfg, Run(cfg, s, a), b)
    decreases |a|
  {
    if a == [] {
      assert a + b == b;
    } else {
      assert (a + b)[1..] == a[1..] + b;
      RunAppend(cfg, Next(cfg, s, a[0]), a[1..], b);
    }
  }

  lemma {:induction false} LogKept(cfg: Config, s: State, steps: seq<Step>)
    ensures s.log <= Run(cfg, s, steps).log
    decreases |steps|
  {
    if steps != [] {
      assert s.log <= Next(cfg, s, steps[0]).log;
      LogKept(cfg, Next(cfg, s, steps[0]), steps[1..]);
    }
  }

  /** `pttl(hitKey)`: -2 without the key, -1 without an expiry. */
  function HitTtl(s: State): int {
    if !CounterLives(s) then -2
    else if s.counter.value.expiresAt.None? then -1
    else s.counter.value.expiresAt.value - s.now
  }

  /** Whole seconds, rounded up. */
  function CeilSeconds(ms: nat): (seconds: nat)
    ensures 1000 * (seconds - 1) < ms <= 1000 * seconds
  {
    (ms + 999) / 1000
  }

  datatype Record = Record(totalHits: nat, timeToExpire: int, isBlocked: bool, timeToBlockExpire: int)

  /** Counted in whole seconds, rounded up, the seconds cover the milliseconds. */
  predicate Covers(seconds: int, ms: int) {
    1000 * (seconds - 1) < ms <= 1000 * seconds
  }

  /** The time told: what is left of the key's life or, where it has no expiry to go by, a whole window. */
  ghost predicate TellsRemaining(record: Record, s: State, ttl: nat) {
    if CounterLives(s) && s.counter.value.expiresAt.Some?
    then Covers(record.timeToExpire, s.counter.value.expiresAt.value - s.now)
    else Covers(record.timeToExpire, ttl)
  }

  /** What a call that passes the block check does up to reading the remaining time, the others in between. */
  function Counting(me: CallId, gaps: seq<seq<Step>>, total: nat): seq<Step>
    requires |gaps| == 4
  {
    [Check(me)] + gaps[0] + ([Incr(me)] + gaps[1]) + if total == 1 then [Expire(me)] + gaps[2] else []
  }

  /** And with the block key, when it refuses. */
  function Whole(cfg: Config, me: CallId, gaps: seq<seq<Step>>, total: nat): seq<Step>
    requires |gaps| == 4
  {
    Counting(me, gaps, total) + if total > cfg.limit && cfg.blockDuration > 0 then gaps[3] + [Block(me)] else []
  }

  class RedisThrottlerStorage {
    const cfg: Config
    var redis: State

    constructor (cfg: Config, redis: State)
      ensures this.cfg == cfg && this.redis == redis
    {
      this.cfg, this.redis := cfg, redis;
    }

    /** One command of call `me`, after which other calls run for a while. */
    method Command(step: Step, me: CallId, gap: seq<Step>, ghost start: State, ghost done: seq<Step>)
        returns (ghost steps: seq<Step>)
      requires redis == Run(cfg, start, done)
      requires forall i | 0 <= i < |gap| :: !ByCall(gap[i], me)
      modifies this
      ensures redis == Run(cfg, start, steps) && steps == done + ([step] + gap)
      ensures CallOf(redis, me) == CallOf(Next(cfg, old(redis), step), me)
      ensures Next(cfg, old(redis), step).log <= redis.log
      ensures gap == [] ==> redis == Next(cfg, old(redis), step)
    {
      ghost var next := Next(cfg, redis, step);
      RunThen(cfg, start, done, step);
      RunAppend(cfg, start, done + [step], gap);
      OthersLeaveCall(cfg, next, gap, me);
      LogKept(cfg, next, gap);
      steps := done + [step] + gap;
      Perform([step] + gap);
      assert ([step] + gap)[1..] == gap;
    }

    /** Other calls run while this one awaits a reading. */
    method Await(me: CallId, gap: seq<Step>, ghost start: State, ghost done: seq<Step>) returns (ghost steps: seq<Step>)
      requires redis == Run(cfg, start, done) && forall i | 0 <= i < |gap| :: !ByCall(gap[i], me)
      modifies this
      ensures redis == Run(cfg, start, steps) && steps == done + gap
      ensures CallOf(redis, me) == CallOf(old(redis), me) && old(redis).log <= redis.log
    {
      RunAppend(cfg, start, done, gap);
      OthersLeaveCall(cfg, redis, gap, me);
      LogKept(cfg, redis, gap);
      steps := done + gap;
      Perform(gap);
    }

    method Perform(steps: seq<Step>)
      modifies this
      ensures redis == Run(cfg, old(redis), steps)
    {
      var s := redis;
      for i := 0 to |steps|
        invariant Run(cfg, s, steps[i..]) == Run(cfg, old(redis), steps)
      {
        assert steps[i..][1..] == steps[i + 1..];
        s := Next(cfg, s, steps[i]);
      }
      redis := s;
    }

    /** INCR: the hit is in the log for good, and the call knows its total. */
    method Count(me: CallId, gap: seq<Step>, ghost start: State, ghost done: seq<Step>)
        returns (total: nat, ghost hit: Hit, ghost steps: seq<Step>)
      requires redis == Run(cfg, start, done) && CallOf(redis, me).Passed?
      requires forall i | 0 <= i < |gap| :: !ByCall(gap[i], me)
      modifies this
      ensures redis == Run(cfg, start, steps) && steps == done + ([Incr(me)] + gap)
      ensures total == Counted(old(redis)).count && hit == Hit(old(redis).now, Counted(old(redis)).life, total)
      ensures |old(redis).log| < |redis.log| && redis.log[|old(redis).log|] == hit
      ensures CallOf(redis, me) == if total == 1 then First else AfterCount(cfg, total)
    {
      total := Counted(redis).count;
      hit := Hit(redis.now, Counted(redis).life, total);
      ghost var before := redis;
      assert Next(cfg, before, Incr(me)) == DoIncr(cfg, before, me);
      steps := Command(Incr(me), me, gap, start, done);
      assert redis.log[|before.log|] == hit;
    }

    /** The expiry that only the first hit of a life sets. */
    method SetExpiry(me: CallId, gap: seq<Step>, ghost start: State, ghost done: seq<Step>)
        returns (ghost steps: seq<Step>)
      requires redis == Run(cfg, start, done) && CallOf(redis, me).First?
      requires forall i | 0 <= i < |gap| :: !ByCall(gap[i], me)
      modifies this
      ensures redis == Run(cfg, start, steps) && steps == done + ([Expire(me)] + gap)
      ensures old(redis).log <= redis.log && CallOf(redis, me) == AfterCount(cfg, 1)
    {
      ghost var before := redis;
      assert Next(cfg, before, Expire(me)) == DoExpire(cfg, before, me);
      steps := Command(Expire(me), me, gap, start, done);
    }

    /** The block key, set some time after the window's remaining time was read. */
    method SetBlock(me: CallId, gap: seq<Step>, ghost start: State, ghost done: seq<Step>)
        returns (ghost steps: seq<Step>)
      requires redis == Run(cfg, start, done) && CallOf(redis, me).Refusing?
      requires forall i | 0 <= i < |gap| :: !ByCall(gap[i], me)
      modifies this
      ensures redis == Run(cfg, start, steps) && steps == done + (gap + [Step.Block(me)])
      ensures old(redis).log <= redis.log && CallOf(redis, me).Idle?
      ensures redis.blockedUntil == Some(redis.now + cfg.blockDuration)
    {
      steps := Await(me, gap, start, done);
      assert steps + ([Step.Block(me)] + []) == done + (gap + [Step.Block(me)]);
      steps := Command(Step.Block(me), me, [], start, steps);
    }

    /** The reply: the window's remaining time, or the whole window when Redis gives none. */
    method Reply(total: nat) returns (record: Record)
      requires Inv(redis, cfg.ttl)
      ensures record.totalHits == total && record.isBlocked == (total > cfg.limit)
      ensures TellsRemaining(record, redis, cfg.ttl) && 0 <= record.timeToExpire <= CeilSeconds(cfg.ttl)
      ensures if record.isBlocked then Covers(record.timeToBlockExpire, cfg.blockDuration)
              else record.timeToBlockExpire == 0
    {
      var remaining := HitTtl(redis);
      record := Record(total, CeilSeconds(if remaining > 0 then remaining else cfg.ttl), total > cfg.limit,
                       if total > cfg.limit then CeilSeconds(cfg.blockDuration) else 0);
    }

    /** Everything behind the block check. */
    method Proceed(me: CallId, gaps: seq<seq<Step>>, ghost start: State, ghost done: seq<Step>)
        returns (record: Record, ghost hit: Hit, ghost steps: seq<Step>, ghost read: State)
      requires redis == Run(cfg, start, done) && CallOf(redis, me).Passed? && Inv(start, cfg.ttl)
      requires |gaps| == 4 && forall g, i | 0 <= g < 4 && 0 <= i < |gaps[g]| :: !ByCall(gaps[g][i], me)
      requires done == [Check(me)] + gaps[0]
      modifies this
      ensures record.totalHits == Counted(old(redis)).count
      ensures steps == Whole(cfg, me, gaps, record.totalHits) && redis == Run(cfg, start, steps)
      ensures CallOf(redis, me).Idle? && read == Run(cfg, start, Counting(me, gaps, record.totalHits))
      ensures hit == Hit(old(redis).now, Counted(old(redis)).life, record.totalHits) && hit in redis.log
      ensures record.isBlocked == (record.totalHits > cfg.limit)
      ensures TellsRemaining(record, read, cfg.ttl) && 0 <= record.timeToExpire <= CeilSeconds(cfg.ttl)
      ensures if record.isBlocked then Covers(record.timeToBlockExpire, cfg.blockDuration)
              else record.timeToBlockExpire == 0
      ensures record.isBlocked && cfg.blockDuration > 0 ==> redis.blockedUntil == Some(redis.now + cfg.blockDuration)
    {
      ghost var at := |redis.log|;
      var total;
      total, hit, steps := Count(me, gaps[1], start, done);
      if total == 1 {
        steps := SetExpiry(me, gaps[2], start, steps);
      }
      assert steps == Counting(me, gaps, total);
      RunKeeps(cfg, start, steps);
      record := Reply(total);
      read := redis;
      if record.isBlocked && cfg.blockDuration > 0 {
        steps := SetBlock(me, gaps[3], start, steps);
      }
      assert steps == Whole(cfg, me, gaps, total);
      assert redis.log[at] == hit;
    }

    /**
      `gaps` are what the other calls do between this call's commands; `hit` is this call's INCR and
      `read` the state in which it read the remaining time.
     */
    method Increment(me: CallId, gaps: seq<seq<Step>>)
        returns (record: Record, ghost hit: Hit, ghost steps: seq<Step>, ghost read: State)
      requires Inv(redis, cfg.ttl) && CallOf(redis, me).Idle? && |gaps| == 4
      requires forall g, i | 0 <= g < 4 && 0 <= i < |gaps[g]| :: !ByCall(gaps[g][i], me)
      modifies this
      ensures Inv(redis, cfg.ttl) && redis == Run(cfg, old(redis), steps) && CallOf(redis, me).Idle?
      ensures BlockLives(old(redis)) ==> record.isBlocked && record.totalHits == cfg.limit + 1 && steps == []
      ensures BlockLives(old(redis)) ==>
        record.timeToExpire == record.timeToBlockExpire
        && Covers(record.timeToExpire, redis.blockedUntil.value - redis.now)
      ensures !BlockLives(old(redis)) ==>
        var counted := Run(cfg, old(redis), [Check(me)] + gaps[0]);
        && record.totalHits == Counted(counted).count && steps == Whole(cfg, me, gaps, record.totalHits)
        && hit == Hit(counted.now, Counted(counted).life, record.totalHits) && hit in redis.log
      ensures !BlockLives(old(redis)) ==>
        && record.isBlocked == (record.totalHits > cfg.limit)
        && read == Run(cfg, old(redis), Counting(me, gaps, record.totalHits))
        && TellsRemaining(record, read, cfg.ttl) && 0 <= record.timeToExpire <= CeilSeconds(cfg.ttl)
      ensures !BlockLives(old(redis)) ==>
        if record.isBlocked then Covers(record.timeToBlockExpire, cfg.blockDuration)
        else record.timeToBlockExpire == 0
      ensures !BlockLives(old(redis)) && record.isBlocked && cfg.blockDuration > 0 ==>
        redis.blockedUntil == Some(redis.now + cfg.blockDuration)
    {
      ghost var start := redis;
      steps, hit, read := [], Hit(redis.now, 0, 0), redis;
      if BlockLives(redis) {
        var left := redis.blockedUntil.value - redis.now;
        return Record(cfg.limit + 1, CeilSeconds(left), true, CeilSeconds(left)), hit, steps, read;
      }
      steps := Command(Check(me), me, gaps[0], start, []);
      assert [] + ([Check(me)] + gaps[0]) == [Check(me)] + gaps[0];
      record, hit, steps, read := Proceed(me, gaps, start, steps);
      RunKeeps(cfg, start, steps);
    }
  }
}
