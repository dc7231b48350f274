/** Tenant quota counters in Redis (apps/control-api/app/quota_state_service.py): fixed-window
    counters with expiries, the legacy hash kept beside them, and the three ways they are read.
    Every read returns what a plain log of the increments says. */
module QuotaCounters {
  import opened Wrappers

  const MICROS := 1_000_000
  const MINUTE := 60 * MICROS
  const DAY := 86_400 * MICROS
  const RPM_TTL := 120 * MICROS
  const TOKENS_TTL := 172_800 * MICROS

  /** Microseconds since the epoch; one clock reading per call. */
  type Time = nat

  /** `_minute_bucket`, in seconds. */
  function MinuteBucket(now: Time): nat {
    var seconds := now / MICROS;
    seconds - seconds % 60
  }

  /** The UTC day of a time. */
  function Day(now: Time): nat {
    now / DAY
  }

  /** `now - (now % 60)` of the increment script. */
  function WindowStart(now: Time): nat {
    now - now % MINUTE
  }

  datatype Key = Rpm(team: string, bucket: nat) | Tokens(team: string, day: nat)

  /** A counter and when it expires, if it does. */
  datatype Counter = Counter(value: nat, expiresAt: Option<Time>)

  /** The legacy hash of a team. */
  datatype Legacy = Legacy(windowStart: nat, requestsLastMinute: nat, tokensToday: nat, tokensDay: nat,
                           expiresAt: Time)

  datatype Redis = Redis(counters: map<Key, Counter>, hashes: map<string, Legacy>)

  /** `GET`: expired keys are absent. */
  function Read(r: Redis, k: Key, now: Time): Option<nat> {
    if k in r.counters && (r.counters[k].expiresAt.None? || now < r.counters[k].expiresAt.value) then
      Some(r.counters[k].value)
    else None
  }

  /** `INCRBY` and `EXPIRE`: the expiry is set when the counter equals what was just added, and is
      kept otherwise. */
  function Bump(r: Redis, k: Key, delta: nat, ttl: nat, now: Time): Redis {
    var before := Read(r, k, now);
    var value := (if before.Some? then before.value else 0) + delta;
    var kept := if before.Some? then r.counters[k].expiresAt else None;
    r.(counters := r.counters[k := Counter(value, if value == delta then Some(now + ttl) else kept)])
  }

  function ValueOf(r: Redis, k: Key): nat {
    if k in r.counters then r.counters[k].value else 0
  }

  /** The increment script. */
  function Incr(r: Redis, team: string, tokens: nat, now: Time): Redis {
    var r1 := Bump(r, Rpm(team, MinuteBucket(now)), 1, RPM_TTL, now);
    var r2 := Bump(r1, Tokens(team, Day(now)), tokens, TOKENS_TTL, now);
    r2.(hashes := r2.hashes[team := Legacy(
      WindowStart(now), ValueOf(r2, Rpm(team, MinuteBucket(now))), ValueOf(r2, Tokens(team, Day(now))),
      Day(now), now + TOKENS_TTL)])
  }

  /** `HGETALL`: an expired hash is empty. */
  function ReadHash(r: Redis, team: string, now: Time): Option<Legacy> {
    if team in r.hashes && now < r.hashes[team].expiresAt then Some(r.hashes[team]) else None
  }

  /** `_normalize_state` on the fields a caller has fetched; the day comes from its own clock. */
  function NormalizeState(state: Option<Legacy>, current: Time, today: nat): (nat, nat) {
    if state.None? then (0, 0)
    else
      var requests := if current - state.value.windowStart >= MINUTE then 0 else state.value.requestsLastMinute;
      var tokens := if state.value.tokensDay != today then 0 else state.value.tokensToday;
      (requests, tokens)
  }

  /** The legacy script: a stale window or day counts as zero. */
  function ReadLegacy(r: Redis, team: string, now: Time): (nat, nat) {
    match ReadHash(r, team, now)
    case None => (0, 0)
    case Some(h) =>
      (if now - h.windowStart >= MINUTE then 0 else h.requestsLastMinute,
       if h.tokensDay != Day(now) then 0 else h.tokensToday)
  }

  /** `read_quota_state`: the counters when either is present, else the legacy hash. */
  function ReadState(r: Redis, team: string, now: Time): (nat, nat) {
    var rpm, tokens := Read(r, Rpm(team, MinuteBucket(now)), now), Read(r, Tokens(team, Day(now)), now);
    if rpm.Some? || tokens.Some? then
      (if rpm.Some? then rpm.value else 0, if tokens.Some? then tokens.value else 0)
    else ReadLegacy(r, team, now)
  }

  /* The log */

  /** One increment. */
  datatype Event = Event(team: string, tokens: nat, at: Time)

  function Requests(log: seq<Event>, team: string, bucket: nat): nat {
    if log == [] then 0
    else
      var e := log[|log| - 1];
      Requests(log[..|log| - 1], team, bucket) + if e.team == team && MinuteBucket(e.at) == bucket then 1 else 0
  }

  function TokenSum(log: seq<Event>, team: string, day: nat): nat {
    if log == [] then 0
    else
      var e := log[|log| - 1];
      TokenSum(log[..|log| - 1], team, day) + if e.team == team && Day(e.at) == day then e.tokens else 0
  }

  predicate Nondecreasing(log: seq<Event>) {
    forall i, j :: 0 <= i < j < |log| ==> log[i].at <= log[j].at
  }

  /** The state after the logged increments. */
  function After(log: seq<Event>): Redis {
    if log == [] then Redis(map[], map[])
    else
      var e := log[|log| - 1];
      Incr(After(log[..|log| - 1]), e.team, e.tokens, e.at)
  }

  function LastTime(log: seq<Event>): Time {
    if log == [] then 0 else log[|log| - 1].at
  }

  /* Windows */

  lemma Windows(now: Time)
    ensures WindowStart(now) == MinuteBucket(now) * MICROS
    ensures WindowStart(now) <= now < WindowStart(now) + MINUTE
    ensures Day(now) * DAY <= now < (Day(now) + 1) * DAY
  {
    var s, m := now / MICROS, now / MINUTE;
    assert s / 60 == m by {
      assert now == s * MICROS + now % MICROS;
      assert s == (s / 60) * 60 + s % 60;
    }
  }

  /** Two times are in one minute bucket exactly when the later is within a minute of the bucket's start. */
  lemma SameBucket(t: Time, now: Time)
    requires t <= now
    ensures MinuteBucket(t) == MinuteBucket(now) <==> now - WindowStart(t) < MINUTE
    ensures MinuteBucket(t) == MinuteBucket(now) ==> now < t + MINUTE
    ensures Day(t) == Day(now) ==> now < t + DAY
  {
    Windows(t);
    Windows(now);
    if now - WindowStart(t) < MINUTE {
      assert now / MINUTE == t / MINUTE;
    }
  }

  /* What the state says of the log */

  /** The team's last increment. */
  function LastOf(log: seq<Event>, team: string): Option<Time> {
    if log == [] then None
    else if log[|log| - 1].team == team then Some(log[|log| - 1].at)
    else LastOf(log[..|log| - 1], team)
  }

  /** A bucket's counter holds its count and outlives the bucket. */
  ghost predicate RpmOk(r: Redis, log: seq<Event>, team: string, b: nat) {
    var k := Rpm(team, b);
    if k in r.counters then
      && r.counters[k].value == Requests(log, team, b)
      && r.counters[k].expiresAt.Some? && b * MICROS + RPM_TTL <= r.counters[k].expiresAt.value
    else Requests(log, team, b) == 0
  }

  /** A day's counter holds its sum and outlives the day. */
  ghost predicate TokensOk(r: Redis, log: seq<Event>, team: string, d: nat) {
    var k := Tokens(team, d);
    if k in r.counters then
      && r.counters[k].value == TokenSum(log, team, d)
      && r.counters[k].expiresAt.Some? && d * DAY + TOKENS_TTL <= r.counters[k].expiresAt.value
    else TokenSum(log, team, d) == 0
  }

  /** The hash mirrors the counters as of the team's last increment. */
  ghost predicate HashOk(r: Redis, log: seq<Event>, team: string) {
    match LastOf(log, team)
    case None => team !in r.hashes
    case Some(t) =>
      && team in r.hashes
      && r.hashes[team] == Legacy(WindowStart(t), Requests(log, team, MinuteBucket(t)),
                                  TokenSum(log, team, Day(t)), Day(t), t + TOKENS_TTL)
  }

  ghost predicate Mirrors(r: Redis, log: seq<Event>) {
    && (forall team, b :: RpmOk(r, log, team, b))
    && (forall team, d :: TokensOk(r, log, team, d))
    && (forall team :: HashOk(r, log, team))
  }

  /** A live counter is read, bumped and keeps its expiry; a new one gets a full one. */
  lemma BumpLive(r: Redis, k: Key, delta: nat, ttl: nat, now: Time)
    requires k in r.counters ==> r.counters[k].expiresAt.Some? && now < r.counters[k].expiresAt.value
    ensures var r' := Bump(r, k, delta, ttl, now);
      && k in r'.counters && r'.counters[k].value == ValueOf(r, k) + delta
      && r'.counters[k].expiresAt.Some?
      && (r'.counters[k].expiresAt.value == now + ttl
          || (k in r.counters && r'.counters[k].expiresAt == r.counters[k].expiresAt))
      && r'.hashes == r.hashes
      && (forall x :: x != k ==> (x in r'.counters <==> x in r.counters))
      && (forall x :: x != k && x in r.counters ==> r'.counters[x] == r.counters[x])
  {
  }

  lemma LogGrows(log: seq<Event>, e: Event, team: string)
    ensures forall b :: Requests(log + [e], team, b) ==
              Requests(log, team, b) + if e.team == team && MinuteBucket(e.at) == b then 1 else 0
    ensures forall d :: TokenSum(log + [e], team, d) ==
              TokenSum(log, team, d) + if e.team == team && Day(e.at) == d then e.tokens else 0
    ensures LastOf(log + [e], team) == if e.team == team then Some(e.at) else LastOf(log, team)
  {
    assert (log + [e])[..|log|] == log;
  }

  /** What an increment of live counters does: it adds to two of them, keeps their expiries or gives full
      ones, and mirrors the two in the team's hash. */
  ghost predicate Incremented(r: Redis, r': Redis, e: Event) {
    var k1, k2 := Rpm(e.team, MinuteBucket(e.at)), Tokens(e.team, Day(e.at));
    && k1 in r'.counters && r'.counters[k1].value == ValueOf(r, k1) + 1 && r'.counters[k1].expiresAt.Some?
    && (r'.counters[k1].expiresAt.value == e.at + RPM_TTL
        || (k1 in r.counters && r'.counters[k1].expiresAt == r.counters[k1].expiresAt))
    && k2 in r'.counters && r'.counters[k2].value == ValueOf(r, k2) + e.tokens && r'.counters[k2].expiresAt.Some?
    && (r'.counters[k2].expiresAt.value == e.at + TOKENS_TTL
        || (k2 in r.counters && r'.counters[k2].expiresAt == r.counters[k2].expiresAt))
    && (forall x :: x != k1 && x != k2 ==> (x in r'.counters <==> x in r.counters))
    && (forall x :: x != k1 && x != k2 && x in r.counters ==> r'.counters[x] == r.counters[x])
    && r'.hashes == r.hashes[e.team := Legacy(
         WindowStart(e.at), r'.counters[k1].value, r'.counters[k2].value, Day(e.at), e.at + TOKENS_TTL)]
  }

  lemma IncrIncrements(r: Redis, log: seq<Event>, e: Event)
    requires Mirrors(r, log)
    ensures Incremented(r, Incr(r, e.team, e.tokens, e.at), e)
  {
    var k1, k2 := Rpm(e.team, MinuteBucket(e.at)), Tokens(e.team, Day(e.at));
    Windows(e.at);
    assert RpmOk(r, log, e.team, MinuteBucket(e.at)) && TokensOk(r, log, e.team, Day(e.at));
    BumpLive(r, k1, 1, RPM_TTL, e.at);
    var r1 := Bump(r, k1, 1, RPM_TTL, e.at);
    BumpLive(r1, k2, e.tokens, TOKENS_TTL, e.at);
    hide Bump, WindowStart, MinuteBucket, Day;
  }

  lemma IncrMirrors(r: Redis, log: seq<Event>, e: Event)
    requires Mirrors(r, log)
    ensures Mirrors(Incr(r, e.team, e.tokens, e.at), log + [e])
  {
    var r3 := Incr(r, e.team, e.tokens, e.at);
    IncrIncrements(r, log, e);
    Windows(e.at);
    hide Incr, MinuteBucket, WindowStart, Day;
    LogGrows(log, e, e.team);
    forall team, b ensures RpmOk(r3, log + [e], team, b) {
      LogGrows(log, e, team);
      assert RpmOk(r, log, team, b);
    }
    forall team, d ensures TokensOk(r3, log + [e], team, d) {
      LogGrows(log, e, team);
      assert TokensOk(r, log, team, d);
    }
    forall team ensures HashOk(r3, log + [e], team) {
      LogGrows(log, e, team);
      assert HashOk(r, log, team);
      assert RpmOk(r3, log + [e], e.team, MinuteBucket(e.at)) && TokensOk(r3, log + [e], e.team, Day(e.at));
    }
  }

  lemma {:induction false} StateMirrorsLog(log: seq<Event>)
    ensures Mirrors(After(log), log)
  {
    if log != [] {
      var init, e := log[..|log| - 1], log[|log| - 1];
      StateMirrorsLog(init);
      IncrMirrors(After(init), init, e);
      assert init + [e] == log;
    }
  }

  /** With a clock that does not go back, nothing is logged in a bucket or a day after the team's
      last increment. */
  lemma {:induction false} NothingAfterLast(log: seq<Event>, team: string, b: nat, d: nat)
    requires Nondecreasing(log)
    ensures LastOf(log, team).None? ==> Requests(log, team, b) == 0 && TokenSum(log, team, d) == 0
    ensures LastOf(log, team).Some? ==> LastOf(log, team).value <= LastTime(log)
    ensures LastOf(log, team).Some? && MinuteBucket(LastOf(log, team).value) < b ==> Requests(log, team, b) == 0
    ensures LastOf(log, team).Some? && Day(LastOf(log, team).value) < d ==> TokenSum(log, team, d) == 0
  {
    if log != [] {
      var init, e := log[..|log| - 1], log[|log| - 1];
      NothingAfterLast(init, team, b, d);
      assert LastTime(init) <= e.at by {
        if init != [] { assert init[|init| - 1] == log[|log| - 2]; }
      }
      if LastOf(init, team).Some? {
        BucketsRise(LastOf(init, team).value, e.at);
      }
    }
  }

  lemma BucketsRise(t: Time, now: Time)
    requires t <= now
    ensures MinuteBucket(t) <= MinuteBucket(now) && Day(t) <= Day(now)
  {
    Windows(t);
    Windows(now);
  }

  /** For every sequence of increments at nondecreasing times, and every later reading, the counter
      reader, the legacy script and `_normalize_state` return the same pair: the number of logged
      increments in the current minute bucket, and the sum of the tokens logged in the current day.
      In particular no expiry ever drops a window that is still live. */
  lemma ReadersReturnTheLog(log: seq<Event>, team: string, now: Time)
    requires Nondecreasing(log) && LastTime(log) <= now
    ensures var expected := (Requests(log, team, MinuteBucket(now)), TokenSum(log, team, Day(now)));
      && ReadState(After(log), team, now) == expected
      && ReadLegacy(After(log), team, now) == expected
      && NormalizeState(ReadHash(After(log), team, now), now, Day(now)) == expected
  {
    var r, b, d := After(log), MinuteBucket(now), Day(now);
    StateMirrorsLog(log);
    Windows(now);
    assert RpmOk(r, log, team, b) && TokensOk(r, log, team, d) && HashOk(r, log, team);
    NothingAfterLast(log, team, b, d);
    var last := LastOf(log, team);
    if last.Some? {
      SameBucket(last.value, now);
      BucketsRise(last.value, now);
    }
    hide After, MinuteBucket, WindowStart, Day, Requests, TokenSum, LastOf;
  }

  /** The counters of one Redis, updated in place by the scripts. */
  class QuotaRedis {
    var counters: map<Key, Counter>
    var hashes: map<string, Legacy>

    function State(): Redis
      reads this
    {
      Redis(counters, hashes)
    }

    constructor ()
      ensures State() == After([])
    {
      counters, hashes := map[], map[];
    }

    /** `INCRBY`, on a key that may have expired. */
    method IncrBy(k: Key, delta: nat, now: Time) returns (value: nat)
      modifies this`counters
      ensures value == (if Read(old(State()), k, now).Some? then Read(old(State()), k, now).value else 0) + delta
      ensures counters == old(counters)[k := Counter(value,
        if Read(old(State()), k, now).Some? then old(counters)[k].expiresAt else None)]
    {
      var before := Read(State(), k, now);
      value := (if before.Some? then before.value else 0) + delta;
      counters := counters[k := Counter(value, if before.Some? then counters[k].expiresAt else None)];
    }

    method Expire(k: Key, at: Time)
      requires k in counters
      modifies this`counters
      ensures counters == old(counters)[k := old(counters)[k].(expiresAt := Some(at))]
    {
      counters := counters[k := counters[k].(expiresAt := Some(at))];
    }

    /** The increment script, which returns both counters. */
    method IncrQuotaCounters(team: string, tokens: nat, now: Time) returns (rpm: nat, total: nat)
      modifies this
      ensures State() == Incr(old(State()), team, tokens, now)
      ensures (rpm, total) == (hashes[team].requestsLastMinute, hashes[team].tokensToday)
    {
      var rpmKey, tokensKey := Rpm(team, MinuteBucket(now)), Tokens(team, Day(now));
      rpm := IncrBy(rpmKey, 1, now);
      if rpm == 1 { Expire(rpmKey, now + RPM_TTL); }
      assert State() == Bump(old(State()), rpmKey, 1, RPM_TTL, now);
      total := IncrBy(tokensKey, tokens, now);
      if total == tokens { Expire(tokensKey, now + TOKENS_TTL); }
      hashes := hashes[team := Legacy(WindowStart(now), rpm, total, Day(now), now + TOKENS_TTL)];
    }

    /** A redis whose log is known keeps knowing it: the script returns the logged figures of its
        own minute and day. */
    method IncrLogged(ghost log: seq<Event>, team: string, tokens: nat, now: Time)
      returns (rpm: nat, total: nat, ghost log': seq<Event>)
      requires State() == After(log) && Nondecreasing(log) && LastTime(log) <= now
      modifies this
      ensures log' == log + [Event(team, tokens, now)] && State() == After(log')
      ensures rpm == Requests(log', team, MinuteBucket(now)) && total == TokenSum(log', team, Day(now))
    {
      log' := log + [Event(team, tokens, now)];
      assert log'[..|log|] == log;
      rpm, total := IncrQuotaCounters(team, tokens, now);
      StateMirrorsLog(log');
      assert HashOk(State(), log', team);
    }
  }
}
