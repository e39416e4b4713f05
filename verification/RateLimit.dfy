/**
 The fixed-window limiter: the process-local table with pruning and an overflow bucket, and the Redis script.
 Times are seconds of one nondecreasing clock.
 */
module RateLimit {
  import opened Faults
  import opened Numbers
  import opened Sets
  import opened Wrappers

  const MAX_FALLBACK_KEYS := 10000
  const WINDOW := 60.0
  const OVERFLOW := "overflow"

  /** A bucket: requests counted so far and the end of its window. */
  datatype Bucket = Bucket(count: nat, expires: real)

  type Table = map<string, Bucket>

  datatype Decision = Decision(allowed: bool, limit: int, remaining: int, retryAfter: int)

  /** Rounding to the nearest integer, halves to the even one. */
  function Round(x: real): int {
    var f := x.Floor;
    var rest := x - f as real;
    if rest < 0.5 || (rest == 0.5 && f % 2 == 0) then f else f + 1
  }

  function Decide(limit: int, count: nat, retryAfter: int): Decision {
    Decision(count <= limit, limit, Max(0, limit - count), retryAfter)
  }

  // ----- One call -----

  function Prune(table: Table, now: real): Table {
    map k | k in table && table[k].expires > now :: table[k]
  }

  /** The table and the bucket key a call really uses. */
  function Redirect(table: Table, key: string, now: real): (Table, string) {
    if key !in table && |table| >= MAX_FALLBACK_KEYS then
      var pruned := Prune(table, now);
      (pruned, if |pruned| >= MAX_FALLBACK_KEYS then OVERFLOW else key)
    else (table, key)
  }

  /** Counting one request in a bucket, opening a new window when there is none or it is over. */
  function Hit(table: Table, key: string, now: real): Bucket {
    if key in table && now < table[key].expires then table[key].(count := table[key].count + 1)
    else Bucket(1, now + WINDOW)
  }

  function RetryAfter(b: Bucket, now: real): int { Max(1, Round(b.expires - now)) }

  /** The unbounded limiter: one bucket per key, never pruned. */
  function PlainAllow(limit: int, table: Table, key: string, now: real): (Table, Decision) {
    var b := Hit(table, key, now);
    (table[key := b], Decide(limit, b.count, RetryAfter(b, now)))
  }

  function MemoryAllow(limit: int, table: Table, key: string, now: real): (Table, Decision) {
    var (kept, used) := Redirect(table, key, now);
    PlainAllow(limit, kept, used, now)
  }

  // ----- The Redis script -----

  /** A Redis counter; a key without a time to live never expires. */
  datatype Counter = Counter(value: nat, expiresAt: Option<real>)

  type Keys = map<string, Counter>

  predicate Expired(c: Counter, now: real) { c.expiresAt.Some? && now >= c.expiresAt.value }

  /** INCR, then EXPIRE when the counter is new; the reply is the count and the time to live. */
  function Script(keys: Keys, key: string, now: real): (Keys, nat) {
    var before := if key in keys && !Expired(keys[key], now) then keys[key] else Counter(0, None);
    var incremented := before.(value := before.value + 1);
    var kept := if incremented.value == 1 then incremented.(expiresAt := Some(now + WINDOW)) else incremented;
    (keys[key := kept], kept.value)
  }

  /** One call: Redis when it answers, the process-local table when it does not. `ttl` is the time to live
      that Redis reports. */
  function Allow(limit: int, keys: Keys, table: Table, key: string, now: real, ttl: int, fault: Fault)
    : (Keys, Table, Decision)
  {
    var (keys', count) := if fault.LostBefore? then (keys, 0) else Script(keys, key, now);
    if fault.NoFault? then (keys', table, Decide(limit, count, Max(1, ttl)))
    else
      var (table', d) := MemoryAllow(limit, table, key, now);
      (keys', table', d)
  }

  class RedisCounters {
    var keys: Keys

    constructor ()
      ensures keys == map[]
    {
      keys := map[];
    }

    method EvalIncrement(key: string, now: real) returns (count: nat)
      modifies this
      ensures (keys, count) == Script(old(keys), key, now)
    {
      if key in keys && Expired(keys[key], now) { keys := keys - {key}; }
      var counter := if key in keys then keys[key] else Counter(0, None);
      count := counter.value + 1;
      keys := keys[key := Counter(count, if count == 1 then Some(now + WINDOW) else counter.expiresAt)];
      assert keys == old(keys)[key := keys[key]];
    }
  }

  class RedisRateLimiter {
    const limit: int
    const redis: RedisCounters?
    var fallback: Table

    constructor (limit: int, redis: RedisCounters?)
      ensures this.limit == limit && this.redis == redis && fallback == map[]
    {
      this.limit, this.redis := limit, redis;
      fallback := map[];
    }

    /** Without Redis every call is as one that did not reach it. */
    method AllowCall(key: string, now: real, ttl: int, fault: Fault) returns (d: Decision)
      modifies this, redis
      ensures redis == null ==> (fallback, d) == MemoryAllow(limit, old(fallback), key, now)
      ensures redis != null ==>
                (redis.keys, fallback, d) == Allow(limit, old(redis.keys), old(fallback), key, now, ttl, fault)
    {
      if redis != null {
        var count := 0;
        if !fault.LostBefore? { count := redis.EvalIncrement(key, now); }
        if fault.NoFault? { return Decide(limit, count, Max(1, ttl)); }
      }
      d := AllowInMemory(key, now);
    }

    /** The path taken without Redis, or when Redis fails. */
    method AllowInMemory(key: string, now: real) returns (d: Decision)
      modifies this`fallback
      ensures (fallback, d) == MemoryAllow(limit, old(fallback), key, now)
    {
      var used := key;
      if used !in fallback && |fallback| >= MAX_FALLBACK_KEYS {
        fallback := map k | k in fallback && fallback[k].expires > now :: fallback[k];
        if |fallback| >= MAX_FALLBACK_KEYS { used := OVERFLOW; }
      }
      var count, expires := 0, now + WINDOW;
      if used in fallback { count, expires := fallback[used].count, fallback[used].expires; }
      if now >= expires { count, expires := 0, now + WINDOW; }
      count := count + 1;
      fallback := fallback[used := Bucket(count, expires)];
      d := Decide(limit, count, Max(1, Round(expires - now)));
    }
  }

  // ----- Runs -----

  datatype Call = Call(key: string, now: real)

  /** Nondecreasing times, none before `since`. */
  predicate Timed(since: real, calls: seq<Call>) {
    && (forall i :: 0 <= i < |calls| ==> since <= calls[i].now)
    && (forall i, j :: 0 <= i < j < |calls| ==> calls[i].now <= calls[j].now)
  }

  function MemoryRun(limit: int, table: Table, calls: seq<Call>): (Table, seq<Decision>) {
    if calls == [] then (table, []) else
    var (t, ds) := MemoryRun(limit, table, calls[..|calls| - 1]);
    var last := calls[|calls| - 1];
    var (t', d) := MemoryAllow(limit, t, last.key, last.now);
    (t', ds + [d])
  }

  function PlainRun(limit: int, table: Table, calls: seq<Call>): (Table, seq<Decision>) {
    if calls == [] then (table, []) else
    var (t, ds) := PlainRun(limit, table, calls[..|calls| - 1]);
    var last := calls[|calls| - 1];
    var (t', d) := PlainAllow(limit, t, last.key, last.now);
    (t', ds + [d])
  }

  /** The same calls with every redirected key replaced by the overflow key. */
  function UsedCalls(limit: int, calls: seq<Call>): seq<Call> {
    if calls == [] then [] else
    var before := calls[..|calls| - 1];
    var last := calls[|calls| - 1];
    UsedCalls(limit, before) + [last.(key := Redirect(MemoryRun(limit, map[], before).0, last.key, last.now).1)]
  }

  /** The two tables agree on every window that is still open. */
  ghost predicate Agree(table: Table, plain: Table, now: real) {
    forall k :: (k in table && table[k].expires > now ==> k in plain && plain[k] == table[k])
             && (k in plain && plain[k].expires > now ==> k in table && table[k] == plain[k])
  }

  lemma AgreeingCallsAgree(limit: int, table: Table, plain: Table, since: real, key: string, now: real)
    requires Agree(table, plain, since) && since <= now
    ensures var (t', d) := MemoryAllow(limit, table, key, now);
            var (p', d') := PlainAllow(limit, plain, Redirect(table, key, now).1, now);
            d == d' && Agree(t', p', now)
  {
  }

  /** The pruning, capped limiter makes exactly the decisions of the unbounded, never pruned one on the calls
      it really counted. */
  lemma {:induction false} BoundedEqualsUnbounded(limit: int, calls: seq<Call>, since: real)
    requires Timed(since, calls)
    ensures MemoryRun(limit, map[], calls).1 == PlainRun(limit, map[], UsedCalls(limit, calls)).1
    ensures |UsedCalls(limit, calls)| == |calls|
    ensures Agree(MemoryRun(limit, map[], calls).0, PlainRun(limit, map[], UsedCalls(limit, calls)).0,
                  if calls == [] then since else calls[|calls| - 1].now)
  {
    if calls != [] {
      var n := |calls| - 1;
      BoundedEqualsUnbounded(limit, calls[..n], since);
      var used := UsedCalls(limit, calls);
      assert used[..n] == UsedCalls(limit, calls[..n]);
      AgreeingCallsAgree(limit, MemoryRun(limit, map[], calls[..n]).0, PlainRun(limit, map[], used[..n]).0,
                         if n == 0 then since else calls[n - 1].now, calls[n].key, calls[n].now);
    }
  }

  /** A call is redirected unless its bucket exists or there is room for it. */
  lemma RedirectMakesRoom(table: Table, key: string, now: real)
    requires |table.Keys - {OVERFLOW}| <= MAX_FALLBACK_KEYS
    ensures var (kept, used) := Redirect(table, key, now);
            && |kept.Keys - {OVERFLOW}| <= MAX_FALLBACK_KEYS
            && (used == OVERFLOW || used in kept || |kept.Keys - {OVERFLOW}| < MAX_FALLBACK_KEYS)
  {
    var (kept, used) := Redirect(table, key, now);
    SubsetCount(kept.Keys - {OVERFLOW}, table.Keys - {OVERFLOW});
    SubsetCount(kept.Keys - {OVERFLOW}, kept.Keys);
    assert |kept.Keys| == |kept|;
  }

  lemma AddOneKey(keys: set<string>, key: string)
    ensures key == OVERFLOW || key in keys ==> keys + {key} - {OVERFLOW} == keys - {OVERFLOW}
    ensures |keys + {key} - {OVERFLOW}| <= |keys - {OVERFLOW}| + 1
  {
    if key != OVERFLOW && key !in keys {
      assert keys + {key} - {OVERFLOW} == (keys - {OVERFLOW}) + {key};
    } else {
      assert keys + {key} - {OVERFLOW} == keys - {OVERFLOW};
    }
  }

  /** One call adds at most one bucket, and beyond the cap only the overflow bucket. */
  lemma CallKeepsBound(limit: int, table: Table, key: string, now: real)
    requires |table.Keys - {OVERFLOW}| <= MAX_FALLBACK_KEYS
    ensures |MemoryAllow(limit, table, key, now).0.Keys - {OVERFLOW}| <= MAX_FALLBACK_KEYS
  {
    hide Redirect, Hit, Decide;
    RedirectMakesRoom(table, key, now);
    var (kept, used) := Redirect(table, key, now);
    AddOneKey(kept.Keys, used);
    assert MemoryAllow(limit, table, key, now).0.Keys == kept.Keys + {used};
  }

  /** The table holds at most 10,000 buckets besides the overflow bucket. */
  lemma {:induction false} TableIsBounded(limit: int, calls: seq<Call>)
    ensures |MemoryRun(limit, map[], calls).0.Keys - {OVERFLOW}| <= MAX_FALLBACK_KEYS
    ensures |MemoryRun(limit, map[], calls).0| <= MAX_FALLBACK_KEYS + 1
  {
    hide MemoryAllow;
    if calls != [] {
      var n := |calls| - 1;
      TableIsBounded(limit, calls[..n]);
      CallKeepsBound(limit, MemoryRun(limit, map[], calls[..n]).0, calls[n].key, calls[n].now);
    }
    var keys := MemoryRun(limit, map[], calls).0.Keys;
    SubsetCount(keys, (keys - {OVERFLOW}) + {OVERFLOW});
    assert |MemoryRun(limit, map[], calls).0| == |keys|;
  }

  // ----- What one call is told -----

  /** How many calls on a key Redis counts in the minute that is running. */
  function CountNow(keys: Keys, key: string, now: real): nat {
    if key in keys && (keys[key].expiresAt.None? || now < keys[key].expiresAt.value) then keys[key].value else 0
  }

  /** A call that reaches Redis is counted there, in a new minute if none is running, and other keys are left alone.
      It is decided by that count if the reply arrives, and otherwise by the process's own table, which no call that
      Redis decides touches. */
  lemma CallCountsWhereItArrives(limit: int, keys: Keys, table: Table, key: string, now: real, ttl: int, fault: Fault)
    ensures var (keys', table', d) := Allow(limit, keys, table, key, now, ttl, fault);
            var count := CountNow(keys, key, now) + 1;
            && (fault.LostBefore? ==> keys' == keys)
            && (!fault.LostBefore? ==>
                  && keys'.Keys == keys.Keys + {key} && keys'[key].value == count
                  && (count == 1 ==> keys'[key].expiresAt == Some(now + 60.0))
                  && (count > 1 ==> keys'[key].expiresAt == keys[key].expiresAt)
                  && forall k :: k in keys && k != key ==> keys'[k] == keys[k])
            && (if fault.NoFault?
                then && table' == table && d.limit == limit && (d.allowed <==> count <= limit)
                     && d.remaining == (if count < limit then limit - count else 0)
                     && d.retryAfter == (if ttl > 1 then ttl else 1)
                else (table', d) == MemoryAllow(limit, table, key, now))
  {
  }

  /** No integer is nearer, and of two equally near ones it is the even one. */
  lemma RoundIsNearest(x: real)
    ensures forall n: int :: Apart(x, Round(x)) <= Apart(x, n)
    ensures forall n: int :: n != Round(x) && Apart(x, n) == Apart(x, Round(x)) ==> Round(x) % 2 == 0
  {
    var f := x.Floor;
    forall n: int
      ensures Apart(x, Round(x)) <= Apart(x, n)
      ensures n != Round(x) && Apart(x, n) == Apart(x, Round(x)) ==> Round(x) % 2 == 0
    {
      if n < f { assert n as real <= f as real - 1.0; }
      if n > f + 1 { assert n as real >= f as real + 2.0; }
    }
  }

  function Apart(x: real, n: int): real { if x < n as real then n as real - x else x - n as real }

  /** The keys whose window is still open. */
  function Live(table: Table, now: real): set<string> { set k | k in table && table[k].expires > now }

  /** A call counts in the overflow bucket exactly when its key has no bucket and ten thousand windows are open;
      no open window is dropped, and nothing is dropped while there is room. */
  lemma RedirectedIff(table: Table, key: string, now: real)
    ensures var (kept, used) := Redirect(table, key, now);
            && used == (if key !in table && |Live(table, now)| >= 10000 then "overflow" else key)
            && (forall k :: k in kept ==> k in table && kept[k] == table[k])
            && (forall k :: k in Live(table, now) ==> k in kept)
            && (key in table || |table| < 10000 ==> kept == table)
            && (key !in table && |table| >= 10000 ==> kept.Keys == Live(table, now))
  {
    SubsetCount(Live(table, now), table.Keys);
    assert |table.Keys| == |table|;
    assert Prune(table, now).Keys == Live(table, now);
    assert |Prune(table, now).Keys| == |Prune(table, now)|;
  }

  function CalledKeys(calls: seq<Call>): set<string> { set i | 0 <= i < |calls| :: calls[i].key }

  lemma MoreKeys(calls: seq<Call>)
    requires calls != []
    ensures CalledKeys(calls[..|calls| - 1]) <= CalledKeys(calls) && calls[|calls| - 1].key in CalledKeys(calls)
    ensures |CalledKeys(calls[..|calls| - 1])| <= |CalledKeys(calls)|
  {
    var n := |calls| - 1;
    assert forall i :: 0 <= i < n ==> calls[..n][i] == calls[i];
    SubsetCount(CalledKeys(calls[..n]), CalledKeys(calls));
  }

  /** Ten thousand keys or fewer never meet the overflow bucket. */
  lemma {:induction false} FewKeysCountApart(limit: int, calls: seq<Call>)
    requires |CalledKeys(calls)| <= 10000
    ensures UsedCalls(limit, calls) == calls
    ensures MemoryRun(limit, map[], calls).0.Keys <= CalledKeys(calls)
  {
    if calls != [] {
      var n := |calls| - 1;
      MoreKeys(calls);
      FewKeysCountApart(limit, calls[..n]);
      OneMoreApart(limit, calls);
    }
  }

  lemma OneMoreApart(limit: int, calls: seq<Call>)
    requires calls != [] && |CalledKeys(calls)| <= 10000
    requires var before := calls[..|calls| - 1];
             UsedCalls(limit, before) == before && MemoryRun(limit, map[], before).0.Keys <= CalledKeys(before)
    ensures UsedCalls(limit, calls) == calls
    ensures MemoryRun(limit, map[], calls).0.Keys <= CalledKeys(calls)
  {
    var n := |calls| - 1;
    MoreKeys(calls);
    OneMoreCall(limit, calls);
    RoomForOne(limit, MemoryRun(limit, map[], calls[..n]).0, calls[n].key, calls[n].now, CalledKeys(calls));
    hide *;
    assert calls == calls[..n] + [calls[n]];
  }

  lemma OneMoreCall(limit: int, calls: seq<Call>)
    requires calls != []
    ensures var n := |calls| - 1;
            var table := MemoryRun(limit, map[], calls[..n]).0;
            && MemoryRun(limit, map[], calls).0 == MemoryAllow(limit, table, calls[n].key, calls[n].now).0
            && UsedCalls(limit, calls)
               == UsedCalls(limit, calls[..n]) + [calls[n].(key := Redirect(table, calls[n].key, calls[n].now).1)]
  {
    hide MemoryAllow, Redirect;
  }

  lemma RoomForOne(limit: int, table: Table, key: string, now: real, keys: set<string>)
    requires table.Keys <= keys && key in keys && |keys| <= 10000
    ensures Redirect(table, key, now) == (table, key)
    ensures MemoryAllow(limit, table, key, now).0.Keys <= keys
  {
    if key !in table {
      SubsetCount(table.Keys + {key}, keys);
      assert |table.Keys + {key}| == |table| + 1;
    }
  }

  /** The call that opened the latest window of a key: each call on the key opens one unless it comes within a
      minute of the one that opened the window before. */
  function Opener(calls: seq<Call>, key: string): (o: Option<nat>)
    ensures o.Some? ==> o.value < |calls| && calls[o.value].key == key
  {
    if calls == [] then None else
    var n := |calls| - 1;
    var before := Opener(calls[..n], key);
    if calls[n].key != key || (before.Some? && calls[n].now < calls[before.value].now + 60.0) then before
    else Some(n)
  }

  /** The calls on a key, from call `first` on. */
  function CallsOn(calls: seq<Call>, key: string, first: nat): nat {
    if calls == [] then 0 else
    var n := |calls| - 1;
    CallsOn(calls[..n], key, first) + if first <= n && calls[n].key == key then 1 else 0
  }

  lemma {:induction false} NoCallsYet(calls: seq<Call>, key: string, first: nat)
    requires |calls| <= first
    ensures CallsOn(calls, key, first) == 0
  {
    if calls != [] { NoCallsYet(calls[..|calls| - 1], key, first); }
  }

  /** What the history of the calls says about a bucket. */
  ghost predicate Counts(calls: seq<Call>, table: Table) {
    forall key: string ::
      && (key in table <==> Opener(calls, key).Some?)
      && (key in table ==> && table[key].expires == calls[Opener(calls, key).value].now + 60.0
                           && table[key].count == CallsOn(calls, key, Opener(calls, key).value))
  }

  /** What the last call is told: the calls on its key since the window was opened count, itself included; the
      wait is the rest of that minute, rounded, but a second at least. */
  predicate ToldByHistory(limit: int, calls: seq<Call>, d: Decision) {
    calls != [] &&
    var last := calls[|calls| - 1];
    var o := Opener(calls, last.key);
    o.Some? &&
    var count := CallsOn(calls, last.key, o.value);
    && d.limit == limit && (d.allowed <==> count <= limit)
    && d.remaining == (if count < limit then limit - count else 0)
    && d.retryAfter == Max(1, Round(calls[o.value].now + 60.0 - last.now))
  }

  lemma {:induction false} HistoryCounts(limit: int, calls: seq<Call>)
    ensures Counts(calls, PlainRun(limit, map[], calls).0)
    ensures |PlainRun(limit, map[], calls).1| == |calls|
    ensures calls != [] ==> ToldByHistory(limit, calls, PlainRun(limit, map[], calls).1[|calls| - 1])
  {
    if calls != [] {
      var n := |calls| - 1;
      HistoryCounts(limit, calls[..n]);
      OneMoreCounts(limit, calls, PlainRun(limit, map[], calls[..n]).0);
    }
  }

  lemma OneMoreCounts(limit: int, calls: seq<Call>, table: Table)
    requires calls != [] && Counts(calls[..|calls| - 1], table)
    ensures var last := calls[|calls| - 1];
            var (t, d) := PlainAllow(limit, table, last.key, last.now);
            Counts(calls, t) && ToldByHistory(limit, calls, d)
  {
    hide Round;
    var n := |calls| - 1;
    NoCallsYet(calls[..n], calls[n].key, n);
  }

  /** The unbounded table only remembers the history: each call is decided by the calls on its key since the
      window it falls into was opened. */
  lemma {:induction false} EachCallIsToldByHistory(limit: int, calls: seq<Call>, i: nat)
    requires i < |calls|
    ensures |PlainRun(limit, map[], calls).1| == |calls|
    ensures ToldByHistory(limit, calls[..i + 1], PlainRun(limit, map[], calls).1[i])
  {
    hide ToldByHistory;
    HistoryCounts(limit, calls);
    var n := |calls| - 1;
    if i == n {
      assert calls[..i + 1] == calls;
    } else {
      EachCallIsToldByHistory(limit, calls[..n], i);
      assert calls[..n][..i + 1] == calls[..i + 1];
    }
  }

  // ----- How many calls get through -----

  /** Allowed calls on one bucket at times in the half-open interval [from, from + 60). */
  function AllowedIn(calls: seq<Call>, decisions: seq<Decision>, key: string, from: real): nat
    requires |calls| == |decisions|
  {
    if calls == [] then 0 else
    var n := |calls| - 1;
    AllowedIn(calls[..n], decisions[..n], key, from)
    + if calls[n].key == key && from <= calls[n].now < from + WINDOW && decisions[n].allowed then 1 else 0
  }

  lemma {:induction false} OneDecisionPerCall(limit: int, calls: seq<Call>)
    ensures |PlainRun(limit, map[], calls).1| == |calls|
  {
    if calls != [] { OneDecisionPerCall(limit, calls[..|calls| - 1]); }
  }

  /** What a bucket opened at `opened` with `count` requests allows for the tally of an interval. */
  predicate TallyFits(limit: int, tally: nat, b: Bucket, from: real) {
    var start := b.expires - WINDOW;
    if start < from then tally <= Min(b.count, limit) - 1
    else if start < from + WINDOW then tally <= limit - 1 + Min(b.count, limit)
    else tally <= 2 * limit - 1
  }

  /** An interval meets at most two windows of a bucket, and when it meets two it excludes the request that
      opened the first. */
  lemma {:induction false} TwoWindows(limit: int, calls: seq<Call>, key: string, from: real, since: real)
    requires limit >= 1 && Timed(since, calls)
    requires |PlainRun(limit, map[], calls).1| == |calls|
    ensures var (table, ds) := PlainRun(limit, map[], calls);
            var tally := AllowedIn(calls, ds, key, from);
            && (forall k | k in table ::
                  table[k].count >= 1 && calls != [] && table[k].expires <= calls[|calls| - 1].now + WINDOW)
            && (key !in table ==> tally == 0)
            && (key in table ==> TallyFits(limit, tally, table[key], from))
            && (calls != [] && calls[|calls| - 1].now < from ==> tally == 0)
  {
    if calls != [] {
      var n := |calls| - 1;
      OneDecisionPerCall(limit, calls[..n]);
      TwoWindows(limit, calls[..n], key, from, since);
      var (table, ds) := PlainRun(limit, map[], calls[..n]);
      var (table', ds') := PlainRun(limit, map[], calls);
      assert ds'[..n] == ds;
      if n > 0 { assert calls[..n][n - 1] == calls[n - 1]; }
    }
  }

  lemma PlainAtMostTwiceTheLimit(limit: int, calls: seq<Call>, key: string, from: real, since: real)
    requires limit >= 1 && Timed(since, calls) && |PlainRun(limit, map[], calls).1| == |calls|
    ensures AllowedIn(calls, PlainRun(limit, map[], calls).1, key, from) <= 2 * limit - 1
  {
    TwoWindows(limit, calls, key, from, since);
  }

  /** In any run and for any bucket, a 60-second interval lets at most 2 * limit - 1 calls through. */
  lemma AtMostTwiceTheLimit(limit: int, calls: seq<Call>, key: string, from: real, since: real)
    requires limit >= 1 && Timed(since, calls)
    ensures |MemoryRun(limit, map[], calls).1| == |UsedCalls(limit, calls)|
    ensures AllowedIn(UsedCalls(limit, calls), MemoryRun(limit, map[], calls).1, key, from) <= 2 * limit - 1
  {
    BoundedEqualsUnbounded(limit, calls, since);
    var used := UsedCalls(limit, calls);
    UsedTimes(limit, calls);
    OneDecisionPerCall(limit, used);
    TwoWindows(limit, used, key, from, since);
  }

  lemma {:induction false} UsedTimes(limit: int, calls: seq<Call>)
    ensures |UsedCalls(limit, calls)| == |calls|
    ensures forall i :: 0 <= i < |calls| ==> UsedCalls(limit, calls)[i].now == calls[i].now
  {
    if calls != [] { UsedTimes(limit, calls[..|calls| - 1]); }
  }

  // ----- The bound is reached -----

  /** One call, `limit - 1` more just before the window ends, and `limit` once it has. */
  function Burst(limit: nat): seq<Call> {
    seq(2 * limit, i => Call("k", if i == 0 then 0.0 else if i < limit then 59.0 else 60.0))
  }

  function BurstBucket(limit: nat, m: nat): Bucket
    requires 1 <= m
  {
    if m <= limit then Bucket(m, 60.0) else Bucket(m - limit, 120.0)
  }

  lemma BurstStep(limit: nat, m: nat)
    requires 1 <= m < 2 * limit
    ensures var (table, d) := MemoryAllow(limit, map["k" := BurstBucket(limit, m)], "k", Burst(limit)[m].now);
            table == map["k" := BurstBucket(limit, m + 1)] && d.allowed
  {
  }

  lemma {:induction false} BurstGetsThrough(limit: nat, m: nat)
    requires 1 <= m <= 2 * limit
    ensures var (table, ds) := MemoryRun(limit, map[], Burst(limit)[..m]);
            && table == map["k" := BurstBucket(limit, m)]
            && |ds| == m
            && forall i :: 0 <= i < m ==> ds[i].allowed
  {
    hide MemoryAllow;
    var calls := Burst(limit)[..m];
    assert calls[..m - 1] == Burst(limit)[..m - 1];
    if m == 1 {
      FirstCall(limit);
      assert calls[..0] == [];
    } else {
      BurstGetsThrough(limit, m - 1);
      BurstStep(limit, m - 1);
    }
  }

  lemma FirstCall(limit: nat)
    requires limit >= 1
    ensures var (table, d) := MemoryAllow(limit, map[], "k", 0.0);
            table == map["k" := BurstBucket(limit, 1)] && d.allowed
  {
  }

  lemma {:induction false} BurstTally(limit: nat, ds: seq<Decision>, m: nat)
    requires 1 <= m == |ds| <= 2 * limit && forall i :: 0 <= i < m ==> ds[i].allowed
    ensures AllowedIn(Burst(limit)[..m], ds, "k", 59.0) == m - 1
  {
    assert Burst(limit)[..m][..m - 1] == Burst(limit)[..m - 1];
    if m > 1 { BurstTally(limit, ds[..m - 1], m - 1); }
  }

  /** No smaller bound holds: for every limit some run lets exactly 2 * limit - 1 calls through in 60 seconds. */
  lemma TheBoundIsReached(limit: nat)
    requires limit >= 1
    ensures Timed(0.0, Burst(limit))
    ensures |MemoryRun(limit, map[], Burst(limit)).1| == |Burst(limit)|
    ensures AllowedIn(Burst(limit), MemoryRun(limit, map[], Burst(limit)).1, "k", 59.0) == 2 * limit - 1
  {
    hide MemoryAllow;
    assert Burst(limit)[..2 * limit] == Burst(limit);
    BurstGetsThrough(limit, 2 * limit);
    BurstTally(limit, MemoryRun(limit, map[], Burst(limit)).1, 2 * limit);
  }

  // ----- Runs against Redis -----

  function ScriptRun(limit: int, keys: Keys, calls: seq<Call>): (Keys, seq<bool>) {
    if calls == [] then (keys, []) else
    var (ks, oks) := ScriptRun(limit, keys, calls[..|calls| - 1]);
    var last := calls[|calls| - 1];
    var (ks', count) := Script(ks, last.key, last.now);
    (ks', oks + [count <= limit])
  }

  /** The keys Redis holds for a table. */
  function KeysOf(table: Table): Keys { map k | k in table :: Counter(table[k].count, Some(table[k].expires)) }

  lemma RedisAdmitsOne(limit: int, table: Table, key: string, now: real)
    requires forall k | k in table :: table[k].count >= 1
    ensures var (table', d) := PlainAllow(limit, table, key, now);
            && Script(KeysOf(table), key, now).0 == KeysOf(table')
            && (Script(KeysOf(table), key, now).1 <= limit <==> d.allowed)
            && forall k | k in table' :: table'[k].count >= 1
  {
  }

  /** The script admits exactly what the unbounded table admits, so the same bound holds with Redis. */
  lemma {:induction false} RedisAdmitsTheSame(limit: int, calls: seq<Call>)
    ensures |PlainRun(limit, map[], calls).1| == |calls| == |ScriptRun(limit, map[], calls).1|
    ensures forall i :: 0 <= i < |calls| ==>
              ScriptRun(limit, map[], calls).1[i] == PlainRun(limit, map[], calls).1[i].allowed
    ensures ScriptRun(limit, map[], calls).0 == KeysOf(PlainRun(limit, map[], calls).0)
    ensures forall k | k in PlainRun(limit, map[], calls).0 :: PlainRun(limit, map[], calls).0[k].count >= 1
  {
    if calls != [] {
      hide Script, PlainAllow;
      var before, c := calls[..|calls| - 1], calls[|calls| - 1];
      RedisAdmitsTheSame(limit, before);
      RedisAdmitsOne(limit, PlainRun(limit, map[], before).0, c.key, c.now);
    }
  }

  // ----- Switching between the two -----

  datatype MixedCall = MixedCall(key: string, now: real, ttl: int, fault: Fault)

  function MixedRun(limit: int, calls: seq<MixedCall>): (Keys, Table, seq<Decision>) {
    if calls == [] then (map[], map[], []) else
    var (keys, table, ds) := MixedRun(limit, calls[..|calls| - 1]);
    var c := calls[|calls| - 1];
    var (keys', table', d) := Allow(limit, keys, table, c.key, c.now, c.ttl, c.fault);
    (keys', table', ds + [d])
  }

  /** The calls whose script ran in Redis, heard of or not. */
  function RedisCalls(calls: seq<MixedCall>): seq<Call> {
    if calls == [] then [] else
    var c := calls[|calls| - 1];
    RedisCalls(calls[..|calls| - 1]) + if c.fault.LostBefore? then [] else [Call(c.key, c.now)]
  }

  /** The calls decided in memory. */
  function MemoryCalls(calls: seq<MixedCall>): seq<Call> {
    if calls == [] then [] else
    var c := calls[|calls| - 1];
    MemoryCalls(calls[..|calls| - 1]) + if c.fault.NoFault? then [] else [Call(c.key, c.now)]
  }

  /** Which runs one call more extends. */
  lemma SplitCalls(before: seq<MixedCall>, c: MixedCall)
    ensures RedisCalls(before + [c])
            == if c.fault.LostBefore? then RedisCalls(before) else RedisCalls(before) + [Call(c.key, c.now)]
    ensures MemoryCalls(before + [c])
            == if c.fault.NoFault? then MemoryCalls(before) else MemoryCalls(before) + [Call(c.key, c.now)]
  {
    assert (before + [c])[..|before|] == before;
  }

  lemma ScriptRunAppend(limit: int, calls: seq<Call>, c: Call)
    ensures ScriptRun(limit, map[], calls + [c]).0 == Script(ScriptRun(limit, map[], calls).0, c.key, c.now).0
  {
    assert (calls + [c])[..|calls|] == calls;
  }

  lemma MemoryRunAppend(limit: int, calls: seq<Call>, c: Call)
    ensures MemoryRun(limit, map[], calls + [c]).0 == MemoryAllow(limit, MemoryRun(limit, map[], calls).0, c.key, c.now).0
  {
    assert (calls + [c])[..|calls|] == calls;
  }

  /** Each store sees a run of its own. */
  lemma {:induction false} TwoStores(limit: int, calls: seq<MixedCall>)
    ensures MixedRun(limit, calls).0 == ScriptRun(limit, map[], RedisCalls(calls)).0
    ensures MixedRun(limit, calls).1 == MemoryRun(limit, map[], MemoryCalls(calls)).0
    ensures |MixedRun(limit, calls).2| == |calls|
  {
    if calls == [] {
      assert RedisCalls([]) == [] && MemoryCalls([]) == [];
    } else {
      hide Script, MemoryAllow, Decide, ScriptRun, MemoryRun, RedisCalls, MemoryCalls;
      var before, c := calls[..|calls| - 1], calls[|calls| - 1];
      assert calls == before + [c];
      TwoStores(limit, before);
      SplitCalls(before, c);
      ScriptRunAppend(limit, RedisCalls(before), Call(c.key, c.now));
      MemoryRunAppend(limit, MemoryCalls(before), Call(c.key, c.now));
    }
  }

  /** The bucket a call is decided on, in Redis or in memory. */
  function BucketOf(limit: int, before: seq<MixedCall>, c: MixedCall): string {
    if c.fault.NoFault? then c.key else Redirect(MixedRun(limit, before).1, c.key, c.now).1
  }

  /** Calls let through on the buckets of one name, in Redis or in memory, at times in [from, from + 60). */
  function MixedAllowed(limit: int, calls: seq<MixedCall>, key: string, from: real): nat {
    if calls == [] then 0 else
    var before, c := calls[..|calls| - 1], calls[|calls| - 1];
    var (keys, table, _) := MixedRun(limit, before);
    MixedAllowed(limit, before, key, from)
    + if BucketOf(limit, before, c) == key && from <= c.now < from + WINDOW
         && Allow(limit, keys, table, c.key, c.now, c.ttl, c.fault).2.allowed then 1 else 0
  }

  lemma AllowedAppend(calls: seq<Call>, ds: seq<Decision>, c: Call, d: Decision, key: string, from: real)
    requires |calls| == |ds|
    ensures AllowedIn(calls + [c], ds + [d], key, from)
            == AllowedIn(calls, ds, key, from)
               + if c.key == key && from <= c.now < from + WINDOW && d.allowed then 1 else 0
  {
    assert (calls + [c])[..|calls|] == calls && (ds + [d])[..|ds|] == ds;
  }

  /** 1 if Redis, after some calls, lets one more call through. */
  function RedisHit(limit: int, calls: seq<Call>, c: Call, key: string, from: real): nat {
    if c.key == key && from <= c.now < from + WINDOW
       && Script(ScriptRun(limit, map[], calls).0, c.key, c.now).1 <= limit then 1 else 0
  }

  /** 1 if the table, after some calls, lets one more call through. */
  function MemoryHit(limit: int, calls: seq<Call>, c: Call, key: string, from: real): nat {
    var table := MemoryRun(limit, map[], calls).0;
    if Redirect(table, c.key, c.now).1 == key && from <= c.now < from + WINDOW
       && MemoryAllow(limit, table, c.key, c.now).1.allowed then 1 else 0
  }

  lemma OneMoreAllowed(limit: int, before: seq<MixedCall>, c: MixedCall, key: string, from: real)
    ensures MixedAllowed(limit, before + [c], key, from)
            == MixedAllowed(limit, before, key, from)
               + if c.fault.NoFault? then RedisHit(limit, RedisCalls(before), Call(c.key, c.now), key, from)
                 else MemoryHit(limit, MemoryCalls(before), Call(c.key, c.now), key, from)
  {
    hide Script, MemoryAllow, Redirect, ScriptRun, MemoryRun, RedisCalls, MemoryCalls, MixedRun;
    assert (before + [c])[..|before|] == before;
    TwoStores(limit, before);
  }

  /** The calls let through by the script of one call more. */
  lemma RedisCounts(limit: int, calls: seq<Call>, c: Call, key: string, from: real)
    ensures |PlainRun(limit, map[], calls).1| == |calls| && |PlainRun(limit, map[], calls + [c]).1| == |calls| + 1
    ensures AllowedIn(calls + [c], PlainRun(limit, map[], calls + [c]).1, key, from)
            == AllowedIn(calls, PlainRun(limit, map[], calls).1, key, from)
               + RedisHit(limit, calls, c, key, from)
  {
    hide PlainAllow, Script, AllowedIn;
    RedisAdmitsTheSame(limit, calls);
    RedisAdmitsTheSame(limit, calls + [c]);
    assert (calls + [c])[..|calls|] == calls;
    var d := PlainRun(limit, map[], calls + [c]).1[|calls|];
    assert PlainRun(limit, map[], calls + [c]).1 == PlainRun(limit, map[], calls).1 + [d];
    AllowedAppend(calls, PlainRun(limit, map[], calls).1, c, d, key, from);
  }

  lemma MemoryCounts(limit: int, calls: seq<Call>, c: Call, key: string, from: real)
    requires |MemoryRun(limit, map[], calls).1| == |UsedCalls(limit, calls)| == |calls|
    ensures |MemoryRun(limit, map[], calls + [c]).1| == |UsedCalls(limit, calls + [c])| == |calls| + 1
    ensures AllowedIn(UsedCalls(limit, calls + [c]), MemoryRun(limit, map[], calls + [c]).1, key, from)
            == AllowedIn(UsedCalls(limit, calls), MemoryRun(limit, map[], calls).1, key, from)
               + MemoryHit(limit, calls, c, key, from)
  {
    hide MemoryAllow, Redirect, AllowedIn;
    assert (calls + [c])[..|calls|] == calls;
    var table := MemoryRun(limit, map[], calls).0;
    AllowedAppend(UsedCalls(limit, calls), MemoryRun(limit, map[], calls).1,
                  c.(key := Redirect(table, c.key, c.now).1), MemoryAllow(limit, table, c.key, c.now).1, key, from);
  }

  /** A call let through was let through by one store or the other. */
  lemma {:induction false} EitherStoreAllowed(limit: int, calls: seq<MixedCall>, key: string, from: real)
    ensures var redis, memory := RedisCalls(calls), MemoryCalls(calls);
            && |PlainRun(limit, map[], redis).1| == |redis|
            && |MemoryRun(limit, map[], memory).1| == |UsedCalls(limit, memory)| == |memory|
            && MixedAllowed(limit, calls, key, from)
               <= AllowedIn(redis, PlainRun(limit, map[], redis).1, key, from)
                  + AllowedIn(UsedCalls(limit, memory), MemoryRun(limit, map[], memory).1, key, from)
  {
    if calls == [] {
      assert RedisCalls([]) == [] && MemoryCalls([]) == [];
    } else {
      hide AllowedIn, PlainRun, MemoryRun, UsedCalls, RedisCalls, MemoryCalls, RedisHit, MemoryHit, MixedAllowed;
      var before, c := calls[..|calls| - 1], calls[|calls| - 1];
      assert calls == before + [c];
      SplitCalls(before, c);
      EitherStoreAllowed(limit, before, key, from);
      OneMoreAllowed(limit, before, c, key, from);
      RedisCounts(limit, RedisCalls(before), Call(c.key, c.now), key, from);
      MemoryCounts(limit, MemoryCalls(before), Call(c.key, c.now), key, from);
    }
  }

  predicate MixedTimed(since: real, calls: seq<MixedCall>) {
    && (forall i :: 0 <= i < |calls| ==> since <= calls[i].now)
    && (forall i, j :: 0 <= i < j < |calls| ==> calls[i].now <= calls[j].now)
  }

  predicate NoLater(calls: seq<Call>, now: real) { forall i :: 0 <= i < |calls| ==> calls[i].now <= now }

  lemma TimedAppend(since: real, calls: seq<Call>, c: Call, last: real)
    requires Timed(since, calls) && NoLater(calls, last) && last <= c.now && since <= c.now
    ensures Timed(since, calls + [c]) && NoLater(calls + [c], c.now) && NoLater(calls, c.now)
  {
  }

  lemma TimedPrefix(since: real, calls: seq<MixedCall>)
    requires MixedTimed(since, calls) && calls != []
    ensures var n := |calls| - 1;
            && MixedTimed(since, calls[..n]) && since <= calls[n].now
            && (n > 0 ==> calls[n - 1].now <= calls[n].now)
  {
  }

  lemma {:induction false} EachStoreIsTimed(since: real, calls: seq<MixedCall>)
    requires MixedTimed(since, calls)
    ensures var last := if calls == [] then since else calls[|calls| - 1].now;
            && Timed(since, RedisCalls(calls)) && NoLater(RedisCalls(calls), last)
            && Timed(since, MemoryCalls(calls)) && NoLater(MemoryCalls(calls), last)
  {
    if calls != [] {
      var n := |calls| - 1;
      var c := calls[n];
      assert calls == calls[..n] + [c];
      var last := if n == 0 then since else calls[n - 1].now;
      TimedPrefix(since, calls);
      hide Timed, NoLater, RedisCalls, MemoryCalls, MixedTimed;
      EachStoreIsTimed(since, calls[..n]);
      SplitCalls(calls[..n], c);
      TimedAppend(since, RedisCalls(calls[..n]), Call(c.key, c.now), last);
      TimedAppend(since, MemoryCalls(calls[..n]), Call(c.key, c.now), last);
    }
  }

  /** However calls switch between Redis and memory, and whichever replies are lost, a 60-second interval lets at
      most twice 2 * limit - 1 calls through on the buckets of one name. */
  lemma SwitchingAtMostDoubles(limit: int, calls: seq<MixedCall>, key: string, from: real, since: real)
    requires limit >= 1 && MixedTimed(since, calls)
    ensures MixedAllowed(limit, calls, key, from) <= 2 * (2 * limit - 1)
  {
    hide AllowedIn, MixedAllowed, PlainAllow, MemoryAllow;
    EachStoreIsTimed(since, calls);
    EitherStoreAllowed(limit, calls, key, from);
    PlainAtMostTwiceTheLimit(limit, RedisCalls(calls), key, from, since);
    AtMostTwiceTheLimit(limit, MemoryCalls(calls), key, from, since);
  }

  // ----- Twice the bound is reached -----

  /** The burst twice at once: each call once through Redis, once past it. */
  function DoubleBurst(limit: nat): seq<MixedCall> {
    seq(4 * limit, i requires 0 <= i < 4 * limit =>
      MixedCall("k", Burst(limit)[i / 2].now, 1, if i % 2 == 0 then NoFault else LostBefore))
  }

  lemma BurstOnRedis(limit: nat, m: nat)
    requires 1 <= m <= 2 * limit
    ensures var b := BurstBucket(limit, m);
            ScriptRun(limit, map[], Burst(limit)[..m]).0 == map["k" := Counter(b.count, Some(b.expires))]
  {
    hide Script;
    var calls := Burst(limit)[..m];
    assert calls[..m - 1] == Burst(limit)[..m - 1];
    if m == 1 {
      assert calls[..0] == [];
    } else {
      BurstOnRedis(limit, m - 1);
    }
    RedisBurstStep(limit, m - 1);
  }

  /** The counter before call m of the burst, and what the script makes of it. */
  lemma RedisBurstStep(limit: nat, m: nat)
    requires m < 2 * limit
    ensures var before: Keys := if m == 0 then map[] else
              map["k" := Counter(BurstBucket(limit, m).count, Some(BurstBucket(limit, m).expires))];
            var b := BurstBucket(limit, m + 1);
            && Script(before, "k", Burst(limit)[m].now).0 == map["k" := Counter(b.count, Some(b.expires))]
            && Script(before, "k", Burst(limit)[m].now).1 == b.count <= limit
  {
  }

  /** From the second call on, each call of the burst is let through by either store. */
  lemma BurstHits(limit: nat, m: nat)
    requires m < 2 * limit
    ensures RedisHit(limit, Burst(limit)[..m], Burst(limit)[m], "k", 59.0) == if m == 0 then 0 else 1
    ensures MemoryHit(limit, Burst(limit)[..m], Burst(limit)[m], "k", 59.0) == if m == 0 then 0 else 1
  {
    hide Script, MemoryAllow, ScriptRun, MemoryRun, BurstBucket;
    RedisBurstStep(limit, m);
    if m > 0 {
      BurstOnRedis(limit, m);
      BurstGetsThrough(limit, m);
      BurstStep(limit, m);
    }
  }

  lemma DoubleBurstCalls(limit: nat, m: nat)
    requires m < 2 * limit
    ensures |DoubleBurst(limit)| == 4 * limit && |Burst(limit)| == 2 * limit
    ensures DoubleBurst(limit)[2 * m] == MixedCall("k", Burst(limit)[m].now, 1, NoFault)
    ensures DoubleBurst(limit)[2 * m + 1] == MixedCall("k", Burst(limit)[m].now, 1, LostBefore)
    ensures Burst(limit)[m] == Call("k", Burst(limit)[m].now)
  {
    assert (2 * m) / 2 == m && (2 * m + 1) / 2 == m && (2 * m) % 2 == 0 && (2 * m + 1) % 2 == 1;
  }

  lemma NothingAllowed(limit: int, calls: seq<MixedCall>)
    requires calls == []
    ensures RedisCalls(calls) == MemoryCalls(calls) == [] && MixedAllowed(limit, calls, "k", 59.0) == 0
  {
  }

  /** The same call once through Redis and once past it. */
  lemma TwoMoreAllowed(limit: nat, before: seq<MixedCall>, m: nat)
    requires m < 2 * limit == |Burst(limit)| && RedisCalls(before) == MemoryCalls(before) == Burst(limit)[..m]
    requires Burst(limit)[m] == Call("k", Burst(limit)[m].now)
    ensures var first := MixedCall("k", Burst(limit)[m].now, 1, NoFault);
            var second := first.(fault := LostBefore);
            var after := before + [first] + [second];
            && RedisCalls(after) == MemoryCalls(after) == Burst(limit)[..m] + [Burst(limit)[m]]
            && MixedAllowed(limit, after, "k", 59.0) == MixedAllowed(limit, before, "k", 59.0) + if m == 0 then 0 else 2
  {
    hide RedisHit, MemoryHit, RedisCalls, MemoryCalls, MixedAllowed, Burst;
    var first := MixedCall("k", Burst(limit)[m].now, 1, NoFault);
    var second := first.(fault := LostBefore);
    SplitCalls(before, first);
    SplitCalls(before + [first], second);
    OneMoreAllowed(limit, before, first, "k", 59.0);
    OneMoreAllowed(limit, before + [first], second, "k", 59.0);
    BurstHits(limit, m);
  }

  lemma {:induction false} DoubleBurstTally(limit: nat, m: nat)
    requires m <= 2 * limit == |Burst(limit)| && |DoubleBurst(limit)| == 4 * limit
    ensures RedisCalls(DoubleBurst(limit)[..2 * m]) == MemoryCalls(DoubleBurst(limit)[..2 * m]) == Burst(limit)[..m]
    ensures MixedAllowed(limit, DoubleBurst(limit)[..2 * m], "k", 59.0) == if m == 0 then 0 else 2 * (m - 1)
  {
    hide RedisCalls, MemoryCalls, MixedAllowed, DoubleBurst, Burst;
    var calls := DoubleBurst(limit);
    if m == 0 {
      NothingAllowed(limit, calls[..0]);
    } else {
      DoubleBurstTally(limit, m - 1);
      DoubleBurstCalls(limit, m - 1);
      TwoMoreAllowed(limit, calls[..2 * (m - 1)], m - 1);
      assert calls[..2 * m] == calls[..2 * (m - 1)] + [calls[2 * (m - 1)]] + [calls[2 * (m - 1) + 1]];
      assert Burst(limit)[..m] == Burst(limit)[..m - 1] + [Burst(limit)[m - 1]];
    }
  }

  lemma DoubleBurstIsTimed(limit: nat)
    ensures MixedTimed(0.0, DoubleBurst(limit))
  {
    var calls := DoubleBurst(limit);
    BurstIsTimed(limit);
    hide Burst;
    forall i, j | 0 <= i < j < |calls| ensures calls[i].now <= calls[j].now {
      assert i / 2 <= j / 2;
    }
  }

  lemma BurstIsTimed(limit: nat)
    ensures |Burst(limit)| == 2 * limit
    ensures forall i :: 0 <= i < 2 * limit ==> 0.0 <= Burst(limit)[i].now
    ensures forall i, j :: 0 <= i <= j < 2 * limit ==> Burst(limit)[i].now <= Burst(limit)[j].now
  {
  }

  /** No smaller bound holds for switching either: for every limit some run lets exactly twice 2 * limit - 1 calls
      through in 60 seconds. */
  lemma TwiceTheBoundIsReached(limit: nat)
    requires limit >= 1
    ensures MixedTimed(0.0, DoubleBurst(limit))
    ensures MixedAllowed(limit, DoubleBurst(limit), "k", 59.0) == 2 * (2 * limit - 1)
  {
    hide MixedAllowed, RedisCalls, MemoryCalls, MixedTimed;
    DoubleBurstIsTimed(limit);
    DoubleBurstCalls(limit, 0);
    hide DoubleBurst, Burst;
    DoubleBurstTally(limit, 2 * limit);
    assert DoubleBurst(limit)[..2 * (2 * limit)] == DoubleBurst(limit);
  }
}
