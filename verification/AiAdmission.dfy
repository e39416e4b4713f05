/**
 Admission of AI work: a lease protocol between processes and a shared Redis sorted set, with a
 process-local fallback and a kill switch.

 Times are milliseconds of one nondecreasing clock. A process reads the clock before it sends the acquire
 script, so the script may run later than the time it was given. A Redis call may fail before it takes
 effect or after it.
 */
module AiAdmission {
  import opened Faults
  import opened Numbers
  import opened Sets
  import opened Wrappers

  datatype Config = Config(limit: nat, leaseMs: nat, failClosed: bool, redis: bool)

  datatype Backend = Redis | Memory

  datatype Lease = Lease(token: nat, backend: Backend)

  datatype AcquireError = CapacityReached | BackendUnavailable

  /** The sorted set of tokens by expiry, the key's own time to live, and the control key. */
  datatype Server = Server(leases: map<nat, int>, keyExpires: int, control: Option<bool>)

  datatype Process = Process(localTokens: set<nat>, localEnabled: bool)

  // ----- One call -----

  /** What is left of the sorted set once Redis has dropped an expired key. */
  function Alive(s: Server, clock: int): map<nat, int> {
    if clock >= s.keyExpires then map[] else s.leases
  }

  function Purged(leases: map<nat, int>, now: int): map<nat, int> {
    map t | t in leases && leases[t] > now :: leases[t]
  }

  /** The acquire script, executed atomically at `clock` with the caller's `now`. */
  function AcquireScript(s: Server, clock: int, now: int, expires: int, limit: nat, token: nat): (Server, bool) {
    var leases := Purged(Alive(s, clock), now);
    if |leases| >= limit then (s.(leases := leases), false)
    else (s.(leases := leases[token := expires], keyExpires := clock + Max(1000, expires - now)), true)
  }

  function LocalAcquire(cfg: Config, p: Process, token: nat): (Process, Result<Lease, AcquireError>) {
    if |p.localTokens| >= cfg.limit then (p, Failure(CapacityReached))
    else (p.(localTokens := p.localTokens + {token}), Success(Lease(token, Memory)))
  }

  function Acquire(cfg: Config, s: Server, p: Process, clock: int, now: int, token: nat, fault: Fault)
    : (Server, Process, Result<Lease, AcquireError>)
  {
    if !cfg.redis then
      var (p', r) := LocalAcquire(cfg, p, token); (s, p', r)
    else
      var (s', allowed) :=
        if fault.LostBefore? then (s, false) else AcquireScript(s, clock, now, now + cfg.leaseMs, cfg.limit, token);
      if fault.NoFault? then
        (s', p, if allowed then Success(Lease(token, Redis)) else Failure(CapacityReached))
      else if cfg.failClosed then (s', p, Failure(BackendUnavailable))
      else
        var (p', r) := LocalAcquire(cfg, p, token); (s', p', r)
  }

  function Release(cfg: Config, s: Server, p: Process, clock: int, lease: Lease, fault: Fault): (Server, Process) {
    var s' := if lease.backend.Redis? && cfg.redis && !fault.LostBefore?
              then s.(leases := Alive(s, clock) - {lease.token}) else s;
    if lease.backend.Redis? && cfg.redis && fault.NoFault? then (s', p)
    else (s', p.(localTokens := p.localTokens - {lease.token}))
  }

  function IsEnabled(cfg: Config, s: Server, p: Process, fault: Fault): (Process, bool) {
    if !cfg.redis then (p, p.localEnabled)
    else if fault.NoFault? then
      var enabled := if s.control.Some? then s.control.value else p.localEnabled;
      (p.(localEnabled := enabled), enabled)
    else (p, if cfg.failClosed then false else p.localEnabled)
  }

  function SetEnabled(cfg: Config, s: Server, p: Process, enabled: bool, fault: Fault): (Server, Process, bool) {
    (if cfg.redis && !fault.LostBefore? then s.(control := Some(enabled)) else s,
     p.(localEnabled := enabled),
     if cfg.redis && !fault.NoFault? && cfg.failClosed && enabled then false else enabled)
  }

  // ----- The classes -----

  class RedisServer {
    var leases: map<nat, int>
    var keyExpires: int
    var control: Option<bool>

    constructor ()
      ensures View() == Server(map[], 0, None)
    {
      leases, keyExpires, control := map[], 0, None;
    }

    function View(): Server
      reads this
    {
      Server(leases, keyExpires, control)
    }

    method EvalAcquire(clock: int, now: int, expires: int, limit: nat, token: nat) returns (allowed: bool)
      modifies this
      ensures (View(), allowed) == AcquireScript(old(View()), clock, now, expires, limit, token)
    {
      if clock >= keyExpires { leases := map[]; }
      leases := map t | t in leases && leases[t] > now :: leases[t];
      if |leases| >= limit { return false; }
      leases := leases[token := expires];
      keyExpires := clock + Max(1000, expires - now);
      return true;
    }

    method Remove(clock: int, token: nat)
      modifies this
      ensures View() == old(View()).(leases := Alive(old(View()), clock) - {token})
    {
      if clock >= keyExpires { leases := map[]; }
      leases := leases - {token};
    }
  }

  class AiAdmissionController {
    const cfg: Config
    const redis: RedisServer
    var localTokens: set<nat>
    var localEnabled: bool

    constructor (cfg: Config, redis: RedisServer)
      ensures this.cfg == cfg && this.redis == redis && View() == Process({}, true)
    {
      this.cfg, this.redis := cfg, redis;
      localTokens, localEnabled := {}, true;
    }

    function View(): Process
      reads this
    {
      Process(localTokens, localEnabled)
    }

    method AcquireLease(clock: int, now: int, token: nat, fault: Fault) returns (r: Result<Lease, AcquireError>)
      modifies this, redis
      ensures (redis.View(), View(), r) == Acquire(cfg, old(redis.View()), old(View()), clock, now, token, fault)
    {
      if cfg.redis {
        var allowed := false;
        if !fault.LostBefore? {
          allowed := redis.EvalAcquire(clock, now, now + cfg.leaseMs, cfg.limit, token);
        }
        if fault.NoFault? {
          if !allowed { return Failure(CapacityReached); }
          return Success(Lease(token, Redis));
        }
        if cfg.failClosed { return Failure(BackendUnavailable); }
      }
      if |localTokens| >= cfg.limit { return Failure(CapacityReached); }
      localTokens := localTokens + {token};
      return Success(Lease(token, Memory));
    }

    method ReleaseLease(clock: int, lease: Lease, fault: Fault)
      modifies this, redis
      ensures (redis.View(), View()) == Release(cfg, old(redis.View()), old(View()), clock, lease, fault)
    {
      if lease.backend.Redis? && cfg.redis {
        if !fault.LostBefore? { redis.Remove(clock, lease.token); }
        if fault.NoFault? { return; }
      }
      localTokens := localTokens - {lease.token};
    }

    method ReadEnabled(fault: Fault) returns (enabled: bool)
      modifies this
      ensures (View(), enabled) == IsEnabled(cfg, redis.View(), old(View()), fault)
    {
      if cfg.redis {
        if fault.NoFault? {
          if redis.control.Some? { localEnabled := redis.control.value; }
        } else if cfg.failClosed {
          return false;
        }
      }
      return localEnabled;
    }

    method WriteEnabled(enabled: bool, fault: Fault) returns (reply: bool)
      modifies this, redis
      ensures (redis.View(), View(), reply) == SetEnabled(cfg, old(redis.View()), old(View()), enabled, fault)
    {
      localEnabled := enabled;
      if cfg.redis {
        if !fault.LostBefore? { redis.control := Some(enabled); }
        if !fault.NoFault? && cfg.failClosed && enabled { return false; }
      }
      return localEnabled;
    }
  }

  // ----- Runs -----

  /** A lease some request still holds: which process granted it, from where, and until when it counts. */
  datatype Grant = Grant(process: nat, backend: Backend, expires: int)

  datatype World = World(server: Server, processes: seq<Process>, granted: map<nat, Grant>, used: set<nat>, clock: int)

  datatype Step =
    | Tick(elapsed: nat)
    | AcquireStep(process: nat, token: nat, now: int, fault: Fault)
    | ReleaseStep(token: nat, fault: Fault)
    | IsEnabledStep(process: nat, fault: Fault)
    | SetEnabledStep(process: nat, enabled: bool, fault: Fault)

  /** One step; tokens are fresh, a script never runs before the time it was given. */
  function Next(cfg: Config, w: World, s: Step): World {
    match s
    case Tick(elapsed) => w.(clock := w.clock + elapsed)
    case AcquireStep(i, token, now, fault) =>
      if i >= |w.processes| || token in w.used || now > w.clock then w else
      var (server, p, r) := Acquire(cfg, w.server, w.processes[i], w.clock, now, token, fault);
      World(server, w.processes[i := p],
            if r.Success? then w.granted[token := Grant(i, r.value.backend, now + cfg.leaseMs)] else w.granted,
            w.used + {token}, w.clock)
    case ReleaseStep(token, fault) =>
      if token !in w.granted || w.granted[token].process >= |w.processes| then w else
      var g := w.granted[token];
      var (server, p) := Release(cfg, w.server, w.processes[g.process], w.clock, Lease(token, g.backend), fault);
      w.(server := server, processes := w.processes[g.process := p], granted := w.granted - {token})
    case IsEnabledStep(i, fault) =>
      if i >= |w.processes| then w else
      w.(processes := w.processes[i := IsEnabled(cfg, w.server, w.processes[i], fault).0])
    case SetEnabledStep(i, enabled, fault) =>
      if i >= |w.processes| then w else
      var (server, p, _) := SetEnabled(cfg, w.server, w.processes[i], enabled, fault);
      w.(server := server, processes := w.processes[i := p])
  }

  function Run(cfg: Config, w: World, steps: seq<Step>): World {
    if steps == [] then w else Next(cfg, Run(cfg, w, steps[..|steps| - 1]), steps[|steps| - 1])
  }

  predicate Initial(w: World) {
    && w.server == Server(map[], 0, None)
    && (forall i :: 0 <= i < |w.processes| ==> w.processes[i] == Process({}, true))
    && w.granted == map[] && w.used == {} && w.clock >= 0
  }

  predicate ServerInv(cfg: Config, w: World) {
    && |w.server.leases| <= cfg.limit
    && forall t | t in w.server.leases ::
         t in w.used && w.server.leases[t] <= w.clock + cfg.leaseMs && w.server.leases[t] <= w.server.keyExpires
  }

  predicate GrantInv(cfg: Config, w: World, t: nat)
    requires t in w.granted
  {
    var g := w.granted[t];
    && t in w.used && g.process < |w.processes|
    && (g.backend.Redis? ==>
          && cfg.redis
          && (g.expires > w.clock ==> t in w.server.leases && w.server.leases[t] == g.expires))
    && (g.backend.Memory? ==> t in w.processes[g.process].localTokens && (cfg.redis ==> !cfg.failClosed))
  }

  predicate ProcessInv(cfg: Config, w: World, i: nat)
    requires i < |w.processes|
  {
    && |w.processes[i].localTokens| <= cfg.limit
    && forall t | t in w.processes[i].localTokens ::
         t in w.granted && w.granted[t].process == i && w.granted[t].backend.Memory?
  }

  predicate Inv(cfg: Config, w: World) {
    && ServerInv(cfg, w)
    && (forall t | t in w.granted :: GrantInv(cfg, w, t))
    && (forall i :: 0 <= i < |w.processes| ==> ProcessInv(cfg, w, i))
  }

  lemma FewerKeys(m: map<nat, int>, m': map<nat, int>)
    requires m.Keys <= m'.Keys
    ensures |m| <= |m'|
  {
    SubsetCount(m.Keys, m'.Keys);
    assert |m| == |m.Keys| && |m'| == |m'.Keys|;
  }

  /** The script stays within the limit and within the key's time to live, and drops no token that counts. */
  lemma ScriptKeeps(cfg: Config, w: World, now: int, token: nat)
    requires ServerInv(cfg, w) && now <= w.clock && token !in w.used
    ensures var (s, allowed) := AcquireScript(w.server, w.clock, now, now + cfg.leaseMs, cfg.limit, token);
            && |s.leases| <= cfg.limit
            && (forall t | t in s.leases ::
                  && (t in w.used || t == token)
                  && s.leases[t] <= w.clock + cfg.leaseMs && s.leases[t] <= s.keyExpires)
            && (forall t | t in w.server.leases && w.server.leases[t] > w.clock ::
                  t in s.leases && s.leases[t] == w.server.leases[t])
            && (allowed ==> token in s.leases && s.leases[token] == now + cfg.leaseMs)
  {
    FewerKeys(Purged(Alive(w.server, w.clock), now), w.server.leases);
  }

  /** How the processes change: nothing, or one new local token of the caller's. */
  lemma LocalKeeps(cfg: Config, w: World, w': World, i: nat, token: nat)
    requires forall k :: 0 <= k < |w.processes| ==> ProcessInv(cfg, w, k)
    requires i < |w.processes| && token !in w.granted
    requires forall t | t in w.granted :: t in w'.granted && w'.granted[t] == w.granted[t]
    requires w'.processes == w.processes
             || (token in w'.granted && w'.granted[token].process == i && w'.granted[token].backend.Memory?
                 && w'.processes == w.processes[i := LocalAcquire(cfg, w.processes[i], token).0])
    ensures forall k :: 0 <= k < |w'.processes| ==> ProcessInv(cfg, w', k)
  {
    forall k | 0 <= k < |w'.processes| ensures ProcessInv(cfg, w', k) { assert ProcessInv(cfg, w, k); }
  }

  lemma AcquireKeepsServer(cfg: Config, w: World, s: Step)
    requires ServerInv(cfg, w) && s.AcquireStep?
    ensures ServerInv(cfg, Next(cfg, w, s))
  {
    hide AcquireScript;
    if s.now <= w.clock && s.token !in w.used { ScriptKeeps(cfg, w, s.now, s.token); }
  }

  lemma AcquireKeepsGrant(cfg: Config, w: World, s: Step, t: nat)
    requires ServerInv(cfg, w) && s.AcquireStep? && s.token !in w.granted && t in Next(cfg, w, s).granted
    requires t in w.granted ==> GrantInv(cfg, w, t)
    ensures GrantInv(cfg, Next(cfg, w, s), t)
  {
    hide AcquireScript;
    if s.now <= w.clock && s.token !in w.used { ScriptKeeps(cfg, w, s.now, s.token); }
  }

  lemma AcquireKeeps(cfg: Config, w: World, s: Step)
    requires Inv(cfg, w) && s.AcquireStep?
    ensures Inv(cfg, Next(cfg, w, s))
  {
    hide AcquireScript, ProcessInv, ServerInv;
    var w' := Next(cfg, w, s);
    if w' != w {
      assert s.token !in w.granted by {
        forall t | t in w.granted ensures t in w.used { assert GrantInv(cfg, w, t); }
      }
      LocalKeeps(cfg, w, w', s.process, s.token);
      AcquireKeepsServer(cfg, w, s);
      forall t | t in w'.granted ensures GrantInv(cfg, w', t) {
        if t in w.granted { assert GrantInv(cfg, w, t); }
        AcquireKeepsGrant(cfg, w, s, t);
      }
    }
  }

  /** One token of the granted ones is taken out, the rest is left as it is. */
  predicate TakesOne(w: World, w': World, token: nat)
    requires token in w.granted && w.granted[token].process < |w.processes|
  {
    var i := w.granted[token].process;
    && w'.granted == w.granted - {token} && w'.used == w.used && w'.clock == w.clock
    && |w'.processes| == |w.processes|
    && (forall k | 0 <= k < |w.processes| && k != i :: w'.processes[k] == w.processes[k])
    && w.processes[i].localTokens - {token} <= w'.processes[i].localTokens <= w.processes[i].localTokens
    && (w.granted[token].backend.Memory? ==> token !in w'.processes[i].localTokens)
    && (forall t | t in w.server.leases && t != token && w.server.leases[t] > w.clock ::
          t in w'.server.leases && w'.server.leases[t] == w.server.leases[t])
  }

  lemma ReleaseTakesOne(cfg: Config, w: World, s: Step)
    requires ServerInv(cfg, w) && s.ReleaseStep? && s.token in w.granted && GrantInv(cfg, w, s.token)
    ensures ServerInv(cfg, Next(cfg, w, s)) && TakesOne(w, Next(cfg, w, s), s.token)
  {
    hide Alive;
    var g := w.granted[s.token];
    ReleaseServes(cfg, w, w.processes[g.process], Lease(s.token, g.backend), s.fault);
    ReleaseDiscards(cfg, w.server, w.processes[g.process], w.clock, Lease(s.token, g.backend), s.fault);
    hide Release;
  }

  lemma ReleaseServes(cfg: Config, w: World, p: Process, lease: Lease, fault: Fault)
    requires ServerInv(cfg, w)
    ensures var s' := Release(cfg, w.server, p, w.clock, lease, fault).0;
            && |s'.leases| <= cfg.limit && s'.keyExpires == w.server.keyExpires
            && (forall t | t in s'.leases :: t in w.server.leases && s'.leases[t] == w.server.leases[t])
            && (forall t | t in w.server.leases && t != lease.token && w.server.leases[t] > w.clock ::
                  t in s'.leases && s'.leases[t] == w.server.leases[t])
  {
    var s' := Release(cfg, w.server, p, w.clock, lease, fault).0;
    assert s'.leases.Keys <= w.server.leases.Keys;
    FewerKeys(s'.leases, w.server.leases);
  }

  lemma ReleaseDiscards(cfg: Config, s: Server, p: Process, clock: int, lease: Lease, fault: Fault)
    ensures var p' := Release(cfg, s, p, clock, lease, fault).1;
            && p.localTokens - {lease.token} <= p'.localTokens <= p.localTokens
            && (lease.backend.Memory? ==> lease.token !in p'.localTokens)
  {
  }

  lemma TakenKeepsGrant(cfg: Config, w: World, w': World, token: nat, t: nat)
    requires token in w.granted && w.granted[token].process < |w.processes| && TakesOne(w, w', token)
    requires t in w'.granted && t in w.granted && GrantInv(cfg, w, t)
    ensures GrantInv(cfg, w', t)
  {
    assert t != token && w'.granted[t] == w.granted[t];
    var i := w.granted[t].process;
    if i == w.granted[token].process && t in w.processes[i].localTokens {
      assert t in w.processes[i].localTokens - {token};
    }
  }

  lemma TakenKeepsProcess(cfg: Config, w: World, w': World, token: nat, k: nat)
    requires token in w.granted && w.granted[token].process < |w.processes| && TakesOne(w, w', token)
    requires k < |w.processes| && ProcessInv(cfg, w, k)
    ensures ProcessInv(cfg, w', k)
  {
    SubsetCount(w'.processes[k].localTokens, w.processes[k].localTokens);
    forall t | t in w'.processes[k].localTokens
      ensures t in w'.granted && w'.granted[t].process == k && w'.granted[t].backend.Memory?
    {
      assert t in w.processes[k].localTokens;
    }
  }

  lemma ReleaseKeeps(cfg: Config, w: World, s: Step)
    requires Inv(cfg, w) && s.ReleaseStep?
    ensures Inv(cfg, Next(cfg, w, s))
  {
    if s.token in w.granted {
      assert GrantInv(cfg, w, s.token);
      ReleaseTakesOne(cfg, w, s);
      var w' := Next(cfg, w, s);
      assert w'.granted == w.granted - {s.token} && |w'.processes| == |w.processes|;
      hide Next, ServerInv, GrantInv, ProcessInv, TakesOne;
      forall t | t in w'.granted ensures GrantInv(cfg, w', t) { TakenKeepsGrant(cfg, w, w', s.token, t); }
      forall k | 0 <= k < |w'.processes| ensures ProcessInv(cfg, w', k) { TakenKeepsProcess(cfg, w, w', s.token, k); }
    }
  }

  lemma StepKeepsInv(cfg: Config, w: World, s: Step)
    requires Inv(cfg, w)
    ensures Inv(cfg, Next(cfg, w, s))
  {
    match s
    case AcquireStep(_, _, _, _) => AcquireKeeps(cfg, w, s);
    case ReleaseStep(_, _) => ReleaseKeeps(cfg, w, s);
    case _ =>
      var w' := Next(cfg, w, s);
      forall t | t in w'.granted ensures GrantInv(cfg, w', t) { assert GrantInv(cfg, w, t); }
      forall i | 0 <= i < |w'.processes| ensures ProcessInv(cfg, w', i) { assert ProcessInv(cfg, w, i); }
  }

  lemma {:induction false} RunKeepsInv(cfg: Config, w: World, steps: seq<Step>)
    requires Inv(cfg, w)
    ensures Inv(cfg, Run(cfg, w, steps))
    ensures |Run(cfg, w, steps).processes| == |w.processes|
    ensures Run(cfg, w, steps).clock >= w.clock
  {
    if steps != [] {
      RunKeepsInv(cfg, w, steps[..|steps| - 1]);
      StepKeepsInv(cfg, Run(cfg, w, steps[..|steps| - 1]), steps[|steps| - 1]);
    }
  }

  lemma InitialInv(cfg: Config, w: World)
    requires Initial(w)
    ensures Inv(cfg, w)
  {
  }

  // ----- Guarantees -----

  /** Granted, unreleased, and not past the lease. A memory lease has no end. */
  function Holding(w: World): set<nat> {
    set t | t in w.granted && (w.granted[t].backend.Memory? || w.granted[t].expires > w.clock)
  }

  function HoldingFrom(w: World, backend: Backend): set<nat> {
    set t | t in Holding(w) && w.granted[t].backend == backend
  }

  lemma RedisHoldersFit(cfg: Config, w: World)
    requires Inv(cfg, w)
    ensures |HoldingFrom(w, Redis)| <= cfg.limit
  {
    forall t | t in HoldingFrom(w, Redis) ensures t in w.server.leases.Keys { assert GrantInv(cfg, w, t); }
    SubsetCount(HoldingFrom(w, Redis), w.server.leases.Keys);
  }

  /** Fail closed with Redis: in every run, over any processes, ticks and Redis errors, the leases that are
      neither released nor expired number at most the limit. */
  lemma FailClosedNeverExceedsLimit(cfg: Config, w0: World, steps: seq<Step>)
    requires Initial(w0) && cfg.redis && cfg.failClosed
    ensures |Holding(Run(cfg, w0, steps))| <= cfg.limit
  {
    RunKeepsInv(cfg, w0, steps);
    var w := Run(cfg, w0, steps);
    RedisHoldersFit(cfg, w);
    forall t | t in Holding(w) ensures w.granted[t].backend.Redis? { assert GrantInv(cfg, w, t); }
    assert Holding(w) == HoldingFrom(w, Redis);
  }

  /** Neither the purge nor the key's time to live ever drops a live lease: in every run, a lease granted by
      Redis that is neither released nor expired is still stored, under its own expiry, in a key that lives on. */
  lemma LiveLeasesStayStored(cfg: Config, w0: World, steps: seq<Step>, t: nat)
    requires Initial(w0)
    ensures var w := Run(cfg, w0, steps);
            t in HoldingFrom(w, Redis) ==>
              t in Alive(w.server, w.clock) && w.server.leases[t] == w.granted[t].expires
  {
    InitialInv(cfg, w0);
    RunKeepsInv(cfg, w0, steps);
    var w := Run(cfg, w0, steps);
    if t in HoldingFrom(w, Redis) { assert GrantInv(cfg, w, t); }
  }

  function LocalUpTo(w: World, n: nat): set<nat>
    requires n <= |w.processes|
  {
    set t | t in HoldingFrom(w, Memory) && w.granted[t].process < n
  }

  lemma {:induction false} LocalHoldersFit(cfg: Config, w: World, n: nat)
    requires Inv(cfg, w) && n <= |w.processes|
    ensures |LocalUpTo(w, n)| <= n * cfg.limit
  {
    if n > 0 {
      LocalHoldersFit(cfg, w, n - 1);
      var tokens := w.processes[n - 1].localTokens;
      forall t | t in LocalUpTo(w, n) ensures t in LocalUpTo(w, n - 1) + tokens { assert GrantInv(cfg, w, t); }
      SubsetCount(LocalUpTo(w, n), LocalUpTo(w, n - 1) + tokens);
      assert ProcessInv(cfg, w, n - 1);
      assert n * cfg.limit == (n - 1) * cfg.limit + cfg.limit;
    }
  }

  /** With the fallback, N processes hold at most (N + 1) * limit unexpired leases, and each process's local
      tokens are exactly its outstanding memory leases. */
  lemma FallbackIsBounded(cfg: Config, w0: World, steps: seq<Step>)
    requires Initial(w0)
    ensures var w := Run(cfg, w0, steps);
            && |Holding(w)| <= (|w0.processes| + 1) * cfg.limit
            && |w.processes| == |w0.processes|
            && forall i :: 0 <= i < |w.processes| ==>
                 w.processes[i].localTokens == MemoryGrants(w, i)
  {
    hide Inv, Next, Holding, MemoryGrants;
    InitialInv(cfg, w0);
    RunKeepsInv(cfg, w0, steps);
    var w := Run(cfg, w0, steps);
    HoldersFit(cfg, w);
    forall i | 0 <= i < |w.processes| ensures w.processes[i].localTokens == MemoryGrants(w, i) {
      LocalTokensAreGrants(cfg, w, i);
    }
  }

  function MemoryGrants(w: World, i: nat): set<nat> {
    set t | t in w.granted && w.granted[t].process == i && w.granted[t].backend.Memory?
  }

  lemma LocalTokensAreGrants(cfg: Config, w: World, i: nat)
    requires Inv(cfg, w) && i < |w.processes|
    ensures w.processes[i].localTokens == MemoryGrants(w, i)
  {
    assert ProcessInv(cfg, w, i);
    forall t | t in w.granted ensures GrantInv(cfg, w, t) {}
  }

  lemma HoldersFit(cfg: Config, w: World)
    requires Inv(cfg, w)
    ensures |Holding(w)| <= (|w.processes| + 1) * cfg.limit
  {
    var n := |w.processes|;
    RedisHoldersFit(cfg, w);
    LocalHoldersFit(cfg, w, n);
    forall t | t in Holding(w) ensures t in HoldingFrom(w, Redis) + LocalUpTo(w, n) { assert GrantInv(cfg, w, t); }
    SubsetCount(Holding(w), HoldingFrom(w, Redis) + LocalUpTo(w, n));
    assert (n + 1) * cfg.limit == n * cfg.limit + cfg.limit;
  }

  /** The stored tokens that still count at a time: held, leaked by a lost reply, or left by a failed release. */
  function Counting(s: Server, now: int): set<nat> {
    set t | t in s.leases && s.leases[t] > now
  }

  /** An acquire whose reply arrives is granted exactly when fewer than `limit` stored tokens still count:
      neither the purge nor the key's expiry ever forgets one that does. A delayed script errs only towards
      refusing. */
  lemma GrantedIffRoom(cfg: Config, w0: World, steps: seq<Step>, i: nat, token: nat, now: int)
    requires Initial(w0) && cfg.redis && now <= Run(cfg, w0, steps).clock
    requires i < |Run(cfg, w0, steps).processes|
    ensures var w := Run(cfg, w0, steps);
            var r := Acquire(cfg, w.server, w.processes[i], w.clock, now, token, NoFault).2;
            && (now == w.clock ==> (r.Success? <==> |Counting(w.server, now)| < cfg.limit))
            && (r.Success? ==> |Counting(w.server, w.clock)| < cfg.limit)
  {
    RunKeepsInv(cfg, w0, steps);
    var w := Run(cfg, w0, steps);
    var leases := Purged(Alive(w.server, w.clock), now);
    assert |leases| == |leases.Keys|;
    assert Counting(w.server, w.clock) <= leases.Keys;
    SubsetCount(Counting(w.server, w.clock), leases.Keys);
    if now == w.clock { assert leases.Keys == Counting(w.server, now); }
  }

  /** A token in the set at some moment, leaked or not, delays nobody for longer than the lease: its expiry
      never moves and lies at most one lease ahead of that moment. */
  lemma {:induction false} TokensDoNotLinger(cfg: Config, w: World, steps: seq<Step>, t: nat)
    requires Inv(cfg, w) && t in w.used
    ensures var w' := Run(cfg, w, steps);
            && t in w'.used
            && (t in w'.server.leases ==> t in w.server.leases && w'.server.leases[t] == w.server.leases[t])
            && t !in Counting(w'.server, w.clock + cfg.leaseMs)
  {
    if steps != [] {
      TokensDoNotLinger(cfg, w, steps[..|steps| - 1], t);
      StepAddsOnlyFresh(cfg, Run(cfg, w, steps[..|steps| - 1]), steps[|steps| - 1], t);
    }
  }

  lemma StepAddsOnlyFresh(cfg: Config, w: World, s: Step, t: nat)
    requires t in w.used
    ensures var w' := Next(cfg, w, s);
            && t in w'.used
            && (t in w'.server.leases ==> t in w.server.leases && w'.server.leases[t] == w.server.leases[t])
  {
    hide LocalAcquire;
  }

  // ----- What an acquire answers and what a release frees -----

  /** The answer of one acquire and what it stores, by the path it takes: Redis answers, Redis fails and the policy
      is to fail closed, or the process decides alone. */
  lemma AcquireAnswers(cfg: Config, w0: World, steps: seq<Step>, i: nat, token: nat, now: int, fault: Fault)
    requires Initial(w0) && now <= Run(cfg, w0, steps).clock && token !in Run(cfg, w0, steps).used
    requires i < |Run(cfg, w0, steps).processes|
    ensures var w := Run(cfg, w0, steps);
            var (s', p', r) := Acquire(cfg, w.server, w.processes[i], w.clock, now, token, fault);
            if cfg.redis && fault.NoFault? then
              && p' == w.processes[i]
              && (r.Success? ==> r.value == Lease(token, Redis)
                                 && token in s'.leases && s'.leases[token] == now + cfg.leaseMs)
              && (r.Failure? ==> r.error == CapacityReached && token !in s'.leases)
              && (now == w.clock ==> (r.Success? <==> |Counting(w.server, now)| < cfg.limit))
            else if cfg.redis && cfg.failClosed then p' == w.processes[i] && r == Failure(BackendUnavailable)
            else
              if |MemoryGrants(w, i)| < cfg.limit
              then r == Success(Lease(token, Memory)) && p'.localTokens == MemoryGrants(w, i) + {token}
              else r == Failure(CapacityReached) && p' == w.processes[i]
  {
    InitialInv(cfg, w0);
    RunKeepsInv(cfg, w0, steps);
    var w := Run(cfg, w0, steps);
    LocalTokensAreGrants(cfg, w, i);
    if cfg.redis && fault.NoFault? { GrantedIffRoom(cfg, w0, steps, i, token, now); }
    assert token !in w.server.leases;
  }

  /** What an acquire leaves in Redis, whether its reply arrives or not: nothing new if its call did not run;
      otherwise the tokens that still count, none that did not count at the time it gave, and perhaps its own. */
  lemma AcquireStores(cfg: Config, w: World, i: nat, token: nat, now: int, fault: Fault)
    requires Inv(cfg, w) && i < |w.processes| && now <= w.clock && token !in w.used
    ensures var s' := Acquire(cfg, w.server, w.processes[i], w.clock, now, token, fault).0;
            && (!cfg.redis || fault.LostBefore? ==> s' == w.server)
            && (cfg.redis && !fault.LostBefore? ==>
                  && s' == Acquire(cfg, w.server, w.processes[i], w.clock, now, token, NoFault).0
                  && (forall t | t in s'.leases && t != token ::
                        t in w.server.leases && s'.leases[t] == w.server.leases[t] && s'.leases[t] > now)
                  && (forall t | t in w.server.leases && w.server.leases[t] > w.clock :: t in s'.leases))
  {
    ScriptKeeps(cfg, w, now, token);
  }

  /** What one release changes: of the stored tokens that count, its own is gone, and only that, if the call ran; the
      local tokens lose a token of theirs. */
  lemma ReleaseFreesOne(cfg: Config, w: World, token: nat, fault: Fault)
    requires Inv(cfg, w) && token in w.granted
    ensures var w' := Next(cfg, w, ReleaseStep(token, fault));
            var g := w.granted[token];
            && w'.granted == w.granted - {token} && |w'.processes| == |w.processes|
            && (if g.backend.Redis? && !fault.LostBefore?
                then Counting(w'.server, w.clock) == Counting(w.server, w.clock) - {token}
                else w'.server == w.server)
            && (forall i :: 0 <= i < |w.processes| ==>
                  w'.processes[i].localTokens == w.processes[i].localTokens - {token}
                  && w'.processes[i].localEnabled == w.processes[i].localEnabled)
  {
    assert GrantInv(cfg, w, token);
    forall i | 0 <= i < |w.processes|
      ensures Next(cfg, w, ReleaseStep(token, fault)).processes[i].localTokens == w.processes[i].localTokens - {token}
    {
      assert ProcessInv(cfg, w, i);
    }
  }

  /** A release of a Redis lease whose call ran takes the token out of Redis for good. */
  lemma {:induction false} ReleasedIsGone(cfg: Config, w: World, s: Step, steps: seq<Step>)
    requires Inv(cfg, w) && s.ReleaseStep? && s.token in w.granted
    requires w.granted[s.token].backend.Redis? && !s.fault.LostBefore?
    ensures var w' := Run(cfg, Next(cfg, w, s), steps);
            s.token !in w'.server.leases && s.token in w'.used && s.token !in w'.granted
  {
    if steps == [] {
      assert GrantInv(cfg, w, s.token);
    } else {
      var before := Run(cfg, Next(cfg, w, s), steps[..|steps| - 1]);
      ReleasedIsGone(cfg, w, s, steps[..|steps| - 1]);
      StepAddsOnlyFresh(cfg, before, steps[|steps| - 1], s.token);
      NotGrantedAgain(cfg, before, steps[|steps| - 1], s.token);
    }
  }

  lemma NotGrantedAgain(cfg: Config, w: World, s: Step, t: nat)
    requires t in w.used && t !in w.granted
    ensures t !in Next(cfg, w, s).granted
  {
    hide Acquire, Release, IsEnabled, SetEnabled;
  }

  /** A step in which no granted token is lost to its holder and no release is lost to Redis. */
  predicate NothingLost(s: Step) {
    && (s.AcquireStep? ==> !s.fault.LostAfter?)
    && (s.ReleaseStep? ==> !s.fault.LostBefore?)
  }

  /** Every stored token that still counts is a held Redis lease. */
  predicate NothingLeaked(w: World) {
    forall t | t in w.server.leases && w.server.leases[t] > w.clock ::
      t in w.granted && w.granted[t].backend.Redis? && w.granted[t].expires == w.server.leases[t]
  }

  lemma StepLeaksNothing(cfg: Config, w: World, s: Step)
    requires Inv(cfg, w) && NothingLeaked(w) && NothingLost(s)
    ensures NothingLeaked(Next(cfg, w, s))
  {
    if s.ReleaseStep? && s.token in w.granted { assert GrantInv(cfg, w, s.token); }
    hide LocalAcquire, IsEnabled;
  }

  lemma {:induction false} RunLeaksNothing(cfg: Config, w0: World, steps: seq<Step>)
    requires Initial(w0) && forall k :: 0 <= k < |steps| ==> NothingLost(steps[k])
    ensures Inv(cfg, Run(cfg, w0, steps)) && NothingLeaked(Run(cfg, w0, steps))
  {
    InitialInv(cfg, w0);
    if steps != [] {
      hide Inv, NothingLeaked, NothingLost, Next;
      RunLeaksNothing(cfg, w0, steps[..|steps| - 1]);
      StepKeepsInv(cfg, Run(cfg, w0, steps[..|steps| - 1]), steps[|steps| - 1]);
      StepLeaksNothing(cfg, Run(cfg, w0, steps[..|steps| - 1]), steps[|steps| - 1]);
    }
  }

  /** When no reply to an acquire and no release is lost, the stored tokens that count are exactly the Redis leases
      held, so an acquire is granted if and only if fewer than `limit` of them are. */
  lemma GrantedIffFewerHeld(cfg: Config, w0: World, steps: seq<Step>, i: nat, token: nat)
    requires Initial(w0) && cfg.redis && forall k :: 0 <= k < |steps| ==> NothingLost(steps[k])
    requires i < |Run(cfg, w0, steps).processes|
    ensures var w := Run(cfg, w0, steps);
            && Counting(w.server, w.clock) == HoldingFrom(w, Redis)
            && (Acquire(cfg, w.server, w.processes[i], w.clock, w.clock, token, NoFault).2.Success?
                <==> |HoldingFrom(w, Redis)| < cfg.limit)
  {
    hide Acquire;
    RunLeaksNothing(cfg, w0, steps);
    var w := Run(cfg, w0, steps);
    GrantedIffRoom(cfg, w0, steps, i, token, w.clock);
    hide Run;
    forall t | t in HoldingFrom(w, Redis) ensures t in Counting(w.server, w.clock) { assert GrantInv(cfg, w, t); }
    assert Counting(w.server, w.clock) == HoldingFrom(w, Redis);
  }

  /** The key of the sorted set does not outlive its newest lease by more than the one-second minimum. */
  lemma {:induction false} KeyExpires(cfg: Config, w0: World, steps: seq<Step>)
    requires Initial(w0)
    ensures Run(cfg, w0, steps).server.keyExpires <= Run(cfg, w0, steps).clock + Max(1000, cfg.leaseMs)
    ensures Run(cfg, w0, steps).clock >= 0
  {
    if steps != [] {
      hide Purged, Alive, LocalAcquire;
      KeyExpires(cfg, w0, steps[..|steps| - 1]);
    }
  }

  // ----- The kill switch -----

  /** A step that may store "enabled" in Redis. */
  predicate MayEnable(s: Step) { s.SetEnabledStep? && s.enabled && !s.fault.LostBefore? }

  /** Fail closed: once a disable is stored, every process answers disabled, whatever Redis failures occur and
      whatever its own flag says, until some process stores an enable. */
  lemma {:induction false} StoredDisableHolds(cfg: Config, w: World, steps: seq<Step>, i: nat, fault: Fault)
    requires cfg.redis && cfg.failClosed && w.server.control == Some(false)
    requires forall k :: 0 <= k < |steps| ==> !MayEnable(steps[k])
    ensures Run(cfg, w, steps).server.control == Some(false)
    ensures i < |Run(cfg, w, steps).processes| ==>
              !IsEnabled(cfg, Run(cfg, w, steps).server, Run(cfg, w, steps).processes[i], fault).1
  {
    if steps != [] { StoredDisableHolds(cfg, w, steps[..|steps| - 1], i, fault); }
  }

  /** Whether some read of a process reached Redis. */
  predicate HasRead(steps: seq<Step>, reader: nat) {
    steps != [] && (steps[|steps| - 1] == IsEnabledStep(reader, NoFault) || HasRead(steps[..|steps| - 1], reader))
  }

  /** Without further `set_enabled` calls nothing moves the control key, and a process's own flag is what its
      last read from Redis found there, or what it was. */
  lemma {:induction false} FlagFollowsReads(cfg: Config, w: World, steps: seq<Step>, reader: nat)
    requires cfg.redis && reader < |w.processes|
    requires forall k :: 0 <= k < |steps| ==> !steps[k].SetEnabledStep?
    ensures var w' := Run(cfg, w, steps);
            && w'.server.control == w.server.control && |w'.processes| == |w.processes|
            && w'.processes[reader].localEnabled
               == if w.server.control.Some? && HasRead(steps, reader) then w.server.control.value
                  else w.processes[reader].localEnabled
  {
    if steps != [] {
      hide Next, IsEnabled;
      var n := |steps| - 1;
      FlagFollowsReads(cfg, w, steps[..n], reader);
      FlagFollowsRead(cfg, Run(cfg, w, steps[..n]), steps[n], reader);
    }
  }

  lemma FlagFollowsRead(cfg: Config, w: World, s: Step, reader: nat)
    requires cfg.redis && reader < |w.processes| && !s.SetEnabledStep?
    ensures var w' := Next(cfg, w, s);
            && w'.server.control == w.server.control && |w'.processes| == |w.processes|
            && w'.processes[reader].localEnabled
               == if w.server.control.Some? && s == IsEnabledStep(reader, NoFault) then w.server.control.value
                  else w.processes[reader].localEnabled
  {
    hide Purged, Alive;
  }

  /** What `set_enabled` answers: what was asked, except that an enable whose call failed is answered as disabled
      when the policy is to fail closed. And what a read answers after it and any steps without another
      `set_enabled`:
      - reaching Redis, what is stored there, which is the new value unless the write was lost before it took
        effect; or, with nothing stored, the reader's own flag;
      - not reaching Redis, disabled when the policy is to fail closed, and otherwise the reader's own flag: what
        its last read found, or what it was, the caller's being the value asked for. */
  lemma {:induction false} SwitchHoldsIff(cfg: Config, w: World, i: nat, enabled: bool, fault: Fault, steps: seq<Step>,
                                          reader: nat, readFault: Fault)
    requires cfg.redis && i < |w.processes| && reader < |w.processes|
    requires forall k :: 0 <= k < |steps| ==> !steps[k].SetEnabledStep?
    ensures SetEnabled(cfg, w.server, w.processes[i], enabled, fault).2
            <==> enabled && (fault.NoFault? || !cfg.failClosed)
    ensures var w' := Run(cfg, Next(cfg, w, SetEnabledStep(i, enabled, fault)), steps);
            var stored := if fault.LostBefore? then w.server.control else Some(enabled);
            var own := if reader == i then enabled else w.processes[reader].localEnabled;
            && |w'.processes| == |w.processes|
            && (IsEnabled(cfg, w'.server, w'.processes[reader], readFault).1
                <==> if readFault.NoFault? then (if stored.Some? then stored.value else own)
                     else !cfg.failClosed && (if stored.Some? && HasRead(steps, reader) then stored.value else own))
  {
    FlagFollowsReads(cfg, Next(cfg, w, SetEnabledStep(i, enabled, fault)), steps, reader);
  }

  /** Without Redis a process answers what it was last told. */
  lemma SwitchIsLocalWithoutRedis(cfg: Config, s: Server, p: Process, enabled: bool, fault: Fault, readFault: Fault)
    requires !cfg.redis
    ensures var (s', p', reply) := SetEnabled(cfg, s, p, enabled, fault);
            s' == s && reply == enabled && IsEnabled(cfg, s', p', readFault) == (p', enabled)
  {
  }

  /** `set_enabled(False)` answers disabled even when its write to Redis is lost. Exactly when the answer holds:
      after it and any steps without another `set_enabled`, a read is disabled if and only if
      - reaching Redis, it finds the disable that was written or an earlier one, or finds nothing and the reader
        is the caller or was switched off before;
      - not reaching Redis, the policy is to fail closed, or the reader's own flag is off: it has read a disable
        since, or it has read nothing since and is the caller or was switched off before. */
  lemma DisableHoldsIff(cfg: Config, w: World, i: nat, fault: Fault, steps: seq<Step>, reader: nat, readFault: Fault)
    requires cfg.redis && i < |w.processes| && reader < |w.processes|
    requires forall k :: 0 <= k < |steps| ==> !steps[k].SetEnabledStep?
    ensures !SetEnabled(cfg, w.server, w.processes[i], false, fault).2
    ensures var w' := Run(cfg, Next(cfg, w, SetEnabledStep(i, false, fault)), steps);
            var stored := if fault.LostBefore? then w.server.control else Some(false);
            var wasOff := reader == i || !w.processes[reader].localEnabled;
            && |w'.processes| == |w.processes|
            && (!IsEnabled(cfg, w'.server, w'.processes[reader], readFault).1
                <==> if readFault.NoFault? then stored == Some(false) || (stored.None? && wasOff)
                     else || cfg.failClosed
                          || (if stored.Some? && HasRead(steps, reader) then stored == Some(false) else wasOff))
  {
    hide Run, Next, IsEnabled, SetEnabled, HasRead;
    SwitchHoldsIff(cfg, w, i, false, fault, steps, reader, readFault);
  }

  /** The failing family is not empty: with an enable stored, a disable whose write is lost is answered as
      disabled, and the next read of the very same process is enabled again. */
  lemma LostDisableIsUndone(cfg: Config, p: Process)
    requires cfg.redis
    ensures var s := Server(map[], 0, Some(true));
            var (s', p', reply) := SetEnabled(cfg, s, p, false, LostBefore);
            !reply && IsEnabled(cfg, s', p', NoFault).1
  {
  }

  /** Nor is it with fallback allowed: a disable is stored without fault, and another process that is switched
      on and does not reach Redis still answers enabled. */
  lemma UnreachedDisableIsUnseen(cfg: Config, w: World, i: nat, reader: nat, readFault: Fault)
    requires cfg.redis && !cfg.failClosed && i < |w.processes| && reader < |w.processes| && reader != i
    requires w.processes[reader].localEnabled && !readFault.NoFault?
    ensures var w' := Next(cfg, w, SetEnabledStep(i, false, NoFault));
            && w'.server.control == Some(false) && |w'.processes| == |w.processes|
            && IsEnabled(cfg, w'.server, w'.processes[reader], readFault).1
  {
  }
}
