/** The documented latency bound of the policy, on one physical CPU: a vCPU waits at most one turn
    of every other, a turn being what the slowest weight can fall behind. The bound is met by every
    pool exactly when there are at most two vCPUs and a quantum, or the quantum is one tick, or
    there is nobody to wait for. For every other pool size and quantum a pool is given that exceeds
    it. */
module Latency {
  import opened Basics
  import opened SchedModel
  import opened PolicyModel
  import opened Fairness

  // ----- the documented bound -----

  /** What one turn of a vCPU is said to cost a waiter. */
  function Turn(weight: nat, quantum: nat, least: nat): nat
    requires least > 0
  {
    Max(quantum, weight * quantum / least + 1)
  }

  function LeastWeight(pol: Policy, ids: seq<Id>): (w: nat)
    requires ids != []
    ensures w >= 1 && forall id | id in ids :: w <= pol.WeightOf(id)
    ensures exists id :: id in ids && w == pol.WeightOf(id)
  {
    if |ids| == 1 then pol.WeightOf(ids[0]) else Min(pol.WeightOf(ids[0]), LeastWeight(pol, ids[1..]))
  }

  /** One turn of every vCPU but the waiter. */
  function Turns(pol: Policy, ids: seq<Id>, least: nat, i: Id): nat
    requires least > 0
  {
    if ids == [] then 0
    else Turns(pol, ids[1..], least, i) + if ids[0] == i then 0 else Turn(pol.WeightOf(ids[0]), pol.quantum, least)
  }

  /** `i` is off the CPU from tick `a` up to tick `b`. */
  ghost predicate Waits(w: World, start: nat, a: nat, b: nat, i: Id) {
    a <= b <= U64_MAX && forall k | a <= k < b :: !OnCpu(w, start, k, i)
  }

  /** However long the run, nobody waits longer than documented. */
  ghost predicate Meets(w: World, start: nat, ids: seq<Id>)
    requires ids != []
  {
    forall i: Id, a: nat, b: nat | i in ids && Waits(w, start, a, b, i) ::
      b - a <= Turns(w.pol, ids, LeastWeight(w.pol, ids), i)
  }

  // ----- what a wait is made of -----

  lemma {:induction false} TotalGain(w: World, start: nat, a: nat, b: nat, i: Id, ids: seq<Id>, least: nat)
    requires least > 0 && Service(w, start, b, i) == Service(w, start, a, i)
    requires forall j | j in ids && j != i ::
               Service(w, start, b, j) - Service(w, start, a, j) <= Turn(w.pol.WeightOf(j), w.pol.quantum, least)
    ensures TotalService(w, start, b, ids) - TotalService(w, start, a, ids) <= Turns(w.pol, ids, least, i)
  {
    hide Service, Turn;
    if ids != [] {
      assert ids[0] in ids;
      TotalGain(w, start, a, b, i, ids[1..], least);
    }
  }

  /** The CPU is never idle, so a wait is as long as what the others gain in it. */
  lemma WaitIsGain(w: World, start: nat, a: nat, b: nat, i: Id, ids: seq<Id>, least: nat)
    requires Pool(w) && Fresh(w) && Lists(ids, w) && i in ids && Waits(w, start, a, b, i) && least > 0
    requires forall j | j in ids && j != i ::
               Service(w, start, b, j) - Service(w, start, a, j) <= Turn(w.pol.WeightOf(j), w.pol.quantum, least)
    ensures b - a <= Turns(w.pol, ids, least, i)
  {
    assert Schedulable(w.sys, i);
    hide Pool, Fresh, Schedulable, TotalService, Turns, Turn, Service, OnCpu;
    WaiterStandsStill(w, start, a, b, i);
    NeverIdle(w, start, a, ids);
    NeverIdle(w, start, b, ids);
    TotalGain(w, start, a, b, i, ids, least);
  }

  // ----- a quantum of one tick -----

  /** With a quantum of at most one tick whoever is on the CPU is least served at every tick. */
  lemma RunnerIsLevel(w: World, start: nat, k: nat, i: Id, j: Id)
    requires Pool(w) && Fresh(w) && k <= U64_MAX && w.pol.quantum <= 1
    requires Schedulable(w.sys, i) && OnCpu(w, start, k, j)
    ensures Service(w, start, k, j) * w.pol.WeightOf(i) <= Service(w, start, k, i) * w.pol.WeightOf(j)
  {
    FairAtEveryTick(w, start, k);
    var after := After(w, start, k);
    hide After;
    RunnerIsOccupant(after.sys, j);
    assert RunnerLeads(after, start + k, 0);
    assert Schedulable(after.sys, i);
  }

  lemma {:induction false} GainAtOneTick(w: World, start: nat, a: nat, b: nat, i: Id, j: Id)
    requires Pool(w) && Fresh(w) && w.pol.quantum == 1 && Waits(w, start, a, b, i) && i != j
    requires Schedulable(w.sys, i) && Schedulable(w.sys, j)
    ensures Service(w, start, b, j) - Service(w, start, a, j) <= w.pol.WeightOf(j) / w.pol.WeightOf(i) + 1
    decreases b
  {
    hide Pool, Fresh, Schedulable, Service, OnCpu;
    if a < b {
      GainAtOneTick(w, start, a, b - 1, i, j);
      ServiceGrows(w, start, b - 1, j);
      if OnCpu(w, start, b - 1, j) {
        RunnerIsLevel(w, start, b - 1, i, j);
        WaiterStandsStill(w, start, a, b - 1, i);
        ProportionalFairness(w, start, a, i, j);
        LevelGain(Service(w, start, a, j), Service(w, start, b - 1, j), Service(w, start, a, i), w.pol.WeightOf(i),
                  w.pol.WeightOf(j), 1);
      }
    }
  }

  lemma FitsQuotient(x: int, d: nat, y: nat)
    requires d > 0 && x * d <= y
    ensures x <= y / d
  {
    assert y == y / d * d + y % d;
    assert (x - y / d) * d == x * d - y / d * d;
    LessThanOne(x - y / d, d);
  }

  lemma LessThanOne(x: int, d: nat)
    requires x * d < d
    ensures x < 1
  {
  }

  /** Behind by at most `m` ticks at first, level at last. */
  lemma LevelGain(before: nat, after: nat, still: nat, wi: nat, wj: nat, m: nat)
    requires wi > 0
    requires after * wi <= still * wj && still * wj <= before * wi + m * wj
    ensures after - before <= m * wj / wi
  {
    assert (after - before) * wi <= m * wj;
    FitsQuotient(after - before, wi, m * wj);
  }

  lemma HeavierWaitsLess(x: nat, wi: nat, least: nat)
    requires 1 <= least <= wi
    ensures x / wi <= x / least
  {
    var quotient := x / wi;
    assert x == quotient * wi + x % wi;
    Monotone(quotient, least, wi);
    FitsQuotient(quotient, least, x);
  }

  lemma Monotone(k: nat, x: nat, y: nat)
    requires x <= y
    ensures k * x <= k * y
  {
  }

  lemma TurnAtOneTick(w: World, start: nat, a: nat, b: nat, i: Id, j: Id, least: nat)
    requires Pool(w) && Fresh(w) && w.pol.quantum == 1 && Waits(w, start, a, b, i) && i != j
    requires Schedulable(w.sys, i) && Schedulable(w.sys, j) && 1 <= least <= w.pol.WeightOf(i)
    ensures Service(w, start, b, j) - Service(w, start, a, j) <= Turn(w.pol.WeightOf(j), w.pol.quantum, least)
  {
    hide Pool, Fresh, Schedulable, Service, Waits;
    GainAtOneTick(w, start, a, b, i, j);
    HeavierWaitsLess(w.pol.WeightOf(j), w.pol.WeightOf(i), least);
  }

  lemma MetAtOneTick(w: World, start: nat, ids: seq<Id>)
    requires Pool(w) && Fresh(w) && Lists(ids, w) && ids != [] && w.pol.quantum == 1
    ensures Meets(w, start, ids)
  {
    var least := LeastWeight(w.pol, ids);
    hide Pool, Fresh, Service, Waits, Turns, Turn, LeastWeight, Schedulable;
    forall i: Id, a: nat, b: nat | i in ids && Waits(w, start, a, b, i)
      ensures b - a <= Turns(w.pol, ids, least, i)
    {
      forall j | j in ids && j != i
        ensures Service(w, start, b, j) - Service(w, start, a, j) <= Turn(w.pol.WeightOf(j), w.pol.quantum, least)
      {
        TurnAtOneTick(w, start, a, b, i, j, least);
      }
      WaitIsGain(w, start, a, b, i, ids, least);
    }
  }

  // ----- passes, seen from outside -----

  ghost predicate Holds(s: State, r: Id) {
    |s.pcpus| == 1 && s.pcpus[0] == Some(r) && s.Has(r)
  }

  ghost predicate Sits(s: State, r: Id, since: nat) {
    Holds(s, r) && s.At(r).dispatchedAt == since
  }

  /** An eviction is for somebody strictly ahead, so it does not end where it began. */
  lemma EvictedIsNotFirst(pol: Policy, s: State, now: nat, r: Id, u: Id)
    requires Inv(s) && Holds(s, r) && Next(pol, s, now).Preempt? && First(pol, s, now, u)
    ensures u != r
  {
    NextIsCandidate(pol, s, now);
    var evicted := Next(pol, s, now).id;
    assert s.At(evicted).state.Running?;
    var x: Id :| WaiterBeats(pol, s, now, s.At(evicted).state.pcpu, pol.ShareOf(s, evicted, now), x);
    assert Schedulable(s, x);
  }

  lemma KeepingIsStaying(pol: Policy, s: State, now: nat, limit: nat, r: Id)
    requires Alone(pol, s, now) && limit >= 2 && Holds(s, r) && Holds(Settle(pol, s, now, limit).state, r)
    ensures Settle(pol, s, now, limit).state == s
  {
    hide Best, First, Exact, Step;
    NextIsCandidate(pol, s, now);
    if Next(pol, s, now).Preempt? {
      EvictionLeadsToFirst(pol, s, now, limit);
      EvictedIsNotFirst(pol, s, now, r, r);
    }
  }

  predicate Before(a: Id, b: Id) {
    a.dom < b.dom || (a.dom == b.dom && a.vcpu < b.vcpu)
  }

  /** Without offsets, and while nothing clamps, deserving is less service per weight. */
  lemma DeservingIsLessService(pol: Policy, s: State, now: nat, a: Id, b: Id)
    requires Exact(pol, s, now) && s.Has(a) && s.Has(b) && pol.OffsetOf(a) == 0 && pol.OffsetOf(b) == 0
    ensures MoreDeserving(pol.ShareOf(s, a, now), pol.ShareOf(s, b, now))
            <==> RunTimeOf(s, a, now) * pol.WeightOf(b) < RunTimeOf(s, b, now) * pol.WeightOf(a)
  {
    assert s.At(a) == s.At(a) && s.At(b) == s.At(b);
    ProductIsExact(pol.ShareOf(s, a, now), pol.ShareOf(s, b, now));
    ProductIsExact(pol.ShareOf(s, b, now), pol.ShareOf(s, a, now));
  }

  /** `a` has at most as much service per weight as `b`, and strictly less if it comes later. */
  predicate Leads(xa: nat, wa: nat, a: Id, xb: nat, wb: nat, b: Id) {
    xa * wb <= xb * wa && (Before(b, a) ==> xa * wb < xb * wa)
  }

  ghost predicate IsLeader(w: World, now: nat, u: Id) {
    && Schedulable(w.sys, u)
    && forall j: Id | Schedulable(w.sys, j) && j != u ::
         Leads(RunTimeOf(w.sys, u, now), w.pol.WeightOf(u), u, RunTimeOf(w.sys, j, now), w.pol.WeightOf(j), j)
  }

  lemma LeaderIsFirst(w: World, now: nat, k: nat, u: Id, v: Id)
    requires Ready(w, now, k) && k <= U64_MAX && IsLeader(w, now, u)
    requires First(Account(w.pol, w.sys, now), w.sys, now, v)
    ensures v == u
  {
    AccountedIsExact(w, now, k);
    AccountChangesNoRank(w, now, k);
    var pol := Account(w.pol, w.sys, now);
    hide Account, Ready, Exact, MoreDeserving;
    assert pol.OffsetOf(u) == 0 && pol.OffsetOf(v) == 0 && pol.WeightOf(u) == w.pol.WeightOf(u)
           && pol.WeightOf(v) == w.pol.WeightOf(v);
    DeservingIsLessService(pol, w.sys, now, u, v);
    DeservingIsLessService(pol, w.sys, now, v, u);
    assert Before(u, v) ==> Seen(w.sys, v.dom, v.vcpu, u);
  }

  lemma LeastRunnerLeads(w: World, now: nat, k: nat, r: Id)
    requires Ready(w, now, k) && k <= U64_MAX && Holds(w.sys, r)
    requires Least(Account(w.pol, w.sys, now), w.sys, now, r)
    ensures RunnerLeads(w, now, 0)
  {
    AccountedIsExact(w, now, k);
    AccountChangesNoRank(w, now, k);
    var pol := Account(w.pol, w.sys, now);
    hide Account, Ready, Exact, MoreDeserving;
    assert pol.OffsetOf(r) == 0 && pol.WeightOf(r) == w.pol.WeightOf(r);
    forall j: Id | Schedulable(w.sys, j)
      ensures Within(RunTimeOf(w.sys, r, now), w.pol.WeightOf(r), RunTimeOf(w.sys, j, now), w.pol.WeightOf(j), 0)
    {
      assert pol.OffsetOf(j) == 0 && pol.WeightOf(j) == w.pol.WeightOf(j);
      LeastIsWithin(pol, w.sys, now, r, j);
    }
  }

  /** A pass hands an idle CPU, or one whose runner is past its quantum and leads somebody, to the
      leader. */
  lemma PassYields(w: World, now: nat, k: nat, u: Id)
    requires Ready(w, now, k) && k <= U64_MAX && IsLeader(w, now, u)
    requires w.sys.pcpus[0].Some? ==> Held(w, now) >= w.pol.quantum && !RunnerLeads(w, now, 0)
    ensures Sits(Advance(w, now).sys, u, now)
  {
    AccountedIsAlone(w, now, k);
    AccountChangesNoRank(w, now, k);
    var pol, s' := Account(w.pol, w.sys, now), Advance(w, now).sys;
    PassOnOneCpu(pol, w.sys, now, Limit(w.sys));
    hide Account, Settle, First, Least, Exact, RunnerLeads;
    var v := s'.pcpus[0].value;
    if First(pol, w.sys, now, v) {
      LeaderIsFirst(w, now, k, u, v);
    } else {
      LeastRunnerLeads(w, now, k, v);
    }
  }

  /** A runner strictly behind nobody is beaten by nobody. */
  lemma LeaderIsUnbeaten(w: World, now: nat, k: nat, r: Id, x: Id, p: nat)
    requires Ready(w, now, k) && k <= U64_MAX && Holds(w.sys, r) && RunnerLeads(w, now, 0)
    ensures var pol := Account(w.pol, w.sys, now); !WaiterBeats(pol, w.sys, now, p, pol.ShareOf(w.sys, r, now), x)
  {
    AccountedIsExact(w, now, k);
    AccountChangesNoRank(w, now, k);
    var pol := Account(w.pol, w.sys, now);
    hide Account, Ready, Exact, MoreDeserving;
    if w.sys.IsIn(x, Runnable) {
      assert pol.OffsetOf(r) == 0 && pol.OffsetOf(x) == 0 && pol.WeightOf(r) == w.pol.WeightOf(r)
             && pol.WeightOf(x) == w.pol.WeightOf(x);
      assert Schedulable(w.sys, x);
      DeservingIsLessService(pol, w.sys, now, x, r);
    }
  }

  /** A pass leaves a runner within its quantum, or one that leads nobody, where it is. */
  lemma PassStays(w: World, now: nat, k: nat, r: Id)
    requires Ready(w, now, k) && k <= U64_MAX && Holds(w.sys, r)
    requires Held(w, now) < w.pol.quantum || RunnerLeads(w, now, 0)
    ensures Advance(w, now).sys == w.sys
  {
    AccountedIsAlone(w, now, k);
    AccountChangesNoRank(w, now, k);
    var pol, s := Account(w.pol, w.sys, now), w.sys;
    forall x: Id, p: nat | RunnerLeads(w, now, 0)
      ensures !WaiterBeats(pol, s, now, p, pol.ShareOf(s, r, now), x)
    {
      LeaderIsUnbeaten(w, now, k, r, x, p);
    }
    hide Account, Ready, Exact, MoreDeserving, Best, RunnerLeads, WaiterBeats;
    NextIsCandidate(pol, s, now);
    StandsStill(pol, s, now, r);
  }

  /** One CPU, held by a runner within its quantum or beaten by nobody: nothing to do. */
  lemma StandsStill(pol: Policy, s: State, now: nat, r: Id)
    requires Inv(s) && Holds(s, r)
    requires SatSub(now, s.At(r).dispatchedAt) < pol.quantum
             || forall x: Id, p: nat :: !WaiterBeats(pol, s, now, p, pol.ShareOf(s, r, now), x)
    ensures Next(pol, s, now).Idle?
  {
    hide WaiterBeats, Best;
    IdleExactlyWhen(pol, s, now);
    forall id: Id, x: Id | Expired(pol, s, now, id)
      ensures !WaiterBeats(pol, s, now, s.At(id).state.pcpu, pol.ShareOf(s, id, now), x)
    {
      assert s.At(id).state.Running? && s.pcpus[0] == Some(id);
    }
  }

  // ----- ticks -----

  /** The next pass finds the world as the last one left it, a tick later. */
  lemma NextPassSees(w: World, start: nat, k: nat)
    requires Pool(w) && Fresh(w) && k + 1 <= U64_MAX
    ensures Ready(After(w, start, k), start + k + 1, k + 1) && SamePool(w, After(w, start, k))
  {
    hide Advance, Ready, SamePool;
    FairAtEveryTick(w, start, k);
    TickKeepsFairness(After(w, start, k), start + k, k);
  }

  /** And it moves nobody's service. */
  lemma ServiceIsSeen(w: World, start: nat, k: nat, id: Id)
    requires Pool(w) && Fresh(w) && k + 1 <= U64_MAX
    ensures Service(w, start, k + 1, id) == RunTimeOf(After(w, start, k).sys, id, start + k + 1)
  {
    hide Advance, Done, RunTimeOf, SamePool, Pool, Fresh;
    FairAtEveryTick(w, start, k);
    TickThenPass(After(w, start, k), start + k, k);
  }

  /** By the services of tick `k`, `r` is strictly behind nobody. */
  ghost predicate LevelAt(w: World, start: nat, k: nat, r: Id) {
    forall j: Id | Schedulable(w.sys, j) ::
      Service(w, start, k, r) * w.pol.WeightOf(j) <= Service(w, start, k, j) * w.pol.WeightOf(r)
  }

  /** By the services of tick `k`, `u` leads. */
  ghost predicate LeadsAt(w: World, start: nat, k: nat, u: Id) {
    && Schedulable(w.sys, u)
    && forall j: Id | Schedulable(w.sys, j) && j != u ::
         Leads(Service(w, start, k, u), w.pol.WeightOf(u), u, Service(w, start, k, j), w.pol.WeightOf(j), j)
  }

  lemma LevelIsSeen(w: World, start: nat, k: nat, r: Id)
    requires Pool(w) && Fresh(w) && k + 1 <= U64_MAX && Holds(After(w, start, k).sys, r)
    ensures LevelAt(w, start, k + 1, r) <==> RunnerLeads(After(w, start, k), start + k + 1, 0)
  {
    NextPassSees(w, start, k);
    ServiceIsSeen(w, start, k, r);
    var s := After(w, start, k);
    hide Pool, Fresh, Service, RunTimeOf, Ready, After, Schedulable;
    forall j: Id
      ensures Schedulable(w.sys, j) <==> Schedulable(s.sys, j)
      ensures Service(w, start, k + 1, j) == RunTimeOf(s.sys, j, start + k + 1)
              && s.pol.WeightOf(j) == w.pol.WeightOf(j)
    {
      ServiceIsSeen(w, start, k, j);
    }
  }

  lemma LeaderIsSeen(w: World, start: nat, k: nat, u: Id)
    requires Pool(w) && Fresh(w) && k + 1 <= U64_MAX && LeadsAt(w, start, k + 1, u)
    ensures IsLeader(After(w, start, k), start + k + 1, u)
  {
    NextPassSees(w, start, k);
    ServiceIsSeen(w, start, k, u);
    var s := After(w, start, k);
    hide Pool, Fresh, Service, RunTimeOf, Ready, After, Schedulable, Leads;
    forall j: Id
      ensures Schedulable(w.sys, j) <==> Schedulable(s.sys, j)
      ensures Service(w, start, k + 1, j) == RunTimeOf(s.sys, j, start + k + 1)
              && s.pol.WeightOf(j) == w.pol.WeightOf(j)
    {
      ServiceIsSeen(w, start, k, j);
    }
  }

  lemma NextPass(w: World, start: nat, k: nat)
    ensures After(w, start, k + 1) == Advance(After(w, start, k), start + k + 1)
  {
  }

  lemma SitsFor(w: World, now: nat, r: Id, since: nat)
    requires Sits(w.sys, r, since)
    ensures Holds(w.sys, r) && w.sys.pcpus[0] == Some(r) && Held(w, now) == SatSub(now, since)
  {
  }

  /** A runner within its quantum, or strictly behind nobody, keeps the CPU for another tick. */
  lemma TickStays(w: World, start: nat, k: nat, r: Id, since: nat)
    requires Pool(w) && Fresh(w) && k + 1 <= U64_MAX && Sits(After(w, start, k).sys, r, since)
    requires SatSub(start + k + 1, since) < w.pol.quantum || LevelAt(w, start, k + 1, r)
    ensures After(w, start, k + 1).sys == After(w, start, k).sys
  {
    hide *;
    var s := After(w, start, k);
    NextPass(w, start, k);
    NextPassSees(w, start, k);
    SameQuantum(w, s);
    SitsFor(s, start + k + 1, r, since);
    LevelIsSeen(w, start, k, r);
    PassStays(s, start + k + 1, k + 1, r);
  }

  /** A runner past its quantum that leads somebody gives the CPU to the leader. */
  lemma TickYields(w: World, start: nat, k: nat, r: Id, since: nat, u: Id)
    requires Pool(w) && Fresh(w) && k + 1 <= U64_MAX && Sits(After(w, start, k).sys, r, since)
    requires SatSub(start + k + 1, since) >= w.pol.quantum && !LevelAt(w, start, k + 1, r)
             && LeadsAt(w, start, k + 1, u)
    ensures Sits(After(w, start, k + 1).sys, u, start + k + 1)
  {
    hide *;
    var s := After(w, start, k);
    NextPass(w, start, k);
    NextPassSees(w, start, k);
    SameQuantum(w, s);
    SitsFor(s, start + k + 1, r, since);
    LevelIsSeen(w, start, k, r);
    LeaderIsSeen(w, start, k, u);
    PassYields(s, start + k + 1, k + 1, u);
  }

  lemma SameQuantum(w: World, w': World)
    requires SamePool(w, w')
    ensures w'.pol.quantum == w.pol.quantum
  {
  }

  // ----- two vCPUs -----

  ghost predicate RunsThrough(w: World, start: nat, a: nat, b: nat, r: Id) {
    forall k | a <= k < b :: OnCpu(w, start, k, r)
  }

  lemma {:induction false} RunGains(w: World, start: nat, a: nat, b: nat, r: Id, v: Id)
    requires Pool(w) && Fresh(w) && a <= b <= U64_MAX && RunsThrough(w, start, a, b, r)
    ensures Service(w, start, b, v) == Service(w, start, a, v) + if v == r then b - a else 0
    decreases b
  {
    hide Pool, Fresh, Service, OnCpu;
    if a < b {
      RunGains(w, start, a, b - 1, r, v);
      ServiceGrows(w, start, b - 1, v);
      var runner := SomeoneRuns(w, start, b - 1);
      assert OnCpu(w, start, b - 1, r);
      assert OnCpu(w, start, b - 1, v) <==> v == runner;
    }
  }

  lemma OccupantHolds(w: World, start: nat, k: nat, r: Id)
    requires Pool(w) && Fresh(w) && k <= U64_MAX && OnCpu(w, start, k, r)
    ensures Done(After(w, start, k), start + k, k) && SamePool(w, After(w, start, k))
            && Holds(After(w, start, k).sys, r)
  {
    FairAtEveryTick(w, start, k);
    hide After;
    RunnerIsOccupant(After(w, start, k).sys, r);
  }

  /** A runner that keeps the CPU over a stretch of ticks is dispatched once. */
  lemma {:induction false} KeepsItsSeat(w: World, start: nat, a: nat, b: nat, r: Id)
    requires Pool(w) && Fresh(w) && a <= b <= U64_MAX && RunsThrough(w, start, a, b + 1, r)
    ensures After(w, start, b).sys == After(w, start, a).sys
    decreases b
  {
    hide *;
    if a < b {
      RunsEarlier(w, start, a, b, r);
      KeepsItsSeat(w, start, a, b - 1, r);
      OccupantHolds(w, start, b - 1, r);
      OccupantHolds(w, start, b, r);
      NextPass(w, start, b - 1);
      NextPassSees(w, start, b - 1);
      KeepsAPass(After(w, start, b - 1), start + b, b, r);
    }
  }

  lemma RunsEarlier(w: World, start: nat, a: nat, b: nat, r: Id)
    requires a < b && RunsThrough(w, start, a, b + 1, r)
    ensures RunsThrough(w, start, a, b, r) && OnCpu(w, start, b - 1, r) && OnCpu(w, start, b, r)
  {
  }

  lemma KeepsAPass(w: World, now: nat, k: nat, r: Id)
    requires Ready(w, now, k) && k <= U64_MAX && Holds(w.sys, r) && Holds(Advance(w, now).sys, r)
    ensures Advance(w, now).sys == w.sys
  {
    hide Account, Alone, Ready, Holds;
    AccountedIsAlone(w, now, k);
    KeepingIsStaying(Account(w.pol, w.sys, now), w.sys, now, Limit(w.sys), r);
  }

  /** A runner at the end of its stretch is within its quantum, or strictly behind nobody. */
  lemma WithinQuantumOrLevel(w: World, start: nat, a: nat, b: nat, i: Id, r: Id)
    requires Pool(w) && Fresh(w) && a <= b <= U64_MAX && RunsThrough(w, start, a, b + 1, r) && Schedulable(w.sys, i)
    ensures b - a < w.pol.quantum
            || Service(w, start, b, r) * w.pol.WeightOf(i) <= Service(w, start, b, i) * w.pol.WeightOf(r)
  {
    KeepsItsSeat(w, start, a, b, r);
    OccupantHolds(w, start, a, r);
    OccupantHolds(w, start, b, r);
    hide After, Pool, Fresh;
    assert Schedulable(After(w, start, b).sys, i);
    assert After(w, start, a).sys.At(r).dispatchedAt <= start + a;
  }

  lemma OtherRuns(w: World, start: nat, a: nat, b: nat, ids: seq<Id>, i: Id, j: Id)
    requires Pool(w) && Fresh(w) && Lists(ids, w) && |ids| == 2 && i in ids && j in ids && i != j
             && Waits(w, start, a, b, i)
    ensures RunsThrough(w, start, a, b, j) && a <= b <= U64_MAX && Schedulable(w.sys, i) && Schedulable(w.sys, j)
  {
    hide Pool, Fresh, Schedulable, OnCpu;
    forall k | a <= k < b
      ensures OnCpu(w, start, k, j)
    {
      var r := SomeoneRuns(w, start, k);
      assert OnCpu(w, start, k, r) && !OnCpu(w, start, k, i);
      assert r in ids && (ids[0] == i || ids[0] == j) && (ids[1] == i || ids[1] == j);
    }
  }

  lemma TurnOfOther(w: World, start: nat, a: nat, b: nat, ids: seq<Id>, i: Id, j: Id, least: nat)
    requires Pool(w) && Fresh(w) && Lists(ids, w) && |ids| == 2 && i in ids && j in ids && i != j
             && Waits(w, start, a, b, i)
    requires w.pol.quantum >= 1 && 1 <= least <= w.pol.WeightOf(i)
    ensures Service(w, start, b, j) - Service(w, start, a, j) <= Turn(w.pol.WeightOf(j), w.pol.quantum, least)
  {
    hide *;
    OtherRuns(w, start, a, b, ids, i, j);
    RunGains(w, start, a, b, j, j);
    if a < b {
      EarlierStretch(w, start, a, b, i, j);
      RunGains(w, start, a, b - 1, j, j);
      WithinQuantumOrLevel(w, start, a, b - 1, i, j);
      WaiterStandsStill(w, start, a, b - 1, i);
      FallsBehind(w, start, a, i, j);
      TurnArithmetic(Service(w, start, a, j), Service(w, start, b - 1, j), Service(w, start, a, i), w.pol.WeightOf(i),
                     w.pol.WeightOf(j), w.pol.quantum, least);
    }
  }

  lemma FallsBehind(w: World, start: nat, a: nat, i: Id, j: Id)
    requires Pool(w) && Fresh(w) && w.pol.quantum >= 1 && a <= U64_MAX && Schedulable(w.sys, i) && Schedulable(w.sys, j)
    ensures Service(w, start, a, i) * w.pol.WeightOf(j)
            <= Service(w, start, a, j) * w.pol.WeightOf(i) + w.pol.quantum * w.pol.WeightOf(j)
  {
    hide Pool, Fresh, Service, Schedulable;
    ProportionalFairness(w, start, a, i, j);
  }

  lemma EarlierStretch(w: World, start: nat, a: nat, b: nat, i: Id, j: Id)
    requires a < b && Waits(w, start, a, b, i) && RunsThrough(w, start, a, b, j)
    ensures RunsThrough(w, start, a, b - 1, j) && RunsThrough(w, start, a, (b - 1) + 1, j)
    ensures forall k | a <= k < b - 1 :: !OnCpu(w, start, k, i)
    ensures b <= U64_MAX
  {
  }

  /** A stretch that ends within the quantum or level is, with its last tick, at most a turn. */
  lemma TurnArithmetic(before: nat, last: nat, still: nat, wi: nat, wj: nat, quantum: nat, least: nat)
    requires 1 <= least <= wi && quantum >= 1 && still * wj <= before * wi + quantum * wj
    requires last - before < quantum || last * wi <= still * wj
    ensures last - before + 1 <= Turn(wj, quantum, least)
  {
    if last - before >= quantum {
      LevelGain(before, last, still, wi, wj, quantum);
      HeavierWaitsLess(quantum * wj, wi, least);
    }
  }

  lemma MetByTwo(w: World, start: nat, ids: seq<Id>)
    requires Pool(w) && Fresh(w) && Lists(ids, w) && |ids| == 2 && w.pol.quantum >= 1
    ensures Meets(w, start, ids)
  {
    var least := LeastWeight(w.pol, ids);
    hide Pool, Fresh, Service, Waits, Turns, Turn, LeastWeight, Schedulable;
    forall i: Id, a: nat, b: nat | i in ids && Waits(w, start, a, b, i)
      ensures b - a <= Turns(w.pol, ids, least, i)
    {
      forall j | j in ids && j != i
        ensures Service(w, start, b, j) - Service(w, start, a, j) <= Turn(w.pol.WeightOf(j), w.pol.quantum, least)
      {
        TurnOfOther(w, start, a, b, ids, i, j, least);
      }
      WaitIsGain(w, start, a, b, i, ids, least);
    }
  }

  /** Alone on the CPU nobody waits. */
  lemma MetByOne(w: World, start: nat, ids: seq<Id>)
    requires Pool(w) && Fresh(w) && Lists(ids, w) && |ids| == 1
    ensures Meets(w, start, ids)
  {
    hide Pool, Fresh, Lists, Waits, Turns, LeastWeight, Service, Turn;
    forall i: Id, a: nat, b: nat | i in ids && Waits(w, start, a, b, i)
      ensures b - a <= Turns(w.pol, ids, LeastWeight(w.pol, ids), i)
    {
      WaitIsGain(w, start, a, b, i, ids, LeastWeight(w.pol, ids));
    }
  }

  // ----- equal weights -----

  /** Closed run time: for the runner, its service when it was dispatched. */
  function Closed(s: State, v: Id): nat {
    if s.Has(v) then s.At(v).runtime else 0
  }

  /** Nobody is more than a quantum ahead of anybody, and a whole quantum only of those that come
      later in index order. */
  ghost predicate Staggered(s: State, quantum: nat) {
    forall i: Id, j: Id | Schedulable(s, i) && Schedulable(s, j) && i != j ::
      Closed(s, i) <= Closed(s, j) + quantum && (Closed(s, i) == Closed(s, j) + quantum ==> Before(i, j))
  }

  /** `r` was the first of the least served. */
  ghost predicate Opened(s: State, r: Id) {
    && Schedulable(s, r)
    && forall j: Id | Schedulable(s, j) && j != r ::
         Closed(s, r) <= Closed(s, j) && (Closed(s, r) == Closed(s, j) ==> Before(r, j))
  }

  /** Equal weights take turns: everyone is staggered, and the runner is in a turn of at most a
      quantum, or has just drawn level with all the others and is in its last tick. */
  ghost predicate Rotates(s: State, now: nat, quantum: nat) {
    && |s.pcpus| == 1 && s.pcpus[0].Some? && s.Has(s.pcpus[0].value)
    && Staggered(s, quantum) && Opened(s, s.pcpus[0].value)
    && var r := s.pcpus[0].value; var held := SatSub(now, s.At(r).dispatchedAt);
       && held <= quantum
       && (held == quantum ==> forall j: Id | Schedulable(s, j) && j != r :: Closed(s, j) == Closed(s, r) + quantum)
  }

  ghost predicate EqualWeights(w: World, c: nat) {
    forall id: Id | Schedulable(w.sys, id) :: w.pol.WeightOf(id) == c
  }

  /** The pass hands the CPU to a leader when the runner is past its quantum and leads somebody. */
  lemma PassFindsLeader(w: World, now: nat, k: nat) returns (u: Id)
    requires Ready(w, now, k) && k <= U64_MAX
    requires w.sys.pcpus[0].Some? ==> Held(w, now) >= w.pol.quantum && !RunnerLeads(w, now, 0)
    ensures Sits(Advance(w, now).sys, u, now) && IsLeader(w, now, u)
  {
    AccountedIsAlone(w, now, k);
    AccountChangesNoRank(w, now, k);
    var pol, s' := Account(w.pol, w.sys, now), Advance(w, now).sys;
    PassOnOneCpu(pol, w.sys, now, Limit(w.sys));
    u := s'.pcpus[0].value;
    hide Account, Settle, First, Least, Exact, RunnerLeads, IsLeader;
    if First(pol, w.sys, now, u) {
      FirstIsLeader(w, now, k, u);
    } else {
      LeastRunnerLeads(w, now, k, u);
    }
  }

  lemma FirstIsLeader(w: World, now: nat, k: nat, u: Id)
    requires Ready(w, now, k) && k <= U64_MAX
    requires First(Account(w.pol, w.sys, now), w.sys, now, u)
    ensures IsLeader(w, now, u)
  {
    AccountedIsExact(w, now, k);
    AccountChangesNoRank(w, now, k);
    var pol := Account(w.pol, w.sys, now);
    hide Account, Ready, Exact, MoreDeserving;
    assert pol.OffsetOf(u) == 0 && pol.WeightOf(u) == w.pol.WeightOf(u);
    forall j: Id | Schedulable(w.sys, j) && j != u
      ensures Leads(RunTimeOf(w.sys, u, now), w.pol.WeightOf(u), u, RunTimeOf(w.sys, j, now), w.pol.WeightOf(j), j)
    {
      assert pol.OffsetOf(j) == 0 && pol.WeightOf(j) == w.pol.WeightOf(j);
      DeservingIsLessService(pol, w.sys, now, u, j);
      DeservingIsLessService(pol, w.sys, now, j, u);
      assert Before(j, u) ==> Seen(w.sys, u.dom, u.vcpu, j);
    }
  }

  /** What a pass at the end of a turn leaves: closed run times are service, and a leader begins. */
  ghost predicate HandedOver(s: State, s': State, r: Id, held: nat) {
    && (forall v: Id {:trigger Schedulable(s', v)} :: Schedulable(s', v) <==> Schedulable(s, v))
    && (forall v: Id | Schedulable(s, v) :: Closed(s', v) == Closed(s, v) + if v == r then held else 0)
    && |s'.pcpus| == 1 && s'.pcpus[0].Some? && Opened(s', s'.pcpus[0].value)
  }

  lemma HandingKeepsStagger(s: State, s': State, quantum: nat, r: Id, held: nat)
    requires quantum >= 2 && Staggered(s, quantum) && Opened(s, r) && HandedOver(s, s', r, held)
    requires held == quantum
             || (held == quantum + 1 && forall j: Id | Schedulable(s, j) && j != r ::
                 Closed(s, j) == Closed(s, r) + quantum)
    ensures Staggered(s', quantum)
  {
    hide Schedulable, Closed, Before;
    forall i: Id, j: Id | Schedulable(s', i) && Schedulable(s', j) && i != j
      ensures Closed(s', i) <= Closed(s', j) + quantum && (Closed(s', i) == Closed(s', j) + quantum ==> Before(i, j))
    {
      assert Schedulable(s, i) && Schedulable(s, j);
    }
  }

  lemma SameWeightOrder(x: nat, y: nat, c: nat)
    requires c >= 1
    ensures x * c <= y * c <==> x <= y
    ensures x * c < y * c <==> x < y
  {
  }

  /** A tick of the clock is a tick of service for the runner alone. */
  lemma ServiceNow(s: State, now: nat, r: Id, v: Id)
    requires Inv(s) && Holds(s, r) && s.At(r).dispatchedAt <= now
    ensures RunTimeOf(s, v, now + 1) == Closed(s, v) + if v == r then SatSub(now, s.At(r).dispatchedAt) + 1 else 0
  {
    RunnerIsOccupant(s, v);
  }

  /** A turn that goes on: within the quantum, or level with all the others at its end. */
  lemma StayingRotates(w: World, now: nat, r: Id, other: Id, c: nat)
    requires Inv(w.sys) && Holds(w.sys, r) && w.sys.At(r).dispatchedAt <= now && EqualWeights(w, c) && c >= 1
    requires Rotates(w.sys, now, w.pol.quantum) && Schedulable(w.sys, other) && other != r
    requires Held(w, now + 1) < w.pol.quantum || RunnerLeads(w, now + 1, 0)
    ensures Rotates(w.sys, now + 1, w.pol.quantum)
  {
    var held := SatSub(now, w.sys.At(r).dispatchedAt);
    assert SatSub(now + 1, w.sys.At(r).dispatchedAt) == held + 1 && Schedulable(w.sys, r);
    if held + 1 >= w.pol.quantum {
      forall j: Id | Schedulable(w.sys, j) && j != r
        ensures Closed(w.sys, r) + held + 1 <= Closed(w.sys, j) <= Closed(w.sys, r) + w.pol.quantum
      {
        hide Inv, Holds, Rotates, Schedulable, RunTimeOf;
        LeadsBy(w, now, r, j, c);
        StaggeredAt(w.sys, now, w.pol.quantum, r, j);
      }
    }
  }

  lemma LeadsBy(w: World, now: nat, r: Id, j: Id, c: nat)
    requires Inv(w.sys) && Holds(w.sys, r) && w.sys.At(r).dispatchedAt <= now && EqualWeights(w, c) && c >= 1
    requires RunnerLeads(w, now + 1, 0) && Schedulable(w.sys, r) && Schedulable(w.sys, j) && j != r
    ensures Closed(w.sys, r) + SatSub(now, w.sys.At(r).dispatchedAt) + 1 <= Closed(w.sys, j)
  {
    ServiceNow(w.sys, now, r, r);
    ServiceNow(w.sys, now, r, j);
    SameWeightOrder(RunTimeOf(w.sys, r, now + 1), RunTimeOf(w.sys, j, now + 1), c);
    hide Inv, RunTimeOf, Closed;
    assert Within(RunTimeOf(w.sys, r, now + 1), c, RunTimeOf(w.sys, j, now + 1), c, 0);
  }

  lemma StaggeredAt(s: State, now: nat, quantum: nat, i: Id, j: Id)
    requires Rotates(s, now, quantum) && Schedulable(s, i) && Schedulable(s, j) && i != j
    ensures Closed(s, j) <= Closed(s, i) + quantum
  {
  }

  /** A turn that ends. */
  lemma YieldingHandsOver(w: World, s': State, now: nat, r: Id, u: Id, c: nat)
    requires Inv(w.sys) && Inv(s') && Holds(w.sys, r) && w.sys.At(r).dispatchedAt <= now && EqualWeights(w, c) && c >= 1
    requires OnlyPlaced(w.sys, s', now + 1) && Sits(s', u, now + 1) && IsLeader(w, now + 1, u)
    ensures HandedOver(w.sys, s', r, SatSub(now, w.sys.At(r).dispatchedAt) + 1)
  {
    forall v: Id
      ensures Schedulable(s', v) <==> Schedulable(w.sys, v)
      ensures Closed(s', v) == Closed(w.sys, v) + if v == r then SatSub(now, w.sys.At(r).dispatchedAt) + 1 else 0
    {
      assert (Schedulable(s', v) <==> Schedulable(w.sys, v))
             && RunTimeOf(s', v, now + 1) == RunTimeOf(w.sys, v, now + 1);
      ServiceNow(w.sys, now, r, v);
      ClosedAtDispatch(s', u, now + 1, v);
    }
    forall j: Id | Schedulable(w.sys, j) && j != u
      ensures Closed(s', u) <= Closed(s', j) && (Closed(s', u) == Closed(s', j) ==> Before(u, j))
    {
      assert RunTimeOf(s', j, now + 1) == RunTimeOf(w.sys, j, now + 1)
             && RunTimeOf(s', u, now + 1) == RunTimeOf(w.sys, u, now + 1);
      ClosedAtDispatch(s', u, now + 1, j);
      ClosedAtDispatch(s', u, now + 1, u);
      SameWeightOrder(RunTimeOf(w.sys, u, now + 1), RunTimeOf(w.sys, j, now + 1), c);
    }
  }

  lemma ClosedAtDispatch(s: State, u: Id, now: nat, v: Id)
    requires Inv(s) && Sits(s, u, now)
    ensures RunTimeOf(s, v, now) == Closed(s, v)
  {
    RunnerIsOccupant(s, v);
  }

  /** How long the runner has held the CPU. */
  ghost function HeldIn(s: State, now: nat): nat {
    if |s.pcpus| == 1 && s.pcpus[0].Some? && s.Has(s.pcpus[0].value)
        then SatSub(now, s.At(s.pcpus[0].value).dispatchedAt) else 0
  }

  ghost predicate TurnEnds(s: State, s': State, now: nat, quantum: nat) {
    && |s.pcpus| == 1 && s.pcpus[0].Some? && HeldIn(s, now) + 1 >= quantum
    && HandedOver(s, s', s.pcpus[0].value, HeldIn(s, now) + 1)
  }

  lemma EndedRotates(s: State, s': State, now: nat, quantum: nat, u: Id)
    requires quantum >= 2 && Rotates(s, now, quantum) && TurnEnds(s, s', now, quantum) && Sits(s', u, now + 1)
    ensures Rotates(s', now + 1, quantum)
  {
    HandingKeepsStagger(s, s', quantum, s.pcpus[0].value, HeldIn(s, now) + 1);
  }

  /** One tick of the clock and one pass: the turn goes on, or ends. */
  lemma TickRotates(w: World, now: nat, k: nat, c: nat, other: Id)
    requires Done(w, now, k) && k < U64_MAX && w.pol.quantum >= 2 && EqualWeights(w, c) && c >= 1
    requires Rotates(w.sys, now, w.pol.quantum) && Schedulable(w.sys, other) && !Holds(w.sys, other)
    ensures var s' := Advance(w, now + 1).sys;
            Rotates(s', now + 1, w.pol.quantum) && (s' == w.sys || TurnEnds(w.sys, s', now, w.pol.quantum))
  {
    hide *;
    DoneShape(w, now, k);
    TickKeepsFairness(w, now, k);
    var r := w.sys.pcpus[0].value;
    if Held(w, now + 1) < w.pol.quantum || RunnerLeads(w, now + 1, 0) {
      PassStays(w, now + 1, k + 1, r);
      StayingRotates(w, now, r, other, c);
    } else {
      TickEndsTurn(w, now, k, c);
    }
  }

  lemma TickEndsTurn(w: World, now: nat, k: nat, c: nat)
    requires Done(w, now, k) && k < U64_MAX && w.pol.quantum >= 2 && EqualWeights(w, c) && c >= 1
    requires Rotates(w.sys, now, w.pol.quantum) && Holds(w.sys, w.sys.pcpus[0].value)
    requires Held(w, now + 1) >= w.pol.quantum && !RunnerLeads(w, now + 1, 0)
    ensures Rotates(Advance(w, now + 1).sys, now + 1, w.pol.quantum)
    ensures TurnEnds(w.sys, Advance(w, now + 1).sys, now, w.pol.quantum)
  {
    hide *;
    DoneShape(w, now, k);
    TickKeepsFairness(w, now, k);
    var r, s' := w.sys.pcpus[0].value, Advance(w, now + 1).sys;
    var u := PassFindsLeader(w, now + 1, k + 1);
    PassPlaces(w, now + 1, k + 1);
    YieldingHandsOver(w, s', now, r, u, c);
    EndsTurn(w, s', now, r);
    EndedRotates(w.sys, s', now, w.pol.quantum, u);
  }

  lemma EndsTurn(w: World, s': State, now: nat, r: Id)
    requires Holds(w.sys, r) && w.sys.At(r).dispatchedAt <= now && Held(w, now + 1) >= w.pol.quantum
    requires HandedOver(w.sys, s', r, SatSub(now, w.sys.At(r).dispatchedAt) + 1)
    ensures TurnEnds(w.sys, s', now, w.pol.quantum)
  {
    hide HandedOver;
  }

  lemma DoneShape(w: World, now: nat, k: nat)
    requires Done(w, now, k)
    ensures |w.sys.pcpus| == 1 && w.sys.pcpus[0].Some? && w.sys.Has(w.sys.pcpus[0].value)
    ensures Inv(w.sys) && Holds(w.sys, w.sys.pcpus[0].value) && w.sys.At(w.sys.pcpus[0].value).dispatchedAt <= now
    ensures forall other: Id :: Holds(w.sys, other) <==> other == w.sys.pcpus[0].value
  {
  }

  lemma BootRotates(w: World, start: nat, c: nat)
    requires Pool(w) && Fresh(w) && w.pol.quantum >= 2 && EqualWeights(w, c) && c >= 1
    ensures Rotates(After(w, start, 0).sys, start, w.pol.quantum)
  {
    FreshShape(w, start);
    FreshIsReady(w, start);
    var u := PassFindsLeader(w, start, 0);
    PassPlaces(w, start, 0);
    var s' := After(w, start, 0).sys;
    assert After(w, start, 0) == Advance(w, start);
    hide Advance, Inv, Pool, Ready;
    forall v: Id
      ensures Schedulable(s', v) <==> Schedulable(w.sys, v)
      ensures Schedulable(s', v) ==> Closed(s', v) == 0
    {
      assert (Schedulable(s', v) <==> Schedulable(w.sys, v)) && RunTimeOf(s', v, start) == RunTimeOf(w.sys, v, start);
      ClosedAtDispatch(s', u, start, v);
    }
    assert Schedulable(s', u);
    forall j: Id | Schedulable(s', j) && j != u
      ensures Before(u, j)
    {
      assert Schedulable(w.sys, j);
    }
  }

  lemma FreshShape(w: World, start: nat)
    requires Pool(w) && Fresh(w)
    ensures w.sys.pcpus[0].None? && forall v: Id | Schedulable(w.sys, v) :: RunTimeOf(w.sys, v, start) == 0
  {
    if w.sys.pcpus[0].Some? {
      assert Schedulable(w.sys, w.sys.pcpus[0].value);
    }
  }

  /** Some other vCPU than the runner is in the pool. */
  lemma AnotherWaits(w: World, start: nat, k: nat, ids: seq<Id>) returns (other: Id)
    requires Pool(w) && Fresh(w) && k <= U64_MAX && Lists(ids, w) && |ids| >= 2
    ensures Done(After(w, start, k), start + k, k) && SamePool(w, After(w, start, k))
    ensures Schedulable(After(w, start, k).sys, other) && !Holds(After(w, start, k).sys, other)
  {
    FairAtEveryTick(w, start, k);
    hide Pool, Fresh, After, Done;
    other := if Holds(After(w, start, k).sys, ids[0]) then ids[1] else ids[0];
    assert ids[0] in ids && ids[1] in ids && Schedulable(w.sys, other);
  }

  lemma SameWeights(w: World, w': World, c: nat)
    requires SamePool(w, w') && EqualWeights(w, c)
    ensures EqualWeights(w', c) && w'.pol.quantum == w.pol.quantum
  {
  }

  lemma {:induction false} AlwaysRotates(w: World, start: nat, k: nat, c: nat, ids: seq<Id>)
    requires Pool(w) && Fresh(w) && k <= U64_MAX && Lists(ids, w) && |ids| >= 2
    requires w.pol.quantum >= 2 && EqualWeights(w, c) && c >= 1
    ensures Rotates(After(w, start, k).sys, start + k, w.pol.quantum)
    decreases k
  {
    hide *;
    if k == 0 {
      BootRotates(w, start, c);
    } else {
      AlwaysRotates(w, start, k - 1, c, ids);
      RotatesOn(w, start, k - 1, c, ids);
    }
  }

  lemma RotatesOn(w: World, start: nat, k: nat, c: nat, ids: seq<Id>)
    requires Pool(w) && Fresh(w) && k + 1 <= U64_MAX && Lists(ids, w) && |ids| >= 2
    requires w.pol.quantum >= 2 && EqualWeights(w, c) && c >= 1
    requires Rotates(After(w, start, k).sys, start + k, w.pol.quantum)
    ensures Rotates(After(w, start, k + 1).sys, start + k + 1, w.pol.quantum)
    ensures After(w, start, k + 1).sys == After(w, start, k).sys
            || TurnEnds(After(w, start, k).sys, After(w, start, k + 1).sys, start + k, w.pol.quantum)
  {
    hide *;
    var other := AnotherWaits(w, start, k, ids);
    SameWeights(w, After(w, start, k), c);
    NextPass(w, start, k);
    TickRotates(After(w, start, k), start + k, k, c, other);
  }

  /** While `i` waits: `j` has had no turn since its closed run time was `z`, or has had one turn and
      will not come before `i`. */
  ghost predicate OneTurnAtMost(s: State, quantum: nat, i: Id, j: Id, z: nat) {
    || Closed(s, j) == z
    || (!Holds(s, j) && Closed(s, j) <= z + quantum + 1
        && (Closed(s, j) > Closed(s, i) || (Closed(s, j) == Closed(s, i) && Before(i, j))))
  }

  lemma TurnKeepsOrder(s: State, s': State, now: nat, quantum: nat, i: Id, j: Id, z: nat)
    requires Rotates(s, now, quantum) && TurnEnds(s, s', now, quantum) && OneTurnAtMost(s, quantum, i, j, z)
    requires Schedulable(s, i) && Schedulable(s, j) && i != j && !Holds(s, i) && !Holds(s', i)
    ensures OneTurnAtMost(s', quantum, i, j, z) && Closed(s', i) == Closed(s, i)
  {
    var r, held := s.pcpus[0].value, HeldIn(s, now) + 1;
    assert r != i && held <= quantum + 1;
    assert Closed(s', i) == Closed(s, i) && Schedulable(s', i) && Schedulable(s', j);
    assert Closed(s, i) <= Closed(s, j) + quantum;
    assert Holds(s', j) ==> s'.pcpus[0].value == j;
  }

  lemma {:induction false} OneTurnEach(w: World, start: nat, a: nat, k: nat, i: Id, j: Id, c: nat, ids: seq<Id>)
    requires Pool(w) && Fresh(w) && a <= k <= U64_MAX && Lists(ids, w) && |ids| >= 2 && Waits(w, start, a, k, i)
    requires k < U64_MAX && !OnCpu(w, start, k, i)
    requires w.pol.quantum >= 2 && EqualWeights(w, c) && c >= 1 && i in ids && j in ids && i != j
    ensures OneTurnAtMost(After(w, start, k).sys, w.pol.quantum, i, j, Closed(After(w, start, a).sys, j))
    decreases k
  {
    hide *;
    if a == k {
      NoTurnYet(After(w, start, a).sys, w.pol.quantum, i, j);
    } else {
      WaitsEarlier(w, start, a, k, i);
      OneTurnEach(w, start, a, k - 1, i, j, c, ids);
      AlwaysRotates(w, start, k - 1, c, ids);
      RotatesOn(w, start, k - 1, c, ids);
      PoolAt(w, start, k - 1, ids, i);
      PoolAt(w, start, k - 1, ids, j);
      PoolAt(w, start, k, ids, i);
      if After(w, start, k).sys != After(w, start, k - 1).sys {
        TurnKeepsOrder(After(w, start, k - 1).sys, After(w, start, k).sys, start + k - 1, w.pol.quantum, i, j,
                       Closed(After(w, start, a).sys, j));
      }
    }
  }

  lemma NoTurnYet(s: State, quantum: nat, i: Id, j: Id)
    ensures OneTurnAtMost(s, quantum, i, j, Closed(s, j))
  {
  }

  lemma WaitsEarlier(w: World, start: nat, a: nat, k: nat, i: Id)
    requires a < k && Waits(w, start, a, k, i)
    ensures Waits(w, start, a, k - 1, i) && !OnCpu(w, start, k - 1, i)
  {
    hide OnCpu;
  }

  lemma PoolAt(w: World, start: nat, k: nat, ids: seq<Id>, v: Id)
    requires Pool(w) && Fresh(w) && k <= U64_MAX && Lists(ids, w) && v in ids
    ensures Schedulable(After(w, start, k).sys, v)
    ensures Holds(After(w, start, k).sys, v) <==> OnCpu(w, start, k, v)
  {
    FairAtEveryTick(w, start, k);
    assert Schedulable(w.sys, v);
    hide After, Pool, Fresh;
    RunnerIsOccupant(After(w, start, k).sys, v);
  }

  /** So while one vCPU waits every other gains at most a quantum and a tick. */
  lemma EqualGain(w: World, start: nat, a: nat, b: nat, i: Id, j: Id, c: nat, ids: seq<Id>)
    requires Pool(w) && Fresh(w) && Lists(ids, w) && |ids| >= 2 && Waits(w, start, a, b, i)
    requires w.pol.quantum >= 2 && EqualWeights(w, c) && c >= 1 && i in ids && j in ids && i != j
    ensures Service(w, start, b, j) - Service(w, start, a, j) <= w.pol.quantum + 1
  {
    hide *;
    WaitLength(w, start, a, b, i);
    if a < b {
      WaitsEarlier(w, start, a, b, i);
      OneTurnEach(w, start, a, b - 1, i, j, c, ids);
      AlwaysRotates(w, start, b - 1, c, ids);
      ServiceAtLeast(w, start, a, j);
      ServiceIsSeen(w, start, b - 1, j);
      var other := AnotherWaits(w, start, b - 1, ids);
      var s := After(w, start, b - 1);
      DoneShape(s, start + b - 1, b - 1);
      ServiceNow(s.sys, start + b - 1, s.sys.pcpus[0].value, j);
      AtMostATurn(s.sys, start + b - 1, w.pol.quantum, i, j, Closed(After(w, start, a).sys, j));
    }
  }

  lemma WaitLength(w: World, start: nat, a: nat, b: nat, i: Id)
    requires Waits(w, start, a, b, i)
    ensures a <= b <= U64_MAX
  {
  }

  lemma ServiceAtLeast(w: World, start: nat, a: nat, j: Id)
    ensures Service(w, start, a, j) >= Closed(After(w, start, a).sys, j)
  {
    hide After;
  }

  lemma AtMostATurn(s: State, now: nat, quantum: nat, i: Id, j: Id, z: nat)
    requires Rotates(s, now, quantum) && OneTurnAtMost(s, quantum, i, j, z)
    ensures var r := s.pcpus[0].value;
            Closed(s, j) + (if j == r then SatSub(now, s.At(r).dispatchedAt) + 1 else 0) <= z + quantum + 1
  {
    hide Staggered, Opened;
  }

  lemma TurnCoversQuantum(c: nat, quantum: nat, least: nat)
    requires 1 <= least <= c
    ensures quantum + 1 <= Turn(c, quantum, least)
  {
    Monotone(quantum, least, c);
    FitsQuotient(quantum, least, c * quantum);
  }

  lemma EqualTurn(w: World, start: nat, a: nat, b: nat, i: Id, j: Id, c: nat, ids: seq<Id>, least: nat)
    requires Pool(w) && Fresh(w) && Lists(ids, w) && |ids| >= 2 && Waits(w, start, a, b, i)
    requires w.pol.quantum >= 2 && EqualWeights(w, c) && c >= 1 && i in ids && j in ids && i != j
    requires 1 <= least <= w.pol.WeightOf(j)
    ensures Service(w, start, b, j) - Service(w, start, a, j) <= Turn(w.pol.WeightOf(j), w.pol.quantum, least)
  {
    hide *;
    EqualGain(w, start, a, b, i, j, c, ids);
    TurnCoversQuantum(w.pol.WeightOf(j), w.pol.quantum, least);
  }

  /** Every pool of equal weights meets the documented bound, at every quantum of at least one tick. */
  lemma MetByEqualWeights(w: World, start: nat, ids: seq<Id>, c: nat)
    requires Pool(w) && Fresh(w) && Lists(ids, w) && ids != [] && w.pol.quantum >= 1 && EqualWeights(w, c)
    ensures Meets(w, start, ids)
  {
    assert ids[0] in ids && Schedulable(w.sys, ids[0]) && c >= 1;
    if w.pol.quantum == 1 {
      MetAtOneTick(w, start, ids);
    } else if |ids| == 1 {
      MetByOne(w, start, ids);
    } else {
      var least := LeastWeight(w.pol, ids);
      hide Pool, Fresh, Lists, Service, Waits, Turns, Turn, LeastWeight, EqualWeights;
      forall i: Id, a: nat, b: nat | i in ids && Waits(w, start, a, b, i)
        ensures b - a <= Turns(w.pol, ids, least, i)
      {
        forall j | j in ids && j != i
          ensures Service(w, start, b, j) - Service(w, start, a, j) <= Turn(w.pol.WeightOf(j), w.pol.quantum, least)
        {
          EqualTurn(w, start, a, b, i, j, c, ids, least);
        }
        WaitIsGain(w, start, a, b, i, ids, least);
      }
    }
  }

  // ----- one pool, one waiter -----

  /** A vCPU heavy enough for the others to fall behind it by no more than a turn each waits no longer
      than documented, whatever the pool. */
  lemma MetByHeavyWaiter(w: World, start: nat, a: nat, b: nat, i: Id, ids: seq<Id>)
    requires Pool(w) && Fresh(w) && Lists(ids, w) && i in ids && Waits(w, start, a, b, i)
    requires forall j | j in ids && j != i ::
               Max(w.pol.quantum, 1) * (w.pol.WeightOf(i) + w.pol.WeightOf(j)) / w.pol.WeightOf(i)
               <= Turn(w.pol.WeightOf(j), w.pol.quantum, LeastWeight(w.pol, ids))
    ensures b - a <= Turns(w.pol, ids, LeastWeight(w.pol, ids), i)
  {
    hide *;
    forall j | j in ids && j != i
      ensures Service(w, start, b, j) - Service(w, start, a, j)
              <= Turn(w.pol.WeightOf(j), w.pol.quantum, LeastWeight(w.pol, ids))
    {
      BehindHeavyWaiter(w, start, a, b, i, j, ids);
    }
    WaitIsGain(w, start, a, b, i, ids, LeastWeight(w.pol, ids));
  }

  lemma BehindHeavyWaiter(w: World, start: nat, a: nat, b: nat, i: Id, j: Id, ids: seq<Id>)
    requires Pool(w) && Fresh(w) && Lists(ids, w) && i in ids && j in ids && Waits(w, start, a, b, i)
    ensures Service(w, start, b, j) - Service(w, start, a, j)
            <= Max(w.pol.quantum, 1) * (w.pol.WeightOf(i) + w.pol.WeightOf(j)) / w.pol.WeightOf(i)
  {
    hide *;
    Listed(w, ids, i);
    Listed(w, ids, j);
    StandsStillInWait(w, start, a, b, i);
    GainWhileWaiting(w, start, a, b, i, j);
    FitsQuotient(Service(w, start, b, j) - Service(w, start, a, j), w.pol.WeightOf(i),
                 Max(w.pol.quantum, 1) * (w.pol.WeightOf(i) + w.pol.WeightOf(j)));
  }

  lemma Listed(w: World, ids: seq<Id>, v: Id)
    requires Lists(ids, w) && v in ids
    ensures Schedulable(w.sys, v)
  {
  }

  lemma StandsStillInWait(w: World, start: nat, a: nat, b: nat, i: Id)
    requires Pool(w) && Fresh(w) && Schedulable(w.sys, i) && Waits(w, start, a, b, i)
    ensures a <= b <= U64_MAX && Service(w, start, b, i) == Service(w, start, a, i)
  {
    hide Pool, Fresh, Service, OnCpu, Schedulable;
    WaiterStandsStill(w, start, a, b, i);
  }

  // ----- a pool that waits longer: one vCPU of weight five, the others of weight six -----

  function Weight(v: nat): nat {
    if v == 0 then 5 else 6
  }

  function Skewed(n: nat, quantum: nat): World {
    World(Policy([seq(n, v requires 0 <= v < n => Weight(v))], quantum, [seq(n, _ => 0)], [seq(n, _ => false)], false),
          State([seq(n, _ => VirtualCpu(Runnable, 0, 0, 1))], [None]))
  }

  function Ids(n: nat): (ids: seq<Id>)
    ensures |ids| == n && forall v | 0 <= v < n :: ids[v] == Id(0, v)
  {
    seq(n, v requires 0 <= v < n => Id(0, v))
  }

  lemma SkewedPool(n: nat, quantum: nat)
    requires 1 <= n && n + 3 <= U32_MAX
    ensures Pool(Skewed(n, quantum)) && Fresh(Skewed(n, quantum)) && Lists(Ids(n), Skewed(n, quantum))
    ensures forall id: Id :: Schedulable(Skewed(n, quantum).sys, id) <==> id.dom == 0 && id.vcpu < n
    ensures forall v: nat | v < n :: Skewed(n, quantum).pol.WeightOf(Id(0, v)) == Weight(v)
    ensures Skewed(n, quantum).pol.quantum == quantum
  {
    var w := Skewed(n, quantum);
    var row := w.sys.domains[0];
    assert w.sys.domains[..0] == [];
    assert VcpuTotal(w.sys.domains) == |row|;
    assert Schedulable(w.sys, Id(0, 0));
    forall id: Id
      ensures id in Ids(n) <==> Schedulable(w.sys, id)
    {
      if Schedulable(w.sys, id) {
        assert Ids(n)[id.vcpu] == id;
      }
    }
  }

  /** By the services `f`, `r` is strictly behind nobody. */
  ghost predicate Level(f: seq<nat>, r: nat) {
    r < |f| && forall v | 0 <= v < |f| :: f[r] * Weight(v) <= f[v] * Weight(r)
  }

  /** By the services `f`, `u` leads, and everyone before it strictly. */
  ghost predicate Leader(f: seq<nat>, u: nat) {
    u < |f| && forall v | 0 <= v < |f| && v != u ::
      f[u] * Weight(v) <= f[v] * Weight(u) && (v < u ==> f[u] * Weight(v) < f[v] * Weight(u))
  }

  ghost predicate Served(n: nat, quantum: nat, start: nat, k: nat, f: seq<nat>) {
    |f| == n && forall v | 0 <= v < n :: Service(Skewed(n, quantum), start, k, Id(0, v)) == f[v]
  }

  /** At tick `k` vCPU `r` was dispatched, everyone having been served as `f` says. */
  ghost predicate TurnBegins(n: nat, quantum: nat, start: nat, k: nat, r: nat, f: seq<nat>) {
    && r < n && Served(n, quantum, start, k, f)
    && Sits(After(Skewed(n, quantum), start, k).sys, Id(0, r), start + k)
  }

  lemma ServedRanks(n: nat, quantum: nat, start: nat, k: nat, f: seq<nat>, r: nat)
    requires 1 <= n && n + 3 <= U32_MAX && Served(n, quantum, start, k, f) && r < n
    ensures LevelAt(Skewed(n, quantum), start, k, Id(0, r)) <==> Level(f, r)
    ensures Leader(f, r) ==> LeadsAt(Skewed(n, quantum), start, k, Id(0, r))
  {
    var w := Skewed(n, quantum);
    SkewedPool(n, quantum);
    hide Skewed, Service, Pool, Fresh, Lists, Schedulable, Weight;
    assert Schedulable(w.sys, Id(0, r));
    forall v: nat | v < n
      ensures Schedulable(w.sys, Id(0, v)) && w.pol.WeightOf(Id(0, v)) == Weight(v)
    {
    }
    forall j: Id | Schedulable(w.sys, j)
      ensures j == Id(0, j.vcpu) && j.vcpu < n && w.pol.WeightOf(j) == Weight(j.vcpu)
      ensures Service(w, start, k, j) == f[j.vcpu]
    {
    }
  }

  /** Within the quantum a turn goes on. */
  lemma {:induction false} TurnGoesOn(w: World, start: nat, k: nat, r: Id, l: nat)
    requires Pool(w) && Fresh(w) && k + l <= U64_MAX && l < Max(w.pol.quantum, 1)
    requires Sits(After(w, start, k).sys, r, start + k)
    ensures After(w, start, k + l).sys == After(w, start, k).sys
  {
    hide Pool, Fresh, After, Sits, LevelAt;
    if l > 0 {
      TurnGoesOn(w, start, k, r, l - 1);
      TickStays(w, start, k + l - 1, r, start + k);
    }
  }

  lemma SeatIsRun(w: World, start: nat, k: nat, r: Id)
    requires Pool(w) && Fresh(w) && k <= U64_MAX && Holds(After(w, start, k).sys, r)
    ensures OnCpu(w, start, k, r)
  {
    FairAtEveryTick(w, start, k);
    hide After;
    RunnerIsOccupant(After(w, start, k).sys, r);
  }

  lemma Begun(n: nat, quantum: nat, start: nat, k: nat, r: nat, f: seq<nat>)
    requires TurnBegins(n, quantum, start, k, r, f)
    ensures r < n && |f| == n && Served(n, quantum, start, k, f)
    ensures Sits(After(Skewed(n, quantum), start, k).sys, Id(0, r), start + k)
    ensures Holds(After(Skewed(n, quantum), start, k).sys, Id(0, r))
  {
  }

  /** From tick `a` up to tick `b` the CPU is held as at `a`. */
  ghost predicate SameSeat(w: World, start: nat, a: nat, b: nat) {
    forall c | a <= c < b :: After(w, start, c).sys == After(w, start, a).sys
  }

  lemma SeatRuns(w: World, start: nat, a: nat, b: nat, r: Id)
    requires Pool(w) && Fresh(w) && a <= b <= U64_MAX && Holds(After(w, start, a).sys, r) && SameSeat(w, start, a, b)
    ensures RunsThrough(w, start, a, b, r)
  {
    hide Pool, Fresh, After, OnCpu;
    forall c | a <= c < b
      ensures OnCpu(w, start, c, r)
    {
      SeatIsRun(w, start, c, r);
    }
  }

  lemma ServedAt(n: nat, quantum: nat, start: nat, k: nat, f: seq<nat>, v: nat)
    requires Served(n, quantum, start, k, f) && v < n
    ensures |f| == n && Service(Skewed(n, quantum), start, k, Id(0, v)) == f[v]
  {
  }

  lemma ServedMore(n: nat, quantum: nat, start: nat, k: nat, f: seq<nat>, r: nat, len: nat)
    requires r < n && |f| == n
    requires forall v | 0 <= v < n ::
               Service(Skewed(n, quantum), start, k, Id(0, v)) == f[v] + if v == r then len else 0
    ensures Served(n, quantum, start, k, f[r := f[r] + len])
  {
  }

  lemma RunServes(n: nat, quantum: nat, start: nat, k: nat, r: nat, f: seq<nat>, len: nat)
    requires 1 <= n && n + 3 <= U32_MAX && k + len <= U64_MAX && r < n && |f| == n && Served(n, quantum, start, k, f)
    requires RunsThrough(Skewed(n, quantum), start, k, k + len, Id(0, r))
    ensures Served(n, quantum, start, k + len, f[r := f[r] + len])
  {
    hide *;
    SkewedPool(n, quantum);
    forall v | 0 <= v < n
      ensures Service(Skewed(n, quantum), start, k + len, Id(0, v)) == f[v] + if v == r then len else 0
    {
      ServedAt(n, quantum, start, k, f, v);
      RunGains(Skewed(n, quantum), start, k, k + len, Id(0, r), Id(0, v));
    }
    ServedMore(n, quantum, start, k + len, f, r, len);
  }

  /** How a turn of `len` ticks serves the pool. */
  lemma SeatServes(n: nat, quantum: nat, start: nat, k: nat, r: nat, f: seq<nat>, len: nat)
    requires 1 <= n && n + 3 <= U32_MAX && k + len <= U64_MAX && TurnBegins(n, quantum, start, k, r, f)
    requires SameSeat(Skewed(n, quantum), start, k, k + len)
    ensures |f| == n && r < n
    ensures RunsThrough(Skewed(n, quantum), start, k, k + len, Id(0, r))
    ensures Served(n, quantum, start, k + len, f[r := f[r] + len])
  {
    hide *;
    Begun(n, quantum, start, k, r, f);
    SkewedPool(n, quantum);
    SeatRuns(Skewed(n, quantum), start, k, k + len, Id(0, r));
    RunServes(n, quantum, start, k, r, f, len);
  }

  lemma QuantumSeat(w: World, start: nat, k: nat, r: Id)
    requires Pool(w) && Fresh(w) && k + Max(w.pol.quantum, 1) <= U64_MAX && Sits(After(w, start, k).sys, r, start + k)
    ensures SameSeat(w, start, k, k + Max(w.pol.quantum, 1))
  {
    hide Pool, Fresh, After, Sits;
    forall c | k <= c < k + Max(w.pol.quantum, 1)
      ensures After(w, start, c).sys == After(w, start, k).sys
    {
      TurnGoesOn(w, start, k, r, c - k);
    }
  }

  /** A turn of one quantum. */
  lemma PlainTurn(n: nat, quantum: nat, start: nat, k: nat, r: nat, f: seq<nat>)
    requires 1 <= n && n + 3 <= U32_MAX && k + Max(quantum, 1) <= U64_MAX && TurnBegins(n, quantum, start, k, r, f)
    ensures |f| == n && r < n
    ensures SameSeat(Skewed(n, quantum), start, k, k + Max(quantum, 1))
    ensures RunsThrough(Skewed(n, quantum), start, k, k + Max(quantum, 1), Id(0, r))
    ensures Served(n, quantum, start, k + Max(quantum, 1), f[r := f[r] + Max(quantum, 1)])
  {
    hide *;
    Begun(n, quantum, start, k, r, f);
    SkewedPool(n, quantum);
    QuantumSeat(Skewed(n, quantum), start, k, Id(0, r));
    SeatServes(n, quantum, start, k, r, f, Max(quantum, 1));
  }

  /** At the end of its turn the runner sits where it sat. */
  lemma SeatAtEnd(w: World, start: nat, a: nat, b: nat, r: Id)
    requires a < b && SameSeat(w, start, a, b) && Sits(After(w, start, a).sys, r, start + a)
    ensures Sits(After(w, start, b - 1).sys, r, start + a)
    ensures After(w, start, b).sys == After(w, start, b - 1).sys ==> SameSeat(w, start, a, b + 1)
  {
  }

  /** A runner still level with the others at the end of its quantum stays for one tick more. */
  lemma LongTurn(n: nat, quantum: nat, start: nat, k: nat, r: nat, f: seq<nat>)
    requires 1 <= n && n + 3 <= U32_MAX && k + Max(quantum, 1) + 1 <= U64_MAX && TurnBegins(n, quantum, start, k, r, f)
    requires |f| == n && r < n && Level(f[r := f[r] + Max(quantum, 1)], r)
    ensures SameSeat(Skewed(n, quantum), start, k, k + Max(quantum, 1) + 1)
    ensures RunsThrough(Skewed(n, quantum), start, k, k + Max(quantum, 1) + 1, Id(0, r))
    ensures Served(n, quantum, start, k + Max(quantum, 1) + 1, f[r := f[r] + Max(quantum, 1) + 1])
  {
    hide *;
    Begun(n, quantum, start, k, r, f);
    SkewedPool(n, quantum);
    PlainTurn(n, quantum, start, k, r, f);
    var end := k + Max(quantum, 1);
    AtLeastOne(quantum);
    ServedRanks(n, quantum, start, end, f[r := f[r] + Max(quantum, 1)], r);
    SeatAtEnd(Skewed(n, quantum), start, k, end, Id(0, r));
    TickStays(Skewed(n, quantum), start, end - 1, Id(0, r), start + k);
    SeatServes(n, quantum, start, k, r, f, Max(quantum, 1) + 1);
  }

  lemma AtLeastOne(quantum: nat)
    ensures Max(quantum, 1) >= 1 && Max(quantum, 1) >= quantum
  {
  }

  /** A turn over, the leader's begins. */
  lemma TurnPasses(n: nat, quantum: nat, start: nat, k: nat, r: nat, len: nat, f: seq<nat>, u: nat)
    requires 1 <= n && n + 3 <= U32_MAX && 1 <= len && quantum <= len && k + len <= U64_MAX && r < n && u < n
    requires Sits(After(Skewed(n, quantum), start, k).sys, Id(0, r), start + k)
    requires SameSeat(Skewed(n, quantum), start, k, k + len)
    requires Served(n, quantum, start, k + len, f) && !Level(f, r) && Leader(f, u)
    ensures TurnBegins(n, quantum, start, k + len, u, f)
  {
    hide *;
    SkewedPool(n, quantum);
    SeatAtEnd(Skewed(n, quantum), start, k, k + len, Id(0, r));
    ServedRanks(n, quantum, start, k + len, f, r);
    ServedRanks(n, quantum, start, k + len, f, u);
    Elapsed(start, k, len);
    TickYields(Skewed(n, quantum), start, k + len - 1, Id(0, r), start + k, Id(0, u));
    Begins(n, quantum, start, k + len, u, f);
  }

  lemma Elapsed(start: nat, k: nat, len: nat)
    requires len >= 1
    ensures SatSub(start + (k + len - 1) + 1, start + k) == len
  {
  }

  lemma Begins(n: nat, quantum: nat, start: nat, k: nat, r: nat, f: seq<nat>)
    requires r < n && Served(n, quantum, start, k, f)
             && Sits(After(Skewed(n, quantum), start, k).sys, Id(0, r), start + k)
    ensures TurnBegins(n, quantum, start, k, r, f)
  {
  }

  // ----- its run -----

  /** The vCPUs before `p` have had a turn, the others have not run. */
  function FirstRound(n: nat, m: nat, p: nat): (f: seq<nat>)
    ensures |f| == n
  {
    seq(n, v => if v < p then m else 0)
  }

  /** After the first round, in which the last vCPU ran one tick more, those of weight six before
      `p` have had another turn. */
  function SecondRound(n: nat, m: nat, p: nat): (f: seq<nat>)
    ensures |f| == n
  {
    seq(n, v => if v == n - 1 then m + 1 else if 1 <= v < p then 2 * m else m)
  }

  lemma FirstRoundRanks(n: nat, m: nat, p: nat)
    requires 1 <= p < n && m >= 1
    ensures FirstRound(n, m, p - 1)[p - 1 := FirstRound(n, m, p - 1)[p - 1] + m] == FirstRound(n, m, p)
    ensures !Level(FirstRound(n, m, p), p - 1) && Leader(FirstRound(n, m, p), p)
  {
    var f := FirstRound(n, m, p);
    assert f[p - 1] == m && f[p] == 0;
  }

  lemma LongTurnRanks(n: nat, m: nat)
    requires n >= 2 && m >= 1
    ensures var f := FirstRound(n, m, n - 1);
            && Level(f[n - 1 := f[n - 1] + m], n - 1)
            && f[n - 1 := f[n - 1] + m + 1] == SecondRound(n, m, 1)
    ensures n >= 3 ==> !Level(SecondRound(n, m, 1), n - 1) && Leader(SecondRound(n, m, 1), 1)
  {
    var f, g := FirstRound(n, m, n - 1), SecondRound(n, m, 1);
    assert g[n - 1] == m + 1 && (n >= 3 ==> g[1] == m);
    assert f[n - 1 := f[n - 1] + m + 1] == g;
  }

  lemma SecondRoundRanks(n: nat, m: nat, p: nat)
    requires 2 <= p < n - 1 && m >= 1
    ensures SecondRound(n, m, p - 1)[p - 1 := SecondRound(n, m, p - 1)[p - 1] + m] == SecondRound(n, m, p)
    ensures !Level(SecondRound(n, m, p), p - 1) && Leader(SecondRound(n, m, p), p)
  {
    var f := SecondRound(n, m, p);
    assert f[p - 1] == 2 * m && f[p] == m;
  }

  lemma WaitsOn(w: World, start: nat, a: nat, b: nat, c: nat, i: Id, r: Id)
    requires Pool(w) && Fresh(w) && b <= c <= U64_MAX && Waits(w, start, a, b, i) && RunsThrough(w, start, b, c, r)
             && r != i
    ensures Waits(w, start, a, c, i)
  {
    hide Pool, Fresh, OnCpu;
    forall k | a <= k < c
      ensures !OnCpu(w, start, k, i)
    {
      if k >= b {
        var x := SomeoneRuns(w, start, k);
        assert OnCpu(w, start, k, r);
        assert OnCpu(w, start, k, i) <==> i == x;
      }
    }
  }

  /** The first pass dispatches the first vCPU. */
  lemma RunBegins(n: nat, quantum: nat, start: nat)
    requires 1 <= n && n + 3 <= U32_MAX
    ensures TurnBegins(n, quantum, start, 0, 0, FirstRound(n, Max(quantum, 1), 0))
  {
    var w := Skewed(n, quantum);
    SkewedPool(n, quantum);
    assert w.sys.pcpus[0].None? && forall id: Id :: RunTimeOf(w.sys, id, start) == 0;
    hide Skewed, Pool, Fresh, Lists, Advance;
    FreshIsReady(w, start);
    assert Schedulable(w.sys, Id(0, 0));
    assert IsLeader(w, start, Id(0, 0));
    PassYields(w, start, 0, Id(0, 0));
    PassFollows(w, start, 0);
  }

  /** Turn by turn through the first round; the first vCPU waits from the end of its turn. */
  lemma {:induction false} FirstRoundRuns(n: nat, quantum: nat, start: nat, p: nat)
    requires 1 <= n && n + 3 <= U32_MAX && p < n && n * Max(quantum, 1) <= U64_MAX
    ensures TurnBegins(n, quantum, start, p * Max(quantum, 1), p, FirstRound(n, Max(quantum, 1), p))
    ensures p >= 1 ==> Waits(Skewed(n, quantum), start, Max(quantum, 1), p * Max(quantum, 1), Id(0, 0))
    decreases p
  {
    hide *;
    var m := Max(quantum, 1);
    AtLeastOne(quantum);
    SkewedPool(n, quantum);
    if p == 0 {
      RunBegins(n, quantum, start);
    } else {
      var k, f := (p - 1) * m, FirstRound(n, m, p - 1);
      FirstRoundRuns(n, quantum, start, p - 1);
      Begun(n, quantum, start, k, p - 1, f);
      Scaled(p, n, m);
      PlainTurn(n, quantum, start, k, p - 1, f);
      FirstRoundRanks(n, m, p);
      TurnPasses(n, quantum, start, k, p - 1, m, FirstRound(n, m, p), p);
      if p == 1 {
        NoWait(Skewed(n, quantum), start, m, Id(0, 0));
      } else {
        WaitsOn(Skewed(n, quantum), start, m, k, p * m, Id(0, 0), Id(0, p - 1));
      }
    }
  }

  lemma NoWait(w: World, start: nat, a: nat, i: Id)
    requires a <= U64_MAX
    ensures Waits(w, start, a, a, i)
  {
  }

  lemma Scaled(p: nat, n: nat, m: nat)
    requires 1 <= p <= n
    ensures (p - 1) * m + m == p * m && p * m <= n * m
    ensures p == 1 ==> p * m == m
  {
  }

  /** When as many turns are over, one of them having been a tick longer. */
  function TurnsOver(turns: nat, m: nat): nat {
    turns * m + 1
  }

  lemma OneTurnOver(turns: nat, limit: nat, m: nat)
    requires turns < limit
    ensures TurnsOver(turns + 1, m) == TurnsOver(turns, m) + m && TurnsOver(turns + 1, m) <= limit * m + 1
    ensures TurnsOver(turns + 1, m) == turns * m + m + 1
  {
  }

  /** The last turn of the first round is one tick longer, as its runner only draws level. */
  lemma FirstRoundEnds(n: nat, quantum: nat, start: nat)
    requires 2 <= n && n + 3 <= U32_MAX && n * Max(quantum, 1) + 1 <= U64_MAX
    ensures Waits(Skewed(n, quantum), start, Max(quantum, 1), TurnsOver(n, Max(quantum, 1)), Id(0, 0))
    ensures n >= 3
            ==> TurnBegins(n, quantum, start, TurnsOver(n, Max(quantum, 1)), 1, SecondRound(n, Max(quantum, 1), 1))
  {
    hide *;
    var m := Max(quantum, 1);
    AtLeastOne(quantum);
    SkewedPool(n, quantum);
    var k, f := (n - 1) * m, FirstRound(n, m, n - 1);
    FirstRoundRuns(n, quantum, start, n - 1);
    Begun(n, quantum, start, k, n - 1, f);
    OneTurnOver(n - 1, n, m);
    LongTurnRanks(n, m);
    LongTurn(n, quantum, start, k, n - 1, f);
    WaitsOn(Skewed(n, quantum), start, m, k, k + m + 1, Id(0, 0), Id(0, n - 1));
    if n >= 3 {
      TurnPasses(n, quantum, start, k, n - 1, m + 1, SecondRound(n, m, 1), 1);
    }
  }

  /** Then every other vCPU but the last has a second turn while the first still waits. */
  lemma {:induction false} SecondRoundRuns(n: nat, quantum: nat, start: nat, p: nat)
    requires 3 <= n && n + 3 <= U32_MAX && 1 <= p < n - 1 && 2 * n * Max(quantum, 1) + 1 <= U64_MAX
    ensures TurnBegins(n, quantum, start, TurnsOver(n + p - 1, Max(quantum, 1)), p, SecondRound(n, Max(quantum, 1), p))
    ensures Waits(Skewed(n, quantum), start, Max(quantum, 1), TurnsOver(n + p - 1, Max(quantum, 1)), Id(0, 0))
    decreases p
  {
    hide *;
    var m := Max(quantum, 1);
    AtLeastOne(quantum);
    SkewedPool(n, quantum);
    OneTurnOver(n + p - 2, 2 * n, m);
    if p == 1 {
      Scaled(n, 2 * n, m);
      FirstRoundEnds(n, quantum, start);
    } else {
      var k, f := TurnsOver(n + p - 2, m), SecondRound(n, m, p - 1);
      SecondRoundRuns(n, quantum, start, p - 1);
      Begun(n, quantum, start, k, p - 1, f);
      PlainTurn(n, quantum, start, k, p - 1, f);
      SecondRoundRanks(n, m, p);
      TurnPasses(n, quantum, start, k, p - 1, m, SecondRound(n, m, p), p);
      WaitsOn(Skewed(n, quantum), start, m, k, k + m, Id(0, 0), Id(0, p - 1));
    }
  }

  lemma LongWait(n: nat, quantum: nat, start: nat)
    requires 3 <= n && n + 3 <= U32_MAX && 2 * n * Max(quantum, 1) + 1 <= U64_MAX
    ensures Waits(Skewed(n, quantum), start, Max(quantum, 1), TurnsOver(2 * n - 2, Max(quantum, 1)), Id(0, 0))
  {
    hide *;
    var m := Max(quantum, 1);
    AtLeastOne(quantum);
    SkewedPool(n, quantum);
    var k, f := TurnsOver(2 * n - 3, m), SecondRound(n, m, n - 2);
    OneTurnOver(2 * n - 3, 2 * n, m);
    SecondRoundRuns(n, quantum, start, n - 2);
    Begun(n, quantum, start, k, n - 2, f);
    PlainTurn(n, quantum, start, k, n - 2, f);
    WaitsOn(Skewed(n, quantum), start, m, k, k + m, Id(0, 0), Id(0, n - 2));
  }

  // ----- what the documentation allows it -----

  lemma {:induction false} EqualTurns(pol: Policy, ids: seq<Id>, least: nat, i: Id, t: nat)
    requires least > 0 && forall a, b | 0 <= a < b < |ids| :: ids[a] != ids[b]
    requires forall id | id in ids && id != i :: Turn(pol.WeightOf(id), pol.quantum, least) == t
    ensures Turns(pol, ids, least, i) == (|ids| - if i in ids then 1 else 0) * t
  {
    hide Turn;
    if ids != [] {
      assert ids[0] in ids;
      EqualTurns(pol, ids[1..], least, i, t);
      var others := |ids| - 1 - if i in ids[1..] then 1 else 0;
      OneTurnMore(others, t);
      assert Turns(pol, ids[1..], least, i) == others * t;
      if ids[0] == i {
        assert i !in ids[1..];
      } else {
        assert i in ids <==> i in ids[1..];
      }
    }
  }

  lemma OneTurnMore(others: int, t: int)
    ensures (others + 1) * t == others * t + t
  {
  }

  lemma SkewedWeights(n: nat, quantum: nat)
    requires 1 <= n && n + 3 <= U32_MAX
    ensures Id(0, 0) in Ids(n) && Skewed(n, quantum).pol.WeightOf(Id(0, 0)) == 5
    ensures forall id | id in Ids(n) && id != Id(0, 0) :: Skewed(n, quantum).pol.WeightOf(id) == 6
    ensures forall a, b | 0 <= a < b < n :: Ids(n)[a] != Ids(n)[b]
  {
  }

  lemma SkewedTurns(n: nat, quantum: nat)
    requires 1 <= n && n + 3 <= U32_MAX
    ensures var pol := Skewed(n, quantum).pol;
            && LeastWeight(pol, Ids(n)) == 5
            && Turns(pol, Ids(n), 5, Id(0, 0)) == (n - 1) * Turn(6, quantum, 5)
  {
    SkewedWeights(n, quantum);
    var pol, ids := Skewed(n, quantum).pol, Ids(n);
    assert pol.quantum == quantum;
    hide Skewed, LeastWeight, Turn, Turns, Ids;
    EqualTurns(pol, ids, 5, Id(0, 0), Turn(6, quantum, 5));
  }

  /** The wait exceeds what is documented, for every quantum from two ticks on. */
  lemma TooLong(n: nat, quantum: nat)
    requires n >= 3 && quantum >= 2
    ensures (2 * n - 3) * quantum + 1 > (n - 1) * Turn(6, quantum, 5)
  {
    var k, t := n - 1, 6 * quantum / 5 + 1;
    assert Turn(6, quantum, 5) == t && 5 * t <= 6 * quantum + 5;
    Products(k, quantum, t);
    assert 2 * n - 3 == 2 * k - 1;
    assert 10 * (k * quantum) - 5 * quantum + 5 > 5 * (k * t);
  }

  lemma Products(k: nat, q: nat, t: nat)
    requires k >= 2 && q >= 2 && 5 * t <= 6 * q + 5
    ensures (2 * k - 1) * q == 2 * (k * q) - q
    ensures 5 * (k * t) <= 6 * (k * q) + 5 * k
    ensures 4 * (k * q) + 5 > 5 * k + 5 * q
  {
    Monotone(k, 5 * t, 6 * q + 5);
    Distributes(k, t, q);
    TwoByTwo(4 * k - 5, 4 * q - 5);
    Expanded(k, q);
  }

  lemma Distributes(k: nat, t: nat, q: nat)
    ensures k * (5 * t) == 5 * (k * t) && k * (6 * q + 5) == 6 * (k * q) + 5 * k
    ensures (2 * k - 1) * q == 2 * (k * q) - q
  {
  }

  lemma TwoByTwo(x: int, y: int)
    requires x >= 3 && y >= 3
    ensures x * y >= 9
  {
  }

  lemma Expanded(k: int, q: int)
    ensures (4 * k - 5) * (4 * q - 5) == 16 * (k * q) - 20 * k - 20 * q + 25
  {
  }

  /** A pool of `n` vCPUs that waits longer than documented. */
  lemma SkewedExceeds(n: nat, quantum: nat, start: nat)
    requires 2 <= n && n + 3 <= U32_MAX && 2 * n * Max(quantum, 1) + 1 <= U64_MAX
    requires quantum == 0 || (n >= 3 && quantum >= 2)
    ensures |Ids(n)| == n && !Meets(Skewed(n, quantum), start, Ids(n))
  {
    hide *;
    SkewedTurns(n, quantum);
    SkewedWeights(n, quantum);
    if quantum == 0 {
      FirstRoundEnds(n, quantum, start);
      OneTick(n);
      Exceeds(Skewed(n, quantum), start, Ids(n), Id(0, 0), 1, TurnsOver(n, 1));
    } else {
      LongWait(n, quantum, start);
      TooLong(n, quantum);
      AtLeastTwo(n, quantum);
      Exceeds(Skewed(n, quantum), start, Ids(n), Id(0, 0), quantum, TurnsOver(2 * n - 2, quantum));
    }
  }

  lemma Exceeds(w: World, start: nat, ids: seq<Id>, i: Id, a: nat, b: nat)
    requires i in ids && Waits(w, start, a, b, i) && b - a > Turns(w.pol, ids, LeastWeight(w.pol, ids), i)
    ensures !Meets(w, start, ids)
  {
    hide Turns, LeastWeight, Waits;
  }

  lemma OneTick(n: nat)
    ensures Max(0, 1) == 1 && Turn(6, 0, 5) == 1 && TurnsOver(n, 1) == n + 1
  {
  }

  lemma AtLeastTwo(n: nat, quantum: nat)
    requires n >= 3 && quantum >= 2
    ensures Max(quantum, 1) == quantum && TurnsOver(2 * n - 2, quantum) - quantum == (2 * n - 3) * quantum + 1
  {
  }

  // ----- exactly when the documented bound is met -----

  /** Every pool of `n` vCPUs with this quantum, whatever its weights, meets the documented bound. */
  ghost predicate AlwaysMet(n: nat, quantum: nat, start: nat)
    requires n >= 1
  {
    forall w: World, ids: seq<Id> | Pool(w) && Fresh(w) && w.pol.quantum == quantum && Lists(ids, w) && |ids| == n ::
      Meets(w, start, ids)
  }

  /** The documented latency bound is met by every pool exactly for one vCPU, for two and a quantum,
      and for a quantum of one tick. Pools are as large and quanta as long as the 32-bit and 64-bit
      words of the scheduler admit two rounds of turns. */
  lemma DocumentedBoundExactlyWhen(n: nat, quantum: nat, start: nat)
    requires 1 <= n && n + 3 <= U32_MAX && 2 * n * Max(quantum, 1) + 1 <= U64_MAX
    ensures AlwaysMet(n, quantum, start) <==> n == 1 || quantum == 1 || (n == 2 && quantum >= 1)
  {
    hide Pool, Fresh, Lists, Meets, Skewed, Ids;
    if n == 1 || quantum == 1 || (n == 2 && quantum >= 1) {
      forall w: World, ids: seq<Id> | Pool(w) && Fresh(w) && w.pol.quantum == quantum && Lists(ids, w) && |ids| == n
        ensures Meets(w, start, ids)
      {
        if n == 1 {
          MetByOne(w, start, ids);
        } else if quantum == 1 {
          MetAtOneTick(w, start, ids);
        } else {
          MetByTwo(w, start, ids);
        }
      }
    } else {
      SkewedPool(n, quantum);
      SkewedExceeds(n, quantum, start);
      assert !Meets(Skewed(n, quantum), start, Ids(n));
    }
  }
}
