/** What the policy guarantees over unbounded runs: a pool of vCPUs that stay schedulable shares
    one physical CPU in proportion to weight, to within a fixed slack at every tick, and none of
    them waits longer than a bound computed from the weights. */
module Fairness {
  import opened Basics
  import opened SchedModel
  import opened PolicyModel

  // ----- the setting -----

  /** One physical CPU, admitted by the mask of every vCPU in the pool; a pool that is not
      empty; no wake-boost offset anywhere; words wide enough. */
  ghost predicate Pool(w: World) {
    && Inv(w.sys) && |w.sys.pcpus| == 1
    && w.pol.Shaped() && w.pol.WeightsFit()
    && VcpuTotal(w.sys.domains) + 3 <= U32_MAX
    && (exists id: Id :: Schedulable(w.sys, id))
    && (forall id: Id | Schedulable(w.sys, id) :: w.sys.AffinityPermits(id, 0))
    && (forall id: Id {:trigger w.pol.OffsetOf(id)} :: w.pol.OffsetOf(id) == 0)
    && (forall id: Id {:trigger w.sys.At(id)} | w.sys.Has(id) && !Schedulable(w.sys, id) ::
          w.sys.At(id).runtime <= U64_MAX)
  }

  /** The pool was admitted together: everyone is waiting and nobody has run. */
  ghost predicate Fresh(w: World) {
    forall id: Id {:trigger w.sys.At(id)} | Schedulable(w.sys, id) ::
      w.sys.At(id).state.Runnable? && w.sys.At(id).runtime == 0
  }

  /** The world after the pass of tick `k`, one pass per tick from `start`. */
  ghost function After(w: World, start: nat, k: nat): World {
    if k == 0 then Advance(w, start) else Advance(After(w, start, k - 1), start + k)
  }

  /** Ticks of CPU that vCPU `id` has received by tick `k`. */
  ghost function Service(w: World, start: nat, k: nat, id: Id): nat {
    RunTimeOf(After(w, start, k).sys, id, start + k)
  }

  ghost predicate OnCpu(w: World, start: nat, k: nat, id: Id) {
    After(w, start, k).sys.IsRunning(id)
  }

  // ----- service per weight, compared across vCPUs -----

  /** x/xw is ahead of y/yw by at most slack/xw. */
  predicate Within(x: nat, xw: nat, y: nat, yw: nat, slack: nat) {
    x * yw <= y * xw + slack * yw
  }

  lemma WithinTicks(x: nat, xw: nat, y: nat, yw: nat, slack: nat)
    requires Within(x, xw, y, yw, slack)
    ensures Within(x + 1, xw, y, yw, slack + 1)
    ensures Within(x, xw, y + 1, yw, slack)
  {
  }

  lemma WithinWeakens(x: nat, xw: nat, y: nat, yw: nat, slack: nat, more: nat)
    requires Within(x, xw, y, yw, slack) && slack <= more
    ensures Within(x, xw, y, yw, more)
  {
  }

  ghost predicate SpreadIs(w: World, now: nat, slack: nat) {
    forall i: Id, j: Id | Schedulable(w.sys, i) && Schedulable(w.sys, j) ::
      Within(RunTimeOf(w.sys, i, now), w.pol.WeightOf(i), RunTimeOf(w.sys, j, now), w.pol.WeightOf(j), slack)
  }

  ghost predicate RunnerLeads(w: World, now: nat, slack: nat)
    requires |w.sys.pcpus| == 1 && w.sys.pcpus[0].Some?
  {
    forall j: Id | Schedulable(w.sys, j) ::
      Within(RunTimeOf(w.sys, w.sys.pcpus[0].value, now), w.pol.WeightOf(w.sys.pcpus[0].value),
             RunTimeOf(w.sys, j, now), w.pol.WeightOf(j), slack)
  }

  function Slack(quantum: nat): nat {
    Max(quantum, 1)
  }

  /** How long the occupant of the CPU has held it. */
  function Held(w: World, now: nat): nat
    requires |w.sys.pcpus| == 1 && w.sys.pcpus[0].Some? && w.sys.Has(w.sys.pcpus[0].value)
  {
    SatSub(now, w.sys.At(w.sys.pcpus[0].value).dispatchedAt)
  }

  /** Before the pass at `now`, `k` ticks in. */
  ghost predicate Ready(w: World, now: nat, k: nat) {
    && Pool(w) && SpreadIs(w, now, Slack(w.pol.quantum))
    && (forall id: Id | Schedulable(w.sys, id) :: RunTimeOf(w.sys, id, now) <= k)
    && (w.sys.pcpus[0].Some? ==>
          && w.sys.At(w.sys.pcpus[0].value).dispatchedAt <= now
          && RunnerLeads(w, now, if Held(w, now) <= w.pol.quantum then Held(w, now) else 1))
    && (Fresh(w) || forall id: Id | Schedulable(w.sys, id) && Tracked(w.pol.offset, id) :: w.pol.Was(id))
  }

  /** After it: the CPU is busy, and a runner past its quantum leads nobody. */
  ghost predicate Done(w: World, now: nat, k: nat) {
    && Ready(w, now, k)
    && w.sys.pcpus[0].Some?
    && (Held(w, now) >= w.pol.quantum ==> RunnerLeads(w, now, 0))
    && (forall id: Id | Schedulable(w.sys, id) && Tracked(w.pol.offset, id) :: w.pol.Was(id))
  }

  // ----- one pass on one physical CPU -----

  /** `s'` differs from `s` only in who holds the CPU: same pool, masks and run times. */
  ghost predicate OnlyPlaced(s: State, s': State, now: nat) {
    && |s'.pcpus| == |s.pcpus| && |s'.domains| == |s.domains|
    && (forall d | 0 <= d < |s.domains| :: |s'.domains[d]| == |s.domains[d]|)
    && forall id: Id {:trigger s'.Has(id)} {:trigger Schedulable(s', id)} {:trigger RunTimeOf(s', id, now)} ::
         && (s'.Has(id) <==> s.Has(id))
         && (Schedulable(s', id) <==> Schedulable(s, id))
         && RunTimeOf(s', id, now) == RunTimeOf(s, id, now)
         && (s.Has(id) ==> s'.At(id).affinity == s.At(id).affinity)
  }

  lemma DecisionOnlyPlaces(pol: Policy, s: State, now: nat)
    requires Exact(pol, s, now) && !Next(pol, s, now).Idle?
    ensures var r := Enact(s, Next(pol, s, now), now);
            r.Success? && OnlyPlaced(s, r.value, now) && Exact(pol, r.value, now)
  {
    var d := Next(pol, s, now);
    NextIsNeverRefused(pol, s, now);
    EnactKeepsExact(pol, s, d, now);
    var s' := Enact(s, d, now).value;
    forall id: Id
      ensures (s'.Has(id) <==> s.Has(id)) && (Schedulable(s', id) <==> Schedulable(s, id))
      ensures RunTimeOf(s', id, now) == RunTimeOf(s, id, now)
      ensures s.Has(id) ==> s'.At(id).affinity == s.At(id).affinity
    {
      StepTouchesOne(s, OpOf(d, now), id);
      assert s.Has(d.id) && s.At(d.id) == s.At(d.id);
      EnactKeepsRunTime(s, d, now, id);
    }
  }

  ghost predicate Alone(pol: Policy, s: State, now: nat) {
    && Inv(s) && Exact(pol, s, now) && |s.pcpus| == 1
    && (exists id: Id :: Schedulable(s, id))
    && (forall id: Id | Schedulable(s, id) :: s.AffinityPermits(id, 0))
  }

  ghost predicate Least(pol: Policy, s: State, now: nat, u: Id) {
    forall j: Id | Schedulable(s, j) :: !MoreDeserving(pol.ShareOf(s, j, now), pol.ShareOf(s, u, now))
  }

  /** Least served, and strictly ahead of every vCPU that comes before it in index order. */
  ghost predicate First(pol: Policy, s: State, now: nat, u: Id) {
    && Schedulable(s, u) && Least(pol, s, now, u)
    && forall j: Id | Schedulable(s, j) && Seen(s, u.dom, u.vcpu, j) ::
         MoreDeserving(pol.ShareOf(s, u, now), pol.ShareOf(s, j, now))
  }

  /** What is decided for an idle CPU: the first of the least served takes it. */
  lemma NextIsFirst(pol: Policy, s: State, now: nat)
    requires Alone(pol, s, now) && s.pcpus[0].None?
    ensures Next(pol, s, now).Run? && Next(pol, s, now).pcpu == 0 && First(pol, s, now, Next(pol, s, now).id)
  {
    NextIsCandidate(pol, s, now);
    var any: Id :| Schedulable(s, any);
    assert s.At(any) == s.At(any);
    assert Candidate(Place, pol, s, now, any).Some?;
    var d := Next(pol, s, now);
    forall j: Id | Schedulable(s, j)
      ensures !MoreDeserving(pol.ShareOf(s, j, now), pol.ShareOf(s, d.id, now))
      ensures Seen(s, d.id.dom, d.id.vcpu, j) ==> MoreDeserving(pol.ShareOf(s, d.id, now), pol.ShareOf(s, j, now))
    {
      assert s.At(j) == s.At(j);
      assert Candidate(Place, pol, s, now, j).Some?;
      assert Seen(s, |s.domains|, 0, j);
      BestUpToIsExtremal(Place, pol, s, now, |s.domains|, 0, j);
    }
  }

  /** An idle CPU is filled with the first least-served vCPU, and the pass stops there. */
  lemma FillsWithFirst(pol: Policy, s: State, now: nat, limit: nat)
    requires Alone(pol, s, now) && s.pcpus[0].None? && limit >= 1
    ensures var s' := Settle(pol, s, now, limit).state;
            && OnlyPlaced(s, s', now) && Inv(s')
            && s'.pcpus[0].Some?
            && s'.At(s'.pcpus[0].value).dispatchedAt == now
            && First(pol, s, now, s'.pcpus[0].value)
  {
    hide Best, MoreDeserving, Exact;
    NextIsFirst(pol, s, now);
    var d := Next(pol, s, now);
    DecisionOnlyPlaces(pol, s, now);
    var s' := Enact(s, d, now).value;
    StepKeepsInv(s, OpOf(d, now));
    StepTouchesOne(s, OpOf(d, now), d.id);
    NothingBeatsLeast(pol, s', now, d.id);
  }

  /** With the CPU held by a least-served vCPU there is nothing to do. */
  lemma NothingBeatsLeast(pol: Policy, s: State, now: nat, u: Id)
    requires Inv(s) && |s.pcpus| == 1 && s.pcpus[0] == Some(u) && Least(pol, s, now, u)
    ensures Next(pol, s, now).Idle?
  {
    IdleExactlyWhen(pol, s, now);
    forall id: Id, x: Id | Expired(pol, s, now, id)
      ensures !WaiterBeats(pol, s, now, s.At(id).state.pcpu, pol.ShareOf(s, id, now), x)
    {
      assert s.At(id).state.Running? && s.pcpus[0] == Some(id);
    }
  }

  lemma PlacingComposes(pol: Policy, s: State, m: State, s': State, now: nat)
    requires OnlyPlaced(s, m, now) && OnlyPlaced(m, s', now)
    ensures OnlyPlaced(s, s', now)
  {
    forall id: Id
      ensures (s'.Has(id) <==> s.Has(id)) && (Schedulable(s', id) <==> Schedulable(s, id))
      ensures RunTimeOf(s', id, now) == RunTimeOf(s, id, now)
      ensures s.Has(id) ==> s'.At(id).affinity == s.At(id).affinity
    {
      assert m.Has(id) <==> s.Has(id);
    }
  }

  lemma PlacingKeepsPoolAndFirst(pol: Policy, s: State, m: State, now: nat)
    requires Alone(pol, s, now) && OnlyPlaced(s, m, now) && Inv(m) && Exact(pol, m, now)
    ensures Alone(pol, m, now)
    ensures forall u: Id :: First(pol, m, now, u) ==> First(pol, s, now, u)
  {
    var any: Id :| Schedulable(s, any);
    assert Schedulable(m, any);
    forall id: Id | Schedulable(m, id)
      ensures m.AffinityPermits(id, 0)
    {
      assert Schedulable(s, id) && s.AffinityPermits(id, 0);
    }
    forall u: Id, j: Id | First(pol, m, now, u) && Schedulable(s, j)
      ensures !MoreDeserving(pol.ShareOf(s, j, now), pol.ShareOf(s, u, now))
      ensures Seen(s, u.dom, u.vcpu, j) ==> MoreDeserving(pol.ShareOf(s, u, now), pol.ShareOf(s, j, now))
    {
      assert Schedulable(m, j) && RunTimeOf(m, u, now) == RunTimeOf(s, u, now);
    }
  }

  lemma EvictionLeadsToFirst(pol: Policy, s: State, now: nat, limit: nat)
    requires Alone(pol, s, now) && limit >= 2 && Next(pol, s, now).Preempt?
    ensures var s' := Settle(pol, s, now, limit).state;
            && OnlyPlaced(s, s', now) && Inv(s')
            && s'.pcpus[0].Some?
            && s'.At(s'.pcpus[0].value).dispatchedAt == now && First(pol, s, now, s'.pcpus[0].value)
  {
    hide OnlyPlaced, First, Best, Inv, Exact;
    var d := Next(pol, s, now);
    DecisionOnlyPlaces(pol, s, now);
    var m := Enact(s, d, now).value;
    StepKeepsInv(s, OpOf(d, now));
    PlacingKeepsPoolAndFirst(pol, s, m, now);
    EvictionIdles(pol, s, now);
    FillsWithFirst(pol, m, now, limit - 1);
    PlacingComposes(pol, s, m, Settle(pol, m, now, limit - 1).state, now);
  }

  lemma EvictionIdles(pol: Policy, s: State, now: nat)
    requires Inv(s) && |s.pcpus| == 1 && Next(pol, s, now).Preempt?
    ensures var r := Enact(s, Next(pol, s, now), now);
            r.Success? && |r.value.pcpus| == 1 && r.value.pcpus[0].None?
  {
    NextIsCandidate(pol, s, now);
    var d := Next(pol, s, now);
    assert s.At(d.id).state.Running?;
  }

  lemma StayingIsLeast(pol: Policy, s: State, now: nat, r: Id)
    requires Inv(s) && Exact(pol, s, now) && |s.pcpus| == 1 && s.pcpus[0] == Some(r)
    requires forall id: Id | Schedulable(s, id) :: s.AffinityPermits(id, 0)
    requires Next(pol, s, now).Idle? && Expired(pol, s, now, r)
    ensures Least(pol, s, now, r)
  {
    IdleExactlyWhen(pol, s, now);
    forall j: Id | Schedulable(s, j)
      ensures !MoreDeserving(pol.ShareOf(s, j, now), pol.ShareOf(s, r, now))
    {
      if s.At(j).state.Running? {
        assert j == r;
      } else {
        assert s.IsIn(j, Runnable);
        assert !WaiterBeats(pol, s, now, 0, pol.ShareOf(s, r, now), j);
      }
    }
  }

  /** A pass leaves the CPU with a least-served vCPU dispatched just now, or with its occupant
      as it was; and an occupant past its quantum stays only if it is itself least served. */
  lemma PassOnOneCpu(pol: Policy, s: State, now: nat, limit: nat)
    requires Alone(pol, s, now) && limit >= 2
    ensures var s' := Settle(pol, s, now, limit).state;
            && OnlyPlaced(s, s', now) && Inv(s')
            && s'.pcpus[0].Some?
            && (var u := s'.pcpus[0].value;
                || (s'.At(u).dispatchedAt == now && First(pol, s, now, u))
                || (s' == s && (Expired(pol, s, now, u) ==> Least(pol, s, now, u))))
  {
    NextIsCandidate(pol, s, now);
    if s.pcpus[0].None? {
      FillsWithFirst(pol, s, now, limit);
    } else if Next(pol, s, now).Preempt? {
      EvictionLeadsToFirst(pol, s, now, limit);
    } else if Expired(pol, s, now, s.pcpus[0].value) {
      StayingIsLeast(pol, s, now, s.pcpus[0].value);
    }
  }

  // ----- the inductive step: a pass, then a tick -----

  lemma {:induction false} VcpuTotalPositive(domains: seq<seq<VirtualCpu>>, id: Id)
    requires id.dom < |domains| && id.vcpu < |domains[id.dom]|
    ensures VcpuTotal(domains) >= 1
  {
    var n := |domains| - 1;
    if id.dom < n {
      VcpuTotalPositive(domains[..n], id);
    }
  }

  lemma PoolIsExact(w: World, now: nat, k: nat)
    requires Ready(w, now, k) && k <= U64_MAX
    ensures Exact(w.pol, w.sys, now) && Alone(w.pol, w.sys, now)
  {
    forall id: Id | w.sys.Has(id)
      ensures RunTimeOf(w.sys, id, now) <= U64_MAX && w.pol.ServiceOf(w.sys, id, now) <= EXACT_SERVICE
    {
      assert w.sys.At(id) == w.sys.At(id);
      assert w.pol.OffsetOf(id) == 0;
    }
  }

  /** In this setting nobody is ever boosted. */
  lemma AccountChangesNoRank(w: World, now: nat, k: nat)
    requires Ready(w, now, k) && k <= U64_MAX
    ensures var pol := Account(w.pol, w.sys, now);
            && pol.Shaped() && pol.WeightsFit() && pol.quantum == w.pol.quantum
            && forall id: Id {:trigger pol.OffsetOf(id)} {:trigger pol.WeightOf(id)} {:trigger pol.Was(id)} ::
                 && pol.OffsetOf(id) == 0 && pol.WeightOf(id) == w.pol.WeightOf(id)
                 && (Schedulable(w.sys, id) && Tracked(pol.offset, id) ==> pol.Was(id))
  {
    var pol := Account(w.pol, w.sys, now);
    BestUpToIsCandidate(Anchor, w.pol, w.sys, now, |w.sys.domains|, 0);
    forall id: Id
      ensures pol.OffsetOf(id) == 0 && pol.WeightOf(id) == w.pol.WeightOf(id)
      ensures Schedulable(w.sys, id) && Tracked(pol.offset, id) ==> pol.Was(id)
    {
      AccountAt(w.pol, w.sys, now, id);
      assert w.pol.OffsetOf(id) == 0;
      if Woke(w.pol, w.sys, id) && Tracked(w.pol.offset, id) && Floor(w.pol, w.sys, now).Some? {
        var anchor := Best(Anchor, w.pol, w.sys, now).value.id;
        assert w.sys.At(anchor).state.Runnable? && w.sys.At(anchor).runtime == 0 && w.pol.OffsetOf(anchor) == 0;
        assert Floor(w.pol, w.sys, now).value.service == 0;
      }
    }
  }

  /** In the exact range, "not more deserving" is the comparison of service per weight. */
  lemma LeastIsWithin(pol: Policy, s: State, now: nat, u: Id, j: Id)
    requires Exact(pol, s, now) && s.Has(u) && s.Has(j)
    requires pol.OffsetOf(u) == 0 && pol.OffsetOf(j) == 0
    requires !MoreDeserving(pol.ShareOf(s, j, now), pol.ShareOf(s, u, now))
    ensures Within(RunTimeOf(s, u, now), pol.WeightOf(u), RunTimeOf(s, j, now), pol.WeightOf(j), 0)
  {
    assert s.At(u) == s.At(u) && s.At(j) == s.At(j);
    ProductIsExact(pol.ShareOf(s, j, now), pol.ShareOf(s, u, now));
    ProductIsExact(pol.ShareOf(s, u, now), pol.ShareOf(s, j, now));
  }

  lemma {:induction false} VcpuTotalSame(ds: seq<seq<VirtualCpu>>, ds': seq<seq<VirtualCpu>>)
    requires |ds'| == |ds| && forall d | 0 <= d < |ds| :: |ds'[d]| == |ds[d]|
    ensures VcpuTotal(ds') == VcpuTotal(ds)
  {
    if ds != [] {
      VcpuTotalSame(ds[..|ds| - 1], ds'[..|ds| - 1]);
    }
  }

  /** Accounting leaves every number a share is made of as it was, so the ranking stays exact. */
  lemma AccountedIsExact(w: World, now: nat, k: nat)
    requires Ready(w, now, k) && k <= U64_MAX
    ensures Exact(Account(w.pol, w.sys, now), w.sys, now)
  {
    AccountChangesNoRank(w, now, k);
    PoolIsExact(w, now, k);
    hide Inv, Account, Pool, Ready, SpreadIs, Settled;
    var pol, s := Account(w.pol, w.sys, now), w.sys;
    forall id: Id | s.Has(id)
      ensures RunTimeOf(s, id, now) <= U64_MAX && pol.ServiceOf(s, id, now) <= EXACT_SERVICE
    {
      assert s.At(id) == s.At(id) && pol.OffsetOf(id) == 0;
    }
  }

  lemma AccountedIsAlone(w: World, now: nat, k: nat)
    requires Ready(w, now, k) && k <= U64_MAX
    ensures Alone(Account(w.pol, w.sys, now), w.sys, now)
    ensures Limit(w.sys) >= 2
  {
    AccountedIsExact(w, now, k);
    AccountChangesNoRank(w, now, k);
    hide Account, Exact, SpreadIs, RunTimeOf, MoreDeserving;
    var any: Id :| Schedulable(w.sys, any);
    VcpuTotalPositive(w.sys.domains, any);
  }

  lemma LeastLeadsNobody(pol: Policy, s: State, s': State, now: nat, u: Id)
    requires Exact(pol, s, now) && Inv(s') && OnlyPlaced(s, s', now) && |s'.pcpus| == 1 && s'.pcpus[0] == Some(u)
    requires forall id: Id {:trigger pol.OffsetOf(id)} :: pol.OffsetOf(id) == 0
    requires Least(pol, s, now, u)
    ensures RunnerLeads(World(pol, s'), now, 0)
  {
    forall j: Id | Schedulable(s', j)
      ensures Within(RunTimeOf(s', u, now), pol.WeightOf(u), RunTimeOf(s', j, now), pol.WeightOf(j), 0)
    {
      assert pol.OffsetOf(u) == 0 && pol.OffsetOf(j) == 0 && Schedulable(s, j) && s'.Has(u);
      LeastIsWithin(pol, s, now, u, j);
    }
  }

  lemma PassPlaces(w: World, now: nat, k: nat)
    requires Ready(w, now, k) && k <= U64_MAX
    ensures var w' := Advance(w, now);
            && OnlyPlaced(w.sys, w'.sys, now) && Inv(w'.sys)
            && w'.sys.pcpus[0].Some?
            && (var u := w'.sys.pcpus[0].value;
                || (w'.sys.At(u).dispatchedAt == now && RunnerLeads(w', now, 0))
                || (w'.sys == w.sys && (Held(w, now) >= w.pol.quantum ==> RunnerLeads(w', now, 0))))
  {
    AccountedIsAlone(w, now, k);
    AccountChangesNoRank(w, now, k);
    var pol, w' := Account(w.pol, w.sys, now), Advance(w, now);
    PassOnOneCpu(pol, w.sys, now, Limit(w.sys));
    var u := w'.sys.pcpus[0].value;
    if Least(pol, w.sys, now, u) {
      LeastLeadsNobody(pol, w.sys, w'.sys, now, u);
    }
  }

  lemma PassKeepsPool(w: World, now: nat, k: nat)
    requires Ready(w, now, k) && k <= U64_MAX
    ensures var w' := Advance(w, now);
            && Pool(w') && SpreadIs(w', now, Slack(w.pol.quantum)) && w'.pol.quantum == w.pol.quantum
            && (forall id: Id | Schedulable(w'.sys, id) :: RunTimeOf(w'.sys, id, now) <= k)
            && (forall id: Id | Schedulable(w'.sys, id) && Tracked(w'.pol.offset, id) :: w'.pol.Was(id))
            && (forall id: Id {:trigger w'.pol.WeightOf(id)} :: w'.pol.WeightOf(id) == w.pol.WeightOf(id))
  {
    var w' := Advance(w, now);
    AccountChangesNoRank(w, now, k);
    PassPlaces(w, now, k);
    VcpuTotalSame(w.sys.domains, w'.sys.domains);
    var any: Id :| Schedulable(w.sys, any);
    assert Schedulable(w'.sys, any);
    forall id: Id | Schedulable(w'.sys, id)
      ensures w'.sys.AffinityPermits(id, 0) && RunTimeOf(w'.sys, id, now) <= k
    {
      assert Schedulable(w.sys, id) && w'.sys.Has(id);
    }
    forall id: Id | w'.sys.Has(id) && !Schedulable(w'.sys, id)
      ensures w'.sys.At(id).runtime <= U64_MAX
    {
      assert w.sys.At(id) == w.sys.At(id) && RunTimeOf(w'.sys, id, now) == RunTimeOf(w.sys, id, now);
    }
  }

  /** A pass keeps everyone within the slack, and after it a runner past its quantum leads
      nobody. */
  lemma PassKeepsFairness(w: World, now: nat, k: nat)
    requires Ready(w, now, k) && k <= U64_MAX
    ensures Done(Advance(w, now), now, k)
  {
    PassPlaces(w, now, k);
    PassKeepsPool(w, now, k);
    var w' := Advance(w, now);
    assert w'.sys.Has(w'.sys.pcpus[0].value);
    if w'.sys == w.sys {
      assert RunnerLeads(w', now, if Held(w, now) <= w.pol.quantum then Held(w, now) else 1);
    }
    if RunnerLeads(w', now, 0) {
      LeadWeakens(w', now, 0, if Held(w', now) <= w'.pol.quantum then Held(w', now) else 1);
    }
  }

  lemma LeadWeakens(w: World, now: nat, slack: nat, more: nat)
    requires |w.sys.pcpus| == 1 && w.sys.pcpus[0].Some? && RunnerLeads(w, now, slack) && slack <= more
    ensures RunnerLeads(w, now, more)
  {
  }

  /** A tick of the clock adds one tick of service, to the runner alone. */
  lemma TickRuns(w: World, now: nat, id: Id)
    requires Inv(w.sys) && |w.sys.pcpus| == 1 && w.sys.pcpus[0].Some?
    requires w.sys.At(w.sys.pcpus[0].value).dispatchedAt <= now
    ensures RunTimeOf(w.sys, id, now + 1)
            == RunTimeOf(w.sys, id, now) + if id == w.sys.pcpus[0].value then 1 else 0
  {
  }

  /** A tick keeps everyone within the slack: the runner either started level with the rest and
      has run at most a quantum since, or led nobody a tick ago. */
  lemma TickKeepsFairness(w: World, now: nat, k: nat)
    requires Done(w, now, k)
    ensures Ready(w, now + 1, k + 1)
  {
    var r := w.sys.pcpus[0].value;
    var slack := Slack(w.pol.quantum);
    var lead := if Held(w, now) < w.pol.quantum then Held(w, now) else 0;
    forall j: Id
      ensures RunTimeOf(w.sys, j, now + 1) == RunTimeOf(w.sys, j, now) + if j == r then 1 else 0
    {
      TickRuns(w, now, j);
    }
    forall i: Id, j: Id | Schedulable(w.sys, i) && Schedulable(w.sys, j)
      ensures Within(RunTimeOf(w.sys, i, now + 1), w.pol.WeightOf(i), RunTimeOf(w.sys, j, now + 1), w.pol.WeightOf(j),
                     slack)
      ensures i == r
              ==> Within(RunTimeOf(w.sys, i, now + 1), w.pol.WeightOf(i), RunTimeOf(w.sys, j, now + 1),
                         w.pol.WeightOf(j), lead + 1)
    {
      var x, y, xw, yw := RunTimeOf(w.sys, i, now), RunTimeOf(w.sys, j, now), w.pol.WeightOf(i), w.pol.WeightOf(j);
      if i == r && j == r {
        SelfWithin(x + 1, xw, lead + 1);
        SelfWithin(x + 1, xw, slack);
      } else if i == r {
        WithinTicks(x, xw, y, yw, lead);
        WithinWeakens(x + 1, xw, y, yw, lead + 1, slack);
      } else {
        WithinTicks(x, xw, y, yw, slack);
      }
    }
  }

  lemma SelfWithin(x: nat, w: nat, slack: nat)
    ensures Within(x, w, x, w, slack)
  {
  }

  // ----- every tick of every run -----

  /** What a pass after a tick, or the first pass, keeps. */
  ghost predicate Follows(w: World, w': World, now: nat) {
    && w'.pol.quantum == w.pol.quantum
    && (forall id: Id {:trigger w'.pol.WeightOf(id)} :: w'.pol.WeightOf(id) == w.pol.WeightOf(id))
    && (forall id: Id {:trigger Schedulable(w'.sys, id)} {:trigger RunTimeOf(w'.sys, id, now)} ::
          && (Schedulable(w'.sys, id) <==> Schedulable(w.sys, id))
          && RunTimeOf(w'.sys, id, now) == RunTimeOf(w.sys, id, now))
  }

  lemma PassFollows(w: World, now: nat, k: nat)
    requires Ready(w, now, k) && k <= U64_MAX
    ensures Done(Advance(w, now), now, k) && Follows(w, Advance(w, now), now)
  {
    PassKeepsFairness(w, now, k);
    PassKeepsPool(w, now, k);
    PassPlaces(w, now, k);
  }

  lemma TickThenPass(w: World, now: nat, k: nat)
    requires Done(w, now, k) && k < U64_MAX
    ensures Done(Advance(w, now + 1), now + 1, k + 1)
    ensures Follows(w, Advance(w, now + 1), now + 1)
  {
    TickKeepsFairness(w, now, k);
    PassFollows(w, now + 1, k + 1);
  }

  /** Same quantum, weights and pool. */
  ghost predicate SamePool(w: World, w': World) {
    && w'.pol.quantum == w.pol.quantum
    && (forall id: Id {:trigger w'.pol.WeightOf(id)} :: w'.pol.WeightOf(id) == w.pol.WeightOf(id))
    && (forall id: Id {:trigger Schedulable(w'.sys, id)} :: Schedulable(w'.sys, id) <==> Schedulable(w.sys, id))
  }

  lemma FollowsSamePool(w0: World, w: World, w': World, now: nat)
    requires SamePool(w0, w) && Follows(w, w', now)
    ensures SamePool(w0, w')
  {
  }

  /** The fairness invariant holds after every pass of every run. */
  lemma {:induction false} FairAtEveryTick(w: World, start: nat, k: nat)
    requires Pool(w) && Fresh(w) && k <= U64_MAX
    ensures Done(After(w, start, k), start + k, k)
    ensures SamePool(w, After(w, start, k))
    decreases k
  {
    hide Advance, Done, SamePool, Follows;
    if k == 0 {
      FreshIsReady(w, start);
      PassFollows(w, start, 0);
      FollowsSamePool(w, w, After(w, start, 0), start);
    } else {
      var before := After(w, start, k - 1);
      FairAtEveryTick(w, start, k - 1);
      TickThenPass(before, start + k - 1, k - 1);
      FollowsSamePool(w, before, After(w, start, k), start + k);
    }
  }

  lemma FreshIsReady(w: World, now: nat)
    requires Pool(w) && Fresh(w)
    ensures Ready(w, now, 0)
  {
  }

  /** Proportional fairness with a bound: at every tick, service per weight of any two vCPUs
      of the pool differs by at most one slack of the one ahead. */
  lemma ProportionalFairness(w: World, start: nat, k: nat, i: Id, j: Id)
    requires Pool(w) && Fresh(w) && k <= U64_MAX
    requires Schedulable(w.sys, i) && Schedulable(w.sys, j)
    ensures Service(w, start, k, i) * w.pol.WeightOf(j)
            <= Service(w, start, k, j) * w.pol.WeightOf(i) + Max(w.pol.quantum, 1) * w.pol.WeightOf(j)
  {
    FairAtEveryTick(w, start, k);
    var after := After(w, start, k);
    assert Schedulable(after.sys, i) && Schedulable(after.sys, j);
    assert Within(RunTimeOf(after.sys, i, start + k), after.pol.WeightOf(i),
                  RunTimeOf(after.sys, j, start + k), after.pol.WeightOf(j), Slack(w.pol.quantum));
  }

  // ----- bounded wait -----

  /** `ids` lists the pool, each member once. */
  ghost predicate Lists(ids: seq<Id>, w: World) {
    && (forall id: Id :: id in ids <==> Schedulable(w.sys, id))
    && (forall a, b | 0 <= a < b < |ids| :: ids[a] != ids[b])
  }

  ghost function TotalService(w: World, start: nat, k: nat, ids: seq<Id>): nat {
    if ids == [] then 0 else TotalService(w, start, k, ids[1..]) + Service(w, start, k, ids[0])
  }

  /** The wait bound, times the waiter's weight: every other vCPU contributes one slack at the
      waiter's weight and one at its own. */
  ghost function WaitBudget(w: World, ids: seq<Id>, i: Id): nat {
    if ids == [] then 0
    else WaitBudget(w, ids[1..], i)
         + if ids[0] == i then 0 else Max(w.pol.quantum, 1) * (w.pol.WeightOf(i) + w.pol.WeightOf(ids[0]))
  }

  /** From one tick to the next exactly the vCPU on the CPU gains a tick. */
  lemma ServiceGrows(w: World, start: nat, k: nat, id: Id)
    requires Pool(w) && Fresh(w) && k + 1 <= U64_MAX
    ensures Service(w, start, k + 1, id) == Service(w, start, k, id) + if OnCpu(w, start, k, id) then 1 else 0
  {
    hide Advance, Done;
    FairAtEveryTick(w, start, k);
    TickThenPass(After(w, start, k), start + k, k);
    TickServes(After(w, start, k), start + k, k, id);
  }

  lemma TickServes(w: World, now: nat, k: nat, id: Id)
    requires Done(w, now, k)
    ensures RunTimeOf(w.sys, id, now + 1) == RunTimeOf(w.sys, id, now) + if w.sys.IsRunning(id) then 1 else 0
  {
    TickRuns(w, now, id);
    RunnerIsOccupant(w.sys, id);
  }

  lemma RunnerIsOccupant(s: State, id: Id)
    requires Inv(s) && |s.pcpus| == 1
    ensures s.IsRunning(id) <==> s.pcpus[0] == Some(id)
  {
  }

  lemma {:induction false} TotalGrows(w: World, start: nat, k: nat, ids: seq<Id>, runner: Id)
    requires Pool(w) && Fresh(w) && k + 1 <= U64_MAX
    requires forall a, b | 0 <= a < b < |ids| :: ids[a] != ids[b]
    requires forall id: Id :: OnCpu(w, start, k, id) <==> id == runner
    ensures TotalService(w, start, k + 1, ids) == TotalService(w, start, k, ids) + if runner in ids then 1 else 0
  {
    if ids != [] {
      ServiceGrows(w, start, k, ids[0]);
      TotalGrows(w, start, k, ids[1..], runner);
    }
  }

  lemma {:induction false} NoServiceYet(w: World, start: nat, ids: seq<Id>)
    requires Pool(w) && Fresh(w) && forall id | id in ids :: Schedulable(w.sys, id)
    ensures TotalService(w, start, 0, ids) == 0
  {
    if ids != [] {
      NoServiceYet(w, start, ids[1..]);
      FairAtEveryTick(w, start, 0);
      assert Schedulable(After(w, start, 0).sys, ids[0]);
    }
  }

  /** The CPU is never idle: by tick `k` the pool has received exactly `k` ticks. */
  lemma {:induction false} NeverIdle(w: World, start: nat, k: nat, ids: seq<Id>)
    requires Pool(w) && Fresh(w) && k <= U64_MAX && Lists(ids, w)
    ensures TotalService(w, start, k, ids) == k
    decreases k
  {
    hide Pool, Fresh, OnCpu, Schedulable, TotalService;
    if k == 0 {
      NoServiceYet(w, start, ids);
    } else {
      NeverIdle(w, start, k - 1, ids);
      var runner := SomeoneRuns(w, start, k - 1);
      TotalGrows(w, start, k - 1, ids, runner);
    }
  }

  lemma SomeoneRuns(w: World, start: nat, k: nat) returns (runner: Id)
    requires Pool(w) && Fresh(w) && k <= U64_MAX
    ensures Schedulable(w.sys, runner)
    ensures forall id: Id :: OnCpu(w, start, k, id) <==> id == runner
  {
    FairAtEveryTick(w, start, k);
    var s := After(w, start, k).sys;
    runner := s.pcpus[0].value;
    forall id: Id
      ensures s.IsRunning(id) <==> id == runner
    {
      RunnerIsOccupant(s, id);
    }
    assert Schedulable(s, runner);
  }

  lemma {:induction false} WaiterStandsStill(w: World, start: nat, a: nat, b: nat, i: Id)
    requires Pool(w) && Fresh(w) && a <= b <= U64_MAX && Schedulable(w.sys, i)
    requires forall k | a <= k < b :: !OnCpu(w, start, k, i)
    ensures Service(w, start, b, i) == Service(w, start, a, i)
    decreases b
  {
    hide Service, OnCpu;
    if a < b {
      WaiterStandsStill(w, start, a, b - 1, i);
      ServiceGrows(w, start, b - 1, i);
    }
  }

  /** While i waits, what j receives is bounded by fairness at both ends of the wait. */
  lemma GainWhileWaiting(w: World, start: nat, a: nat, b: nat, i: Id, j: Id)
    requires Pool(w) && Fresh(w) && a <= b <= U64_MAX && Schedulable(w.sys, i) && Schedulable(w.sys, j)
    requires Service(w, start, b, i) == Service(w, start, a, i)
    ensures (Service(w, start, b, j) - Service(w, start, a, j)) * w.pol.WeightOf(i)
            <= Max(w.pol.quantum, 1) * (w.pol.WeightOf(i) + w.pol.WeightOf(j))
  {
    hide *;
    ProportionalFairness(w, start, b, j, i);
    ProportionalFairness(w, start, a, i, j);
    GainArithmetic(Service(w, start, a, j), Service(w, start, b, j), Service(w, start, a, i),
                   w.pol.WeightOf(i), w.pol.WeightOf(j), Max(w.pol.quantum, 1));
  }

  lemma GainArithmetic(before: nat, after: nat, still: nat, wi: nat, wj: nat, m: nat)
    requires after * wi <= still * wj + m * wi
    requires still * wj <= before * wi + m * wj
    ensures (after - before) * wi <= m * (wi + wj)
  {
  }

  lemma {:induction false} TotalGainWhileWaiting(w: World, start: nat, a: nat, b: nat, i: Id, ids: seq<Id>)
    requires Pool(w) && Fresh(w) && a <= b <= U64_MAX && Schedulable(w.sys, i)
    requires forall id | id in ids :: Schedulable(w.sys, id)
    requires Service(w, start, b, i) == Service(w, start, a, i)
    ensures (TotalService(w, start, b, ids) - TotalService(w, start, a, ids)) * w.pol.WeightOf(i)
            <= WaitBudget(w, ids, i)
  {
    hide Service, Pool, Fresh;
    if ids != [] {
      TotalGainWhileWaiting(w, start, a, b, i, ids[1..]);
      var rest := TotalService(w, start, b, ids[1..]) - TotalService(w, start, a, ids[1..]);
      var first := Service(w, start, b, ids[0]) - Service(w, start, a, ids[0]);
      Distribute(rest, first, w.pol.WeightOf(i));
      if ids[0] != i {
        GainWhileWaiting(w, start, a, b, i, ids[0]);
      }
    }
  }

  lemma Distribute(x: int, y: int, z: int)
    ensures (x + y) * z == x * z + y * z
  {
  }

  /** Bounded wait: however long the run, a vCPU of the pool that is off the CPU from tick `a`
      up to tick `b` has waited no longer than the budget the weights allow. */
  lemma BoundedWait(w: World, start: nat, a: nat, b: nat, i: Id, ids: seq<Id>)
    requires Pool(w) && Fresh(w) && Lists(ids, w)
    requires Schedulable(w.sys, i) && a <= b <= U64_MAX
    requires forall k | a <= k < b :: !OnCpu(w, start, k, i)
    ensures (b - a) * w.pol.WeightOf(i) <= WaitBudget(w, ids, i)
  {
    hide Pool, Fresh, Schedulable, TotalService, WaitBudget, Service, OnCpu;
    WaiterStandsStill(w, start, a, b, i);
    NeverIdle(w, start, a, ids);
    NeverIdle(w, start, b, ids);
    TotalGainWhileWaiting(w, start, a, b, i, ids);
  }
}
