/** The scheduling policy as pure functions: it ranks vCPUs by service per weight, recommends
    one decision at a time, and drives the mechanism to a fixpoint.

    Ranking is by exact cross-multiplication in 128-bit words that clamp instead of wrapping.
    Facts that need the order to be transitive are stated for states in which no product
    clamps (`Exact`); facts about what the mechanism accepts hold in every state. */
module PolicyModel {
  import opened Basics
  import opened SchedModel

  // ----- the ranking -----

  datatype Share = Share(service: nat, weight: nat)

  function SatMul(a: nat, b: nat): nat {
    Min(U128_MAX, a * b)
  }

  /** `a` has strictly less service per unit of weight than `b`. */
  predicate MoreDeserving(a: Share, b: Share) {
    SatMul(a.service, b.weight) < SatMul(b.service, a.weight)
  }

  const EXACT_SERVICE: nat := 0x1_0000_0000_0000_0000_0000_0000

  /** No product of this share with a 32-bit weight clamps. */
  predicate ExactShare(a: Share) {
    a.service <= EXACT_SERVICE && 1 <= a.weight <= U32_MAX
  }

  lemma ProductIsExact(a: Share, b: Share)
    requires ExactShare(a) && ExactShare(b)
    ensures SatMul(a.service, b.weight) == a.service * b.weight
  {
    assert a.service * b.weight <= EXACT_SERVICE * U32_MAX by {
      assert a.service * b.weight <= EXACT_SERVICE * b.weight;
    }
  }

  lemma RatioTransitive(x: nat, xw: nat, y: nat, yw: nat, z: nat, zw: nat)
    requires xw > 0 && yw > 0 && zw > 0
    requires x * yw <= y * xw && y * zw <= z * yw
    ensures x * zw <= z * xw
  {
  }

  /** Deserving is a strict weak order: irreflexive, and "not more deserving" is transitive. */
  lemma StrictWeakOrder(a: Share, b: Share, c: Share)
    requires ExactShare(a) && ExactShare(b) && ExactShare(c)
    ensures !MoreDeserving(a, a)
    ensures !MoreDeserving(a, b) && !MoreDeserving(b, c) ==> !MoreDeserving(a, c)
    ensures MoreDeserving(a, b) ==> !MoreDeserving(b, a)
    ensures MoreDeserving(a, b) && !MoreDeserving(c, b) ==> MoreDeserving(a, c)
    ensures !MoreDeserving(b, a) && MoreDeserving(b, c) ==> MoreDeserving(a, c)
    ensures MoreDeserving(a, b) && MoreDeserving(b, c) ==> MoreDeserving(a, c)
  {
    ProductIsExact(a, b); ProductIsExact(b, a);
    ProductIsExact(b, c); ProductIsExact(c, b);
    ProductIsExact(a, c); ProductIsExact(c, a);
    if !MoreDeserving(a, b) && !MoreDeserving(b, c) {
      RatioTransitive(c.service, c.weight, b.service, b.weight, a.service, a.weight);
    }
    if MoreDeserving(a, b) && !MoreDeserving(c, b) && !MoreDeserving(a, c) {
      RatioTransitive(b.service, b.weight, c.service, c.weight, a.service, a.weight);
    }
    if !MoreDeserving(b, a) && MoreDeserving(b, c) && !MoreDeserving(a, c) {
      RatioTransitive(c.service, c.weight, a.service, a.weight, b.service, b.weight);
    }
    if MoreDeserving(a, b) && MoreDeserving(b, c) && !MoreDeserving(a, c) {
      RatioTransitive(c.service, c.weight, a.service, a.weight, b.service, b.weight);
    }
  }

  // ----- the policy's own state -----

  function Lookup<T>(rows: seq<seq<T>>, id: Id, default: T): T {
    if id.dom < |rows| && id.vcpu < |rows[id.dom]| then rows[id.dom][id.vcpu] else default
  }

  datatype Policy = Policy(weights: seq<seq<nat>>, quantum: nat, offset: seq<seq<nat>>,
                           wasSchedulable: seq<seq<bool>>, wakeBoost: bool)
  {
    function WeightOf(id: Id): (w: nat)
      ensures w >= 1
    {
      Max(Lookup<nat>(weights, id, 1), 1)
    }

    function OffsetOf(id: Id): nat {
      Lookup<nat>(offset, id, 0)
    }

    predicate Was(id: Id) {
      Lookup(wasSchedulable, id, false)
    }

    /** Closed run time, plus the open interval, plus the wake-boost offset. */
    function ShareOf(s: State, id: Id, now: nat): Share {
      Share(ServiceOf(s, id, now), WeightOf(id))
    }

    function ServiceOf(s: State, id: Id, now: nat): nat {
      RunTimeOf(s, id, now) + OffsetOf(id)
    }

    /** Offsets and snapshots are kept for the same vCPUs. */
    ghost predicate Shaped() {
      |offset| == |wasSchedulable|
      && forall d | 0 <= d < |offset| :: |offset[d]| == |wasSchedulable[d]|
    }

    ghost predicate WeightsFit() {
      forall id: Id {:trigger WeightOf(id)} :: WeightOf(id) <= U32_MAX
    }
  }

  function RunTimeOf(s: State, id: Id, now: nat): nat {
    if !s.Has(id) then 0
    else s.At(id).runtime + if s.At(id).state.Running? then SatSub(now, s.At(id).dispatchedAt) else 0
  }

  predicate Schedulable(s: State, id: Id) {
    s.Has(id) && (s.At(id).state.Runnable? || s.At(id).state.Running?)
  }

  /** No run time saturates its 64-bit word and no ranking product clamps. */
  ghost predicate Exact(pol: Policy, s: State, now: nat) {
    && pol.WeightsFit()
    && forall id: Id {:trigger s.At(id)} | s.Has(id) ::
         RunTimeOf(s, id, now) <= U64_MAX && pol.ServiceOf(s, id, now) <= EXACT_SERVICE
  }

  // ----- one scan over all vCPUs, in index order, keeping the best candidate -----

  /** What a scan looks for: a runnable vCPU with an idle CPU to take, a running vCPU to
      evict, or the floor of the established pool. */
  datatype Rule = Place | Evict | Anchor

  datatype Slot = Slot(id: Id, pcpu: nat)

  function FirstIdleFor(s: State, id: Id, from: nat): (r: Option<nat>)
    requires from <= |s.pcpus|
    ensures r.Some? ==> from <= r.value < |s.pcpus| && s.pcpus[r.value].None? && s.AffinityPermits(id, r.value)
    ensures forall p | from <= p < (if r.Some? then r.value else |s.pcpus|) ::
              !(s.pcpus[p].None? && s.AffinityPermits(id, p))
    decreases |s.pcpus| - from
  {
    if from == |s.pcpus| then None
    else if s.pcpus[from].None? && s.AffinityPermits(id, from) then Some(from)
    else FirstIdleFor(s, id, from + 1)
  }

  /** Some vCPU waiting for a CPU may use `pcpu` and is strictly more deserving than `runner`. */
  ghost predicate SomeAffineWaiterBeats(pol: Policy, s: State, now: nat, pcpu: nat, runner: Share) {
    exists w: Id :: WaiterBeats(pol, s, now, pcpu, runner, w)
  }

  predicate WaiterBeats(pol: Policy, s: State, now: nat, pcpu: nat, runner: Share, w: Id) {
    s.IsIn(w, Runnable) && s.AffinityPermits(w, pcpu) && MoreDeserving(pol.ShareOf(s, w, now), runner)
  }

  /** A running vCPU that has used up its quantum. */
  predicate Expired(pol: Policy, s: State, now: nat, id: Id) {
    s.IsRunning(id) && SatSub(now, s.At(id).dispatchedAt) >= pol.quantum
  }

  ghost function Candidate(rule: Rule, pol: Policy, s: State, now: nat, id: Id): Option<nat> {
    match rule
    case Place => if s.IsIn(id, Runnable) then FirstIdleFor(s, id, 0) else None
    case Evict =>
      if Expired(pol, s, now, id) && SomeAffineWaiterBeats(pol, s, now, s.At(id).state.pcpu, pol.ShareOf(s, id, now))
      then Some(s.At(id).state.pcpu) else None
    case Anchor => if Schedulable(s, id) && pol.Was(id) then Some(0) else None
  }

  /** Evict the least deserving; otherwise prefer the most deserving. */
  predicate Prefers(rule: Rule, a: Share, b: Share) {
    if rule.Evict? then MoreDeserving(b, a) else MoreDeserving(a, b)
  }

  ghost function Consider(rule: Rule, pol: Policy, s: State, now: nat, best: Option<Slot>, id: Id): Option<Slot> {
    match Candidate(rule, pol, s, now, id)
    case None => best
    case Some(p) =>
      if best.None? || Prefers(rule, pol.ShareOf(s, id, now), pol.ShareOf(s, best.value.id, now))
      then Some(Slot(id, p)) else best
  }

  predicate Seen(s: State, dom: nat, vcpu: nat, id: Id) {
    s.Has(id) && (id.dom < dom || (id.dom == dom && id.vcpu < vcpu))
  }

  /** The best candidate among the vCPUs before (dom, vcpu); strictness keeps the earliest. */
  ghost function BestUpTo(rule: Rule, pol: Policy, s: State, now: nat, dom: nat, vcpu: nat): Option<Slot>
    requires dom < |s.domains| ==> vcpu <= |s.domains[dom]|
    requires dom <= |s.domains| && (dom == |s.domains| ==> vcpu == 0)
    decreases dom, vcpu
  {
    if vcpu > 0 then Consider(rule, pol, s, now, BestUpTo(rule, pol, s, now, dom, vcpu - 1), Id(dom, vcpu - 1))
    else if dom > 0 then BestUpTo(rule, pol, s, now, dom - 1, |s.domains[dom - 1]|)
    else None
  }

  ghost function Best(rule: Rule, pol: Policy, s: State, now: nat): Option<Slot> {
    BestUpTo(rule, pol, s, now, |s.domains|, 0)
  }

  /** A scan finds a candidate exactly when there is one. */
  lemma {:induction false} BestUpToIsCandidate(rule: Rule, pol: Policy, s: State, now: nat, dom: nat, vcpu: nat)
    requires dom < |s.domains| ==> vcpu <= |s.domains[dom]|
    requires dom <= |s.domains| && (dom == |s.domains| ==> vcpu == 0)
    ensures var best := BestUpTo(rule, pol, s, now, dom, vcpu);
            && (best.Some? ==> Seen(s, dom, vcpu, best.value.id)
                               && Candidate(rule, pol, s, now, best.value.id) == Some(best.value.pcpu))
            && (best.None? ==> forall id: Id | Seen(s, dom, vcpu, id) :: Candidate(rule, pol, s, now, id).None?)
    decreases dom, vcpu
  {
    if vcpu > 0 {
      BestUpToIsCandidate(rule, pol, s, now, dom, vcpu - 1);
      forall id: Id | Seen(s, dom, vcpu, id)
        ensures Seen(s, dom, vcpu - 1, id) || id == Id(dom, vcpu - 1)
      {
      }
    } else if dom > 0 {
      BestUpToIsCandidate(rule, pol, s, now, dom - 1, |s.domains[dom - 1]|);
      forall id: Id | Seen(s, dom, 0, id)
        ensures Seen(s, dom - 1, |s.domains[dom - 1]|, id)
      {
      }
    }
  }

  /** When ranking is exact, a scan's answer is preferred to no other candidate, and strictly
      preferred to every earlier one. */
  lemma {:induction false} BestUpToIsExtremal(rule: Rule, pol: Policy, s: State, now: nat, dom: nat, vcpu: nat, id: Id)
    requires dom < |s.domains| ==> vcpu <= |s.domains[dom]|
    requires dom <= |s.domains| && (dom == |s.domains| ==> vcpu == 0)
    requires Exact(pol, s, now)
    requires Seen(s, dom, vcpu, id) && Candidate(rule, pol, s, now, id).Some?
    ensures var best := BestUpTo(rule, pol, s, now, dom, vcpu);
            && best.Some?
            && !Prefers(rule, pol.ShareOf(s, id, now), pol.ShareOf(s, best.value.id, now))
            && (Seen(s, best.value.id.dom, best.value.id.vcpu, id) ==>
                  Prefers(rule, pol.ShareOf(s, best.value.id, now), pol.ShareOf(s, id, now)))
    decreases dom, vcpu
  {
    if vcpu > 0 {
      var last := Id(dom, vcpu - 1);
      var before, best := BestUpTo(rule, pol, s, now, dom, vcpu - 1), BestUpTo(rule, pol, s, now, dom, vcpu);
      BestUpToIsCandidate(rule, pol, s, now, dom, vcpu - 1);
      assert s.At(id) == s.At(id) && s.At(last) == s.At(last);
      if id != last {
        BestUpToIsExtremal(rule, pol, s, now, dom, vcpu - 1, id);
        assert s.At(before.value.id) == s.At(before.value.id);
        var x, y, z := pol.ShareOf(s, id, now), pol.ShareOf(s, before.value.id, now), pol.ShareOf(s, last, now);
        StrictWeakOrder(x, y, z);
        StrictWeakOrder(z, y, x);
        assert Seen(s, before.value.id.dom, before.value.id.vcpu, id) || best == Some(Slot(last, best.value.pcpu))
               || best == before;
      } else {
        var z := pol.ShareOf(s, last, now);
        StrictWeakOrder(z, z, z);
        if before.Some? {
          assert s.At(before.value.id) == s.At(before.value.id);
          StrictWeakOrder(z, pol.ShareOf(s, before.value.id, now), z);
        }
      }
    } else {
      BestUpToIsExtremal(rule, pol, s, now, dom - 1, |s.domains[dom - 1]|, id);
    }
  }

  // ----- one decision -----

  datatype Decision = Run(id: Id, pcpu: nat) | Preempt(id: Id, pcpu: nat) | Idle

  /** Fill an idle CPU if that is possible; otherwise evict for a better claimant. */
  ghost function Next(pol: Policy, s: State, now: nat): Decision {
    match Best(Place, pol, s, now)
    case Some(slot) => Decision.Run(slot.id, slot.pcpu)
    case None =>
      match Best(Evict, pol, s, now)
      case Some(slot) => Decision.Preempt(slot.id, slot.pcpu)
      case None => Idle
  }

  function OpOf(d: Decision, now: nat): Op
    requires !d.Idle?
  {
    if d.Run? then Op.Run(d.id, d.pcpu, now) else Op.Preempt(d.id, now)
  }

  function Enact(s: State, d: Decision, now: nat): Result<State, Error>
    requires !d.Idle?
  {
    Step(s, OpOf(d, now))
  }

  /** A recommended dispatch names a runnable vCPU and its lowest idle affine CPU; a
      recommended eviction names an expired runner some affine waiter beats. */
  lemma NextIsCandidate(pol: Policy, s: State, now: nat)
    ensures var d := Next(pol, s, now);
            && (d.Run? ==> Candidate(Place, pol, s, now, d.id) == Some(d.pcpu))
            && (d.Preempt? ==> Candidate(Evict, pol, s, now, d.id) == Some(d.pcpu))
            && (!d.Run? ==> forall id: Id | s.Has(id) :: Candidate(Place, pol, s, now, id).None?)
            && (d.Idle? ==> forall id: Id | s.Has(id) :: Candidate(Evict, pol, s, now, id).None?)
  {
    BestUpToIsCandidate(Place, pol, s, now, |s.domains|, 0);
    BestUpToIsCandidate(Evict, pol, s, now, |s.domains|, 0);
    forall id: Id | s.Has(id)
      ensures Seen(s, |s.domains|, 0, id)
    {
    }
  }

  /** The policy never recommends a decision the mechanism refuses. */
  lemma NextIsNeverRefused(pol: Policy, s: State, now: nat)
    requires !Next(pol, s, now).Idle?
    ensures Enact(s, Next(pol, s, now), now).Success?
  {
    NextIsCandidate(pol, s, now);
  }

  /** Idle says exactly that no legal dispatch is left unmade and no useful eviction is due. */
  lemma IdleExactlyWhen(pol: Policy, s: State, now: nat)
    ensures Next(pol, s, now).Idle? <==> Settled(pol, s, now)
  {
    NextIsCandidate(pol, s, now);
    var d := Next(pol, s, now);
    if d.Idle? {
      forall id: Id, p: nat | s.IsIn(id, Runnable) && p < |s.pcpus| && s.pcpus[p].None?
        ensures !s.AffinityPermits(id, p)
      {
        assert Candidate(Place, pol, s, now, id).None?;
      }
      forall id: Id, w: Id | Expired(pol, s, now, id)
        ensures !WaiterBeats(pol, s, now, s.At(id).state.pcpu, pol.ShareOf(s, id, now), w)
      {
        assert Candidate(Evict, pol, s, now, id).None?;
      }
    }
  }

  /** No idle CPU has an affine vCPU waiting, and no runner past its quantum has a strictly
      more deserving affine waiter. */
  ghost predicate Settled(pol: Policy, s: State, now: nat) {
    && (forall id: Id, p: nat {:trigger s.AffinityPermits(id, p)} |
          s.IsIn(id, Runnable) && p < |s.pcpus| && s.pcpus[p].None? :: !s.AffinityPermits(id, p))
    && (forall id: Id, w: Id {:trigger Expired(pol, s, now, id), s.IsIn(w, Runnable)} |
          Expired(pol, s, now, id) ::
            !WaiterBeats(pol, s, now, s.At(id).state.pcpu, pol.ShareOf(s, id, now), w))
  }

  /** At a fixed instant a decision moves no vCPU's rank: it closes an interval or opens an
      empty one. */
  lemma EnactKeepsRunTime(s: State, d: Decision, now: nat, id: Id)
    requires !d.Idle? && Enact(s, d, now).Success?
    requires s.Has(d.id) ==> RunTimeOf(s, d.id, now) <= U64_MAX
    ensures RunTimeOf(Enact(s, d, now).value, id, now) == RunTimeOf(s, id, now)
  {
  }

  lemma EnactKeepsExact(pol: Policy, s: State, d: Decision, now: nat)
    requires Exact(pol, s, now) && !d.Idle? && Enact(s, d, now).Success?
    ensures Exact(pol, Enact(s, d, now).value, now)
    ensures forall id: Id :: pol.ShareOf(Enact(s, d, now).value, id, now) == pol.ShareOf(s, id, now)
  {
    var s' := Enact(s, d, now).value;
    assert s.Has(d.id) && s.At(d.id) == s.At(d.id);
    forall id: Id
      ensures RunTimeOf(s', id, now) == RunTimeOf(s, id, now) && (s'.Has(id) <==> s.Has(id))
    {
      EnactKeepsRunTime(s, d, now, id);
      StepTouchesOne(s, OpOf(d, now), id);
    }
    forall id: Id | s'.Has(id)
      ensures RunTimeOf(s', id, now) <= U64_MAX && pol.ServiceOf(s', id, now) <= EXACT_SERVICE
    {
      assert s.At(id) == s.At(id);
    }
  }

  /** Every eviction is useful: the very next decision runs, on exactly the freed CPU, a vCPU
      strictly more deserving than the one evicted. */
  lemma PreemptionIsUseful(pol: Policy, s: State, now: nat)
    requires Inv(s) && Exact(pol, s, now) && Next(pol, s, now).Preempt?
    ensures Enact(s, Next(pol, s, now), now).Success?
    ensures var d := Next(pol, s, now);
            var next := Next(pol, Enact(s, d, now).value, now);
            && next.Run? && next.pcpu == d.pcpu && next.id != d.id
            && MoreDeserving(pol.ShareOf(s, next.id, now), pol.ShareOf(s, d.id, now))
  {
    NextIsCandidate(pol, s, now);
    var d := Next(pol, s, now);
    var s' := Enact(s, d, now).value;
    var v := s.At(d.id);
    EnactKeepsExact(pol, s, d, now);
    StepKeepsInv(s, OpOf(d, now));
    var w: Id :| WaiterBeats(pol, s, now, d.pcpu, pol.ShareOf(s, d.id, now), w);
    StrictWeakOrder(pol.ShareOf(s, w, now), pol.ShareOf(s, d.id, now), pol.ShareOf(s, w, now));
    assert s'.pcpus[d.pcpu].None?;
    StepTouchesOne(s, OpOf(d, now), w);
    assert Candidate(Place, pol, s', now, w).Some?;
    NextIsCandidate(pol, s', now);
    var u := Next(pol, s', now).id;
    assert Seen(s', |s'.domains|, 0, w);
    BestUpToIsExtremal(Place, pol, s', now, |s'.domains|, 0, w);
    assert s'.At(u) == s'.At(u) && s'.At(w) == s'.At(w) && s'.At(d.id) == s'.At(d.id);
    StrictWeakOrder(pol.ShareOf(s, u, now), pol.ShareOf(s, w, now), pol.ShareOf(s, d.id, now));
    StrictWeakOrder(pol.ShareOf(s, d.id, now), pol.ShareOf(s, d.id, now), pol.ShareOf(s, d.id, now));
    StepTouchesOne(s, OpOf(d, now), u);
    assert Candidate(Place, pol, s, now, u).None?;
  }

  // ----- driving the mechanism to a fixpoint -----

  datatype Drive = Drive(state: State, enacted: nat)

  /** Enact decisions until there is none, until one is refused, or until `limit` is spent. */
  ghost function Settle(pol: Policy, s: State, now: nat, limit: nat): Drive
    decreases limit
  {
    var d := Next(pol, s, now);
    if limit == 0 || d.Idle? then Drive(s, 0)
    else
      match Enact(s, d, now)
      case Failure(_) => Drive(s, 0)
      case Success(s') =>
        var rest := Settle(pol, s', now, limit - 1);
        Drive(rest.state, rest.enacted + 1)
  }

  /** Work outstanding at `now` on one physical CPU: two decisions if its occupant was
      dispatched earlier, one if it is idle, none if it was filled at `now`. */
  function DebtOn(s: State, now: nat, p: nat): nat
    requires p < |s.pcpus|
  {
    match s.pcpus[p]
    case None => 1
    case Some(id) => if s.Has(id) && s.At(id).dispatchedAt < now then 2 else 0
  }

  function Debt(s: State, now: nat, n: nat): (r: nat)
    requires n <= |s.pcpus|
    ensures r <= 2 * n
  {
    if n == 0 then 0 else Debt(s, now, n - 1) + DebtOn(s, now, n - 1)
  }

  lemma {:induction false} DebtChange(s: State, s': State, now: nat, n: nat, q: nat)
    requires n <= |s.pcpus| == |s'.pcpus|
    requires forall p | 0 <= p < n && p != q :: DebtOn(s', now, p) == DebtOn(s, now, p)
    ensures Debt(s', now, n) - Debt(s, now, n) == if q < n then DebtOn(s', now, q) - DebtOn(s, now, q) else 0
  {
    if n > 0 {
      DebtChange(s, s', now, n - 1, q);
    }
  }

  /** With a quantum of at least one tick, each decision pays off one unit of debt. */
  lemma DecisionPaysDebt(pol: Policy, s: State, now: nat)
    requires Inv(s) && pol.quantum >= 1 && !Next(pol, s, now).Idle?
    ensures var r := Enact(s, Next(pol, s, now), now);
            r.Success? && |r.value.pcpus| == |s.pcpus|
            && Debt(r.value, now, |s.pcpus|) == Debt(s, now, |s.pcpus|) - 1
  {
    NextIsNeverRefused(pol, s, now);
    NextIsCandidate(pol, s, now);
    var d := Next(pol, s, now);
    var s' := Enact(s, d, now).value;
    var v := s.At(d.id);
    StepTouchesOne(s, OpOf(d, now), d.id);
    forall p | 0 <= p < |s.pcpus| && p != d.pcpu
      ensures DebtOn(s', now, p) == DebtOn(s, now, p)
    {
      if s.pcpus[p].Some? {
        StepTouchesOne(s, OpOf(d, now), s.pcpus[p].value);
        assert s.At(s.pcpus[p].value).state == Running(p);
      }
    }
    DebtChange(s, s', now, |s.pcpus|, d.pcpu);
  }

  /** With a quantum of at least one tick, driving settles as soon as the limit exceeds the
      debt, and enacts no more decisions than the debt. */
  lemma {:induction false} SettleReachesFixpoint(pol: Policy, s: State, now: nat, limit: nat)
    requires Inv(s) && pol.quantum >= 1 && Debt(s, now, |s.pcpus|) < limit
    ensures var r := Settle(pol, s, now, limit);
            Inv(r.state) && Settled(pol, r.state, now) && r.enacted <= Debt(s, now, |s.pcpus|)
    decreases limit
  {
    hide Next, Step;
    IdleExactlyWhen(pol, s, now);
    if !Next(pol, s, now).Idle? {
      DecisionPaysDebt(pol, s, now);
      var s' := Enact(s, Next(pol, s, now), now).value;
      StepKeepsInv(s, OpOf(Next(pol, s, now), now));
      SettleReachesFixpoint(pol, s', now, limit - 1);
    }
  }

  // ----- any quantum, when the masks do not tell CPUs apart -----

  /** Every vCPU may use all physical CPUs or none of them; on one CPU every mask is like that. */
  ghost predicate Interchangeable(s: State) {
    forall id: Id, p: nat, q: nat {:trigger s.AffinityPermits(id, p), s.AffinityPermits(id, q)} |
      p < |s.pcpus| && q < |s.pcpus| :: s.AffinityPermits(id, p) == s.AffinityPermits(id, q)
  }

  lemma OneCpuIsInterchangeable(s: State)
    requires |s.pcpus| <= 1
    ensures Interchangeable(s)
  {
  }

  /** Work outstanding on one physical CPU, by rank and not by dispatch stamp: two decisions if
      its occupant is due for eviction, one if it is idle. */
  ghost function ClaimOn(pol: Policy, s: State, now: nat, p: nat): nat
    requires p < |s.pcpus|
  {
    match s.pcpus[p]
    case None => 1
    case Some(id) => if Candidate(Evict, pol, s, now, id).Some? then 2 else 0
  }

  ghost function Claims(pol: Policy, s: State, now: nat, n: nat): (r: nat)
    requires n <= |s.pcpus|
    ensures r <= 2 * n
  {
    if n == 0 then 0 else Claims(pol, s, now, n - 1) + ClaimOn(pol, s, now, n - 1)
  }

  lemma {:induction false} ClaimsDrop(pol: Policy, s: State, s': State, now: nat, n: nat, q: nat)
    requires n <= |s.pcpus| == |s'.pcpus|
    requires forall p | 0 <= p < n && p != q :: ClaimOn(pol, s', now, p) <= ClaimOn(pol, s, now, p)
    requires q < n ==> ClaimOn(pol, s', now, q) < ClaimOn(pol, s, now, q)
    ensures Claims(pol, s', now, n) <= Claims(pol, s, now, n)
    ensures q < n ==> Claims(pol, s', now, n) < Claims(pol, s, now, n)
  {
    if n > 0 {
      ClaimsDrop(pol, s, s', now, n - 1, q);
    }
  }

  /** The vCPU put on an idle CPU is due for no eviction: whoever could beat it there would have
      been placed instead. */
  lemma PlacedIsUnbeaten(pol: Policy, s: State, now: nat)
    requires Exact(pol, s, now) && Next(pol, s, now).Run? && Enact(s, Next(pol, s, now), now).Success?
    ensures var d := Next(pol, s, now);
            Candidate(Evict, pol, Enact(s, d, now).value, now, d.id).None?
  {
    NextIsCandidate(pol, s, now);
    var d := Next(pol, s, now);
    var s' := Enact(s, d, now).value;
    EnactKeepsExact(pol, s, d, now);
    StepTouchesOne(s, OpOf(d, now), d.id);
    forall w: Id | WaiterBeats(pol, s', now, d.pcpu, pol.ShareOf(s', d.id, now), w)
      ensures false
    {
      StepTouchesOne(s, OpOf(d, now), w);
      assert s.At(w) == s'.At(w);
      assert Candidate(Place, pol, s, now, w).Some?;
      assert Seen(s, |s.domains|, 0, w);
      BestUpToIsExtremal(Place, pol, s, now, |s.domains|, 0, w);
    }
  }

  /** Whoever a vCPU due for eviction could beat, the waiter it is evicted for beats already. */
  lemma EvictedBeatsNobodyNew(pol: Policy, s: State, now: nat, v: Id, u: Id, p: nat)
    requires Exact(pol, s, now) && Interchangeable(s) && p < |s.pcpus| && s.Has(v) && s.Has(u)
    requires Candidate(Evict, pol, s, now, v).Some? && s.At(v).state.pcpu < |s.pcpus|
    requires MoreDeserving(pol.ShareOf(s, v, now), pol.ShareOf(s, u, now))
    ensures SomeAffineWaiterBeats(pol, s, now, p, pol.ShareOf(s, u, now))
  {
    var q := s.At(v).state.pcpu;
    var w: Id :| WaiterBeats(pol, s, now, q, pol.ShareOf(s, v, now), w);
    assert s.AffinityPermits(w, q) == s.AffinityPermits(w, p);
    assert s.At(w) == s.At(w) && s.At(v) == s.At(v) && s.At(u) == s.At(u);
    StrictWeakOrder(pol.ShareOf(s, w, now), pol.ShareOf(s, v, now), pol.ShareOf(s, u, now));
    assert WaiterBeats(pol, s, now, p, pol.ShareOf(s, u, now), w);
  }

  /** A decision makes no occupant of another CPU due for eviction. */
  lemma OthersStayUnbeaten(pol: Policy, s: State, now: nat, p: nat)
    requires Inv(s) && Exact(pol, s, now) && Interchangeable(s) && !Next(pol, s, now).Idle?
    requires Enact(s, Next(pol, s, now), now).Success? && |Enact(s, Next(pol, s, now), now).value.pcpus| == |s.pcpus|
    requires p < |s.pcpus| && p != Next(pol, s, now).pcpu
    ensures ClaimOn(pol, Enact(s, Next(pol, s, now), now).value, now, p) <= ClaimOn(pol, s, now, p)
  {
    hide Next, Exact, Interchangeable, MoreDeserving, Policy.ShareOf;
    NextIsCandidate(pol, s, now);
    var d := Next(pol, s, now);
    var s' := Enact(s, d, now).value;
    EnactKeepsExact(pol, s, d, now);
    if s'.pcpus[p].Some? && Candidate(Evict, pol, s', now, s'.pcpus[p].value).Some? {
      var u := s'.pcpus[p].value;
      StepTouchesOne(s, OpOf(d, now), u);
      assert s.At(u).state == Running(p) && u != d.id;
      var x: Id :| WaiterBeats(pol, s', now, p, pol.ShareOf(s', u, now), x);
      StepTouchesOne(s, OpOf(d, now), x);
      if x == d.id {
        EvictedBeatsNobodyNew(pol, s, now, x, u, p);
      } else {
        assert WaiterBeats(pol, s, now, p, pol.ShareOf(s, u, now), x);
      }
    }
  }

  /** Whatever the quantum, a decision then settles at least one claim. */
  lemma DecisionPaysClaim(pol: Policy, s: State, now: nat)
    requires Inv(s) && Exact(pol, s, now) && Interchangeable(s) && !Next(pol, s, now).Idle?
    ensures var r := Enact(s, Next(pol, s, now), now);
            && r.Success? && |r.value.pcpus| == |s.pcpus| && Interchangeable(r.value)
            && Claims(pol, r.value, now, |s.pcpus|) < Claims(pol, s, now, |s.pcpus|)
  {
    NextIsNeverRefused(pol, s, now);
    NextIsCandidate(pol, s, now);
    var d := Next(pol, s, now);
    var s' := Enact(s, d, now).value;
    forall id: Id, p: nat
      ensures s'.AffinityPermits(id, p) == s.AffinityPermits(id, p)
    {
      StepTouchesOne(s, OpOf(d, now), id);
    }
    forall p | 0 <= p < |s.pcpus| && p != d.pcpu
      ensures ClaimOn(pol, s', now, p) <= ClaimOn(pol, s, now, p)
    {
      OthersStayUnbeaten(pol, s, now, p);
    }
    if d.Run? {
      PlacedIsUnbeaten(pol, s, now);
    }
    ClaimsDrop(pol, s, s', now, |s.pcpus|, d.pcpu);
  }

  lemma {:induction false} SettleReachesFixpointInterchangeably(pol: Policy, s: State, now: nat, limit: nat)
    requires Inv(s) && Exact(pol, s, now) && Interchangeable(s) && Claims(pol, s, now, |s.pcpus|) < limit
    ensures var r := Settle(pol, s, now, limit);
            Inv(r.state) && Settled(pol, r.state, now) && r.enacted <= Claims(pol, s, now, |s.pcpus|)
    decreases limit
  {
    hide Next, Step, Exact, Interchangeable;
    IdleExactlyWhen(pol, s, now);
    if !Next(pol, s, now).Idle? {
      DecisionPaysClaim(pol, s, now);
      var s' := Enact(s, Next(pol, s, now), now).value;
      StepKeepsInv(s, OpOf(Next(pol, s, now), now));
      EnactKeepsExact(pol, s, Next(pol, s, now), now);
      SettleReachesFixpointInterchangeably(pol, s', now, limit - 1);
    }
  }

  lemma {:induction false} SettleKeepsInv(pol: Policy, s: State, now: nat, limit: nat)
    requires Inv(s)
    ensures Inv(Settle(pol, s, now, limit).state)
    ensures |Settle(pol, s, now, limit).state.pcpus| == |s.pcpus|
    ensures forall id: Id :: Settle(pol, s, now, limit).state.Has(id) <==> s.Has(id)
    ensures forall id: Id :: Schedulable(Settle(pol, s, now, limit).state, id) <==> Schedulable(s, id)
    decreases limit
  {
    var d := Next(pol, s, now);
    if limit > 0 && !d.Idle? && Enact(s, d, now).Success? {
      var s' := Enact(s, d, now).value;
      StepKeepsInv(s, OpOf(d, now));
      forall id: Id
        ensures (s'.Has(id) <==> s.Has(id)) && (Schedulable(s', id) <==> Schedulable(s, id))
      {
        StepTouchesOne(s, OpOf(d, now), id);
      }
      SettleKeepsInv(pol, s', now, limit - 1);
    }
  }

  // ----- folding in wake-ups -----

  /** The least service per weight among the vCPUs already in the pool. */
  ghost function Floor(pol: Policy, s: State, now: nat): Option<Share> {
    match Best(Anchor, pol, s, now)
    case Some(slot) => Some(pol.ShareOf(s, slot.id, now))
    case None => None
  }

  predicate Woke(pol: Policy, s: State, id: Id) {
    Schedulable(s, id) && !pol.Was(id)
  }

  /** The offset that lifts a woken vCPU to the floor; zero when it is already above. */
  function Boost(floor: Share, weight: nat, runtime: nat): nat
    requires floor.weight >= 1
  {
    SatSub(SatMul(floor.service, weight) / floor.weight, runtime)
  }

  ghost function Account(pol: Policy, s: State, now: nat): Policy {
    var floor := Floor(pol, s, now);
    pol.(offset := seq(|pol.offset|, d requires 0 <= d < |pol.offset| =>
           seq(|pol.offset[d]|, v requires 0 <= v < |pol.offset[d]| =>
             if Woke(pol, s, Id(d, v)) && pol.wakeBoost && floor.Some? 
             then Boost(floor.value, pol.WeightOf(Id(d, v)), s.At(Id(d, v)).runtime)
             else pol.offset[d][v])),
         wasSchedulable := seq(|pol.wasSchedulable|, d requires 0 <= d < |pol.wasSchedulable| =>
           seq(|pol.wasSchedulable[d]|, v requires 0 <= v < |pol.wasSchedulable[d]| =>
             if s.Has(Id(d, v)) then Schedulable(s, Id(d, v)) else pol.wasSchedulable[d][v])))
  }

  predicate Tracked<T>(rows: seq<seq<T>>, id: Id) {
    id.dom < |rows| && id.vcpu < |rows[id.dom]|
  }

  lemma AccountAt(pol: Policy, s: State, now: nat, id: Id)
    ensures Account(pol, s, now).OffsetOf(id)
            == if Tracked(pol.offset, id) && Woke(pol, s, id) && pol.wakeBoost && Floor(pol, s, now).Some?
               then Boost(Floor(pol, s, now).value, pol.WeightOf(id), s.At(id).runtime) else pol.OffsetOf(id)
    ensures Account(pol, s, now).Was(id)
            == if Tracked(pol.wasSchedulable, id) && s.Has(id) then Schedulable(s, id) else pol.Was(id)
    ensures Account(pol, s, now).WeightOf(id) == pol.WeightOf(id)
  {
  }

  /** `placed` is the floor's service rescaled to weight `w` and rounded down to a tick, or the
      vCPU's own run time when that is greater; either way less than a tick below the floor. */
  predicate OnFloor(placed: nat, runtime: nat, floor: Share, w: nat)
    requires floor.weight >= 1
  {
    && placed == Max(runtime, floor.service * w / floor.weight)
    && floor.service * w < (placed + 1) * floor.weight
  }

  /** A woken vCPU is placed exactly on the floor, rounded down to a whole tick, unless it was
      above it already; so it sits less than one tick below. A vCPU that did not wake keeps its
      offset. */
  lemma WakePlacement(pol: Policy, s: State, now: nat, id: Id)
    requires Exact(pol, s, now) && s.Has(id) && Tracked(pol.offset, id)
    ensures var pol' := Account(pol, s, now);
            var floor := Floor(pol, s, now);
            if Woke(pol, s, id) && pol.wakeBoost && floor.Some? then
              var placed, w := s.At(id).runtime + pol'.OffsetOf(id), pol.WeightOf(id);
              OnFloor(placed, s.At(id).runtime, floor.value, w)
            else pol'.OffsetOf(id) == pol.OffsetOf(id)
  {
    AccountAt(pol, s, now, id);
    BestUpToIsCandidate(Anchor, pol, s, now, |s.domains|, 0);
    var best := Best(Anchor, pol, s, now);
    if best.Some? {
      assert s.At(best.value.id) == s.At(best.value.id);
      BoostLands(Floor(pol, s, now).value, pol.WeightOf(id), s.At(id).runtime);
    }
  }

  lemma BoostLands(floor: Share, w: nat, runtime: nat)
    requires ExactShare(floor) && 1 <= w <= U32_MAX
    ensures OnFloor(runtime + Boost(floor, w, runtime), runtime, floor, w)
  {
    var product := floor.service * w;
    assert SatMul(floor.service, w) == product by {
      ProductIsExact(floor, Share(0, w));
    }
    var target := product / floor.weight;
    assert Boost(floor, w, runtime) == SatSub(target, runtime);
    RoundDown(product, floor.weight, runtime);
  }

  /** The floor is a share held in the established pool, and nobody in the pool is below it. */
  lemma FloorIsLeast(pol: Policy, s: State, now: nat)
    requires Exact(pol, s, now)
    ensures Floor(pol, s, now).Some? <==> exists id: Id :: Schedulable(s, id) && pol.Was(id)
    ensures Floor(pol, s, now).Some? ==>
              && (exists id: Id ::
                    Schedulable(s, id) && pol.Was(id) && pol.ShareOf(s, id, now) == Floor(pol, s, now).value)
              && (forall id: Id | Schedulable(s, id) && pol.Was(id) ::
                    !MoreDeserving(pol.ShareOf(s, id, now), Floor(pol, s, now).value))
  {
    BestUpToIsCandidate(Anchor, pol, s, now, |s.domains|, 0);
    forall id: Id | Schedulable(s, id) && pol.Was(id)
      ensures Floor(pol, s, now).Some? && !MoreDeserving(pol.ShareOf(s, id, now), Floor(pol, s, now).value)
    {
      assert Seen(s, |s.domains|, 0, id);
      BestUpToIsExtremal(Anchor, pol, s, now, |s.domains|, 0, id);
    }
  }

  lemma RoundDown(product: nat, weight: nat, runtime: nat)
    requires weight > 0
    ensures product < (Max(runtime, product / weight) + 1) * weight
  {
  }

  // ----- one scheduling pass -----

  datatype World = World(pol: Policy, sys: State)

  function VcpuTotal(domains: seq<seq<VirtualCpu>>): nat {
    if domains == [] then 0 else VcpuTotal(domains[..|domains| - 1]) + |domains[|domains| - 1]|
  }

  /** The loop's iteration cap, truncated to 32 bits. */
  function Limit(s: State): nat {
    (VcpuTotal(s.domains) + 2 * |s.pcpus| + 1) % (U32_MAX + 1)
  }

  /** Account for wake-ups, then drive the mechanism. */
  ghost function Driven(w: World, now: nat): Drive {
    Settle(Account(w.pol, w.sys, now), w.sys, now, Limit(w.sys))
  }

  ghost function Advance(w: World, now: nat): World {
    World(Account(w.pol, w.sys, now), Driven(w, now).state)
  }

  lemma AccountTwice(w: World, now: nat)
    requires Inv(w.sys) && w.pol.Shaped()
    ensures Account(Advance(w, now).pol, Advance(w, now).sys, now) == Advance(w, now).pol
  {
    var pol, w' := w.pol, Advance(w, now);
    SettleKeepsInv(w'.pol, w.sys, now, Limit(w.sys));
    var pol'' := Account(w'.pol, w'.sys, now);
    forall d, v | 0 <= d < |pol.offset| && 0 <= v < |pol.offset[d]|
      ensures pol''.wasSchedulable[d][v] == w'.pol.wasSchedulable[d][v]
      ensures pol''.offset[d][v] == w'.pol.offset[d][v]
    {
      assert Schedulable(w'.sys, Id(d, v)) <==> Schedulable(w.sys, Id(d, v));
    }
    forall d | 0 <= d < |pol.offset|
      ensures pol''.wasSchedulable[d] == w'.pol.wasSchedulable[d] && pol''.offset[d] == w'.pol.offset[d]
    {
    }
    assert pol''.wasSchedulable == w'.pol.wasSchedulable;
    assert pol''.offset == w'.pol.offset;
  }

  /** Passes that are sure to settle: with a quantum of at least one tick on every machine, and
      with any quantum, zero included, where the masks do not tell CPUs apart (so on every one-CPU
      machine) and ranking is exact. */
  ghost predicate SureToSettle(w: World, now: nat) {
    && (w.pol.quantum >= 1 || (Interchangeable(w.sys) && Exact(Account(w.pol, w.sys, now), w.sys, now)))
    && w.pol.Shaped()
    && VcpuTotal(w.sys.domains) + 2 * |w.sys.pcpus| + 1 <= U32_MAX
  }

  /** Such a pass reaches its fixpoint before its cap and enacts at most two decisions per physical
      CPU, and a second pass at the same instant does nothing. */
  lemma AdvanceSettles(w: World, now: nat)
    requires Inv(w.sys) && SureToSettle(w, now)
    ensures var w' := Advance(w, now);
            && Inv(w'.sys)
            && Settled(w'.pol, w'.sys, now)
            && Driven(w, now).enacted <= 2 * |w.sys.pcpus|
            && Advance(w', now) == w'
            && Driven(w', now).enacted == 0
  {
    hide Settle, Settled, Exact, Interchangeable;
    var w' := Advance(w, now);
    if w.pol.quantum >= 1 {
      SettleReachesFixpoint(w'.pol, w.sys, now, Limit(w.sys));
    } else {
      SettleReachesFixpointInterchangeably(w'.pol, w.sys, now, Limit(w.sys));
    }
    IdleExactlyWhen(w'.pol, w'.sys, now);
    AccountTwice(w, now);
    SettledStands(w'.pol, w'.sys, now, Limit(w'.sys));
  }

  lemma SettledStands(pol: Policy, s: State, now: nat, limit: nat)
    requires Next(pol, s, now).Idle?
    ensures Settle(pol, s, now, limit) == Drive(s, 0)
  {
  }
}
