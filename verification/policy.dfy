/** The scheduler policy as the hypervisor runs it: nested scans that keep a running best, a
    wake-accounting pass that rewrites offsets in place, and a bounded driving loop. Each method
    is proved to compute the function of the same role in `PolicyModel`. */
module Policies {
  import opened Basics
  import opened SchedModel
  import opened PolicyModel
  import Model = PolicyModel
  import Sched

  // ----- tables rewritten cell by cell, in scan order -----

  ghost predicate SameShape<T, U>(a: seq<seq<T>>, b: seq<seq<U>>) {
    |a| == |b| && forall d | 0 <= d < |a| :: |a[d]| == |b[d]|
  }

  /** Write one cell; a vCPU outside the table is ignored. */
  function SetCell<T>(rows: seq<seq<T>>, id: Id, value: T): seq<seq<T>> {
    if Tracked(rows, id) then rows[id.dom := rows[id.dom][id.vcpu := value]] else rows
  }

  /** `rows` is `before`, with the cells of the vCPUs scanned so far taken from `after`. */
  ghost predicate Filled<T>(rows: seq<seq<T>>, before: seq<seq<T>>, after: seq<seq<T>>, s: State, dom: nat, vcpu: nat) {
    && SameShape(rows, before) && SameShape(before, after)
    && forall d, v | 0 <= d < |rows| && 0 <= v < |rows[d]| ::
         rows[d][v] == if Seen(s, dom, vcpu, Id(d, v)) then after[d][v] else before[d][v]
  }

  lemma SetSameCell<T>(rows: seq<seq<T>>, id: Id, default: T)
    ensures SetCell(rows, id, Lookup(rows, id, default)) == rows
  {
    if Tracked(rows, id) {
      assert rows[id.dom][id.vcpu := rows[id.dom][id.vcpu]] == rows[id.dom];
    }
  }

  lemma SetUntracked<T>(rows: seq<seq<T>>, id: Id, x: T, y: T)
    requires Tracked(rows, id) ==> x == y
    ensures SetCell(rows, id, x) == SetCell(rows, id, y)
  {
  }

  lemma FilledFrom<T>(before: seq<seq<T>>, after: seq<seq<T>>, s: State)
    requires SameShape(before, after)
    ensures Filled(before, before, after, s, 0, 0)
  {
  }

  lemma FilledAt<T>(rows: seq<seq<T>>, before: seq<seq<T>>, after: seq<seq<T>>, s: State, id: Id, default: T)
    requires Filled(rows, before, after, s, id.dom, id.vcpu)
    ensures Lookup(rows, id, default) == Lookup(before, id, default)
    ensures Tracked(rows, id) <==> Tracked(before, id)
  {
  }

  lemma FilledNext<T>(rows: seq<seq<T>>, before: seq<seq<T>>, after: seq<seq<T>>, s: State, id: Id, default: T)
    requires s.Has(id) && Filled(rows, before, after, s, id.dom, id.vcpu)
    ensures Filled(SetCell(rows, id, Lookup(after, id, default)), before, after, s, id.dom, id.vcpu + 1)
  {
  }

  lemma FilledRow<T>(rows: seq<seq<T>>, before: seq<seq<T>>, after: seq<seq<T>>, s: State, dom: nat)
    requires dom < |s.domains| && Filled(rows, before, after, s, dom, |s.domains[dom]|)
    ensures Filled(rows, before, after, s, dom + 1, 0)
  {
  }

  lemma FilledAll<T>(rows: seq<seq<T>>, before: seq<seq<T>>, after: seq<seq<T>>, s: State)
    requires Filled(rows, before, after, s, |s.domains|, 0)
    requires forall d, v | 0 <= d < |before| && 0 <= v < |before[d]| && !s.Has(Id(d, v)) :: after[d][v] == before[d][v]
    ensures rows == after
  {
    assert forall d | 0 <= d < |rows| :: rows[d] == after[d];
  }

  lemma AccountKeepsShape(pol: Policy, s: State, now: nat)
    ensures SameShape(pol.offset, Model.Account(pol, s, now).offset)
    ensures SameShape(pol.wasSchedulable, Model.Account(pol, s, now).wasSchedulable)
    ensures Model.Account(pol, s, now).(offset := pol.offset, wasSchedulable := pol.wasSchedulable) == pol
  {
  }

  /** Only vCPUs the mechanism knows are accounted. */
  lemma AccountOutside(pol: Policy, s: State, now: nat)
    ensures var goal := Model.Account(pol, s, now);
            && SameShape(pol.offset, goal.offset) && SameShape(pol.wasSchedulable, goal.wasSchedulable)
            && (forall d, v | 0 <= d < |pol.offset| && 0 <= v < |pol.offset[d]| && !s.Has(Id(d, v)) ::
                  goal.offset[d][v] == pol.offset[d][v])
            && (forall d, v | 0 <= d < |pol.wasSchedulable| && 0 <= v < |pol.wasSchedulable[d]| && !s.Has(Id(d, v)) ::
                  goal.wasSchedulable[d][v] == pol.wasSchedulable[d][v])
  {
  }

  class Scheduler {
    var weights: seq<seq<nat>>
    var quantum: nat
    var offset: seq<seq<nat>>
    var wasSchedulable: seq<seq<bool>>
    var wakeBoost: bool

    function Abs(): Policy
      reads this
    {
      Policy(weights, quantum, offset, wasSchedulable, wakeBoost)
    }

    /** Default weights, no offsets, nobody seen schedulable yet, wake-boost on. */
    constructor (numDomains: nat, vcpusPerDomain: nat, quantum: nat)
      ensures Abs().Shaped() && Abs().WeightsFit() && Abs().quantum == quantum && Abs().wakeBoost
      ensures forall id: Id :: Abs().WeightOf(id) == 1 && Abs().OffsetOf(id) == 0 && !Abs().Was(id)
    {
      weights := seq(numDomains, _ => seq(vcpusPerDomain, _ => 1));
      this.quantum := quantum;
      offset := seq(numDomains, _ => seq(vcpusPerDomain, _ => 0));
      wasSchedulable := seq(numDomains, _ => seq(vcpusPerDomain, _ => false));
      wakeBoost := true;
    }

    /** Zero weights are clamped up; an unknown vCPU is ignored. */
    method SetWeight(id: Id, weight: nat)
      modifies this`weights
      ensures forall other: Id :: Abs().WeightOf(other)
                == if other == id && Tracked(old(weights), id) then Max(weight, 1) else old(Abs().WeightOf(other))
    {
      if id.dom < |weights| && id.vcpu < |weights[id.dom]| {
        var row: seq<nat> := weights[id.dom][id.vcpu := Max(weight, 1)];
        weights := weights[id.dom := row];
      }
    }

    /** Switching wake-boost either way forgets every offset. */
    method SetWakeBoost(enabled: bool)
      modifies this`wakeBoost, this`offset
      ensures wakeBoost == enabled && (old(Abs().Shaped()) ==> Abs().Shaped())
      ensures forall id: Id :: Abs().OffsetOf(id) == 0
    {
      wakeBoost := enabled;
      for d := 0 to |offset|
        invariant wakeBoost == enabled && |offset| == old(|offset|)
        invariant forall e | 0 <= e < |offset| :: |offset[e]| == |old(offset)[e]|
        invariant forall e, v | 0 <= e < d && 0 <= v < |offset[e]| :: offset[e][v] == 0
      {
        offset := offset[d := seq(|offset[d]|, _ => 0)];
      }
    }

    // ----- the scans -----

    /** The most deserving vCPU that can be placed now, with the CPU it would take. */
    method BestPlacement(sys: Sched.System, now: nat) returns (best: Option<Slot>)
      ensures best == Best(Place, Abs(), sys.Abs(), now)
    {
      var s := sys.Abs();
      best := None;
      for dom := 0 to |s.domains|
        invariant best == BestUpTo(Place, Abs(), s, now, dom, 0)
      {
        for vcpu := 0 to |s.domains[dom]|
          invariant best == BestUpTo(Place, Abs(), s, now, dom, vcpu)
        {
          var id := Id(dom, vcpu);
          if s.IsIn(id, Runnable) {
            var pcpu := FirstIdleFor(s, id, 0);
            if pcpu.Some? {
              var share := Abs().ShareOf(s, id, now);
              if best.None? || MoreDeserving(share, Abs().ShareOf(s, best.value.id, now)) {
                best := Some(Slot(id, pcpu.value));
              }
            }
          }
        }
      }
    }

    /** Whether evicting the vCPU on `pcpu` would hand it to a strictly better claimant. */
    method AffineWaiterBeats(sys: Sched.System, pcpu: nat, runner: Share, now: nat) returns (beaten: bool)
      ensures beaten == SomeAffineWaiterBeats(Abs(), sys.Abs(), now, pcpu, runner)
    {
      var s := sys.Abs();
      for dom := 0 to |s.domains|
        invariant forall w: Id | s.Has(w) && w.dom < dom :: !WaiterBeats(Abs(), s, now, pcpu, runner, w)
      {
        for vcpu := 0 to |s.domains[dom]|
          invariant forall w: Id | Seen(s, dom, vcpu, w) :: !WaiterBeats(Abs(), s, now, pcpu, runner, w)
        {
          var w := Id(dom, vcpu);
          if s.IsIn(w, Runnable) && s.AffinityPermits(w, pcpu) && MoreDeserving(Abs().ShareOf(s, w, now), runner) {
            assert WaiterBeats(Abs(), s, now, pcpu, runner, w);
            return true;
          }
        }
      }
      return false;
    }

    /** The least deserving expired runner whose CPU a strictly better affine waiter could use. */
    method BestPreemption(sys: Sched.System, now: nat) returns (worst: Option<Slot>)
      ensures worst == Best(Evict, Abs(), sys.Abs(), now)
    {
      var s := sys.Abs();
      worst := None;
      for dom := 0 to |s.domains|
        invariant worst == BestUpTo(Evict, Abs(), s, now, dom, 0)
      {
        for vcpu := 0 to |s.domains[dom]|
          invariant worst == BestUpTo(Evict, Abs(), s, now, dom, vcpu)
        {
          var id := Id(dom, vcpu);
          if s.IsRunning(id) && SatSub(now, s.At(id).dispatchedAt) >= quantum {
            var pcpu, share := s.At(id).state.pcpu, Abs().ShareOf(s, id, now);
            var useful := AffineWaiterBeats(sys, pcpu, share, now);
            if useful && (worst.None? || MoreDeserving(Abs().ShareOf(s, worst.value.id, now), share)) {
              worst := Some(Slot(id, pcpu));
            }
          }
        }
      }
    }

    method Next(sys: Sched.System, now: nat) returns (d: Decision)
      ensures d == Model.Next(Abs(), sys.Abs(), now)
    {
      var placement := BestPlacement(sys, now);
      if placement.Some? {
        return Decision.Run(placement.value.id, placement.value.pcpu);
      }
      var eviction := BestPreemption(sys, now);
      if eviction.Some? {
        return Decision.Preempt(eviction.value.id, eviction.value.pcpu);
      }
      return Idle;
    }

    // ----- wake accounting -----

    method PoolFloor(sys: Sched.System, now: nat) returns (floor: Option<Share>)
      ensures floor == Floor(Abs(), sys.Abs(), now)
    {
      var s := sys.Abs();
      ghost var best: Option<Slot> := None;
      floor := None;
      for dom := 0 to |s.domains|
        invariant best == BestUpTo(Anchor, Abs(), s, now, dom, 0)
        invariant floor == if best.Some? then Some(Abs().ShareOf(s, best.value.id, now)) else None
      {
        for vcpu := 0 to |s.domains[dom]|
          invariant best == BestUpTo(Anchor, Abs(), s, now, dom, vcpu)
          invariant floor == if best.Some? then Some(Abs().ShareOf(s, best.value.id, now)) else None
        {
          var id := Id(dom, vcpu);
          best := Consider(Anchor, Abs(), s, now, best, id);
          if Schedulable(s, id) && Abs().Was(id) {
            var share := Abs().ShareOf(s, id, now);
            if floor.None? || MoreDeserving(share, floor.value) {
              floor := Some(share);
            }
          }
        }
      }
    }

    /** Place one vCPU on the floor if it just woke, and refresh its snapshot. */
    method AccountOne(s: State, floor: Option<Share>, id: Id)
      requires s.Has(id) && (floor.Some? ==> floor.value.weight >= 1)
      modifies this`offset, this`wasSchedulable
      ensures offset == SetCell<nat>(old(offset), id,
                                if Woke(old(Abs()), s, id) && wakeBoost && floor.Some?
                                then Boost(floor.value, old(Abs()).WeightOf(id), s.At(id).runtime)
                                else old(Abs()).OffsetOf(id))
      ensures wasSchedulable == SetCell(old(wasSchedulable), id, Schedulable(s, id))
    {
      var nowSchedulable := Schedulable(s, id);
      if nowSchedulable && !Abs().Was(id) && wakeBoost && floor.Some? {
        offset := SetCell<nat>(offset, id, Boost(floor.value, Abs().WeightOf(id), s.At(id).runtime));
      } else {
        SetSameCell<nat>(offset, id, 0);
      }
      wasSchedulable := SetCell(wasSchedulable, id, nowSchedulable);
    }

    /** Fold in wake edges: find the floor, then place each woken vCPU on it and refresh the
        snapshot, in one scan. */
    method Account(sys: Sched.System, now: nat)
      modifies this`offset, this`wasSchedulable
      ensures Abs() == Model.Account(old(Abs()), sys.Abs(), now)
    {
      hide Best, Model.Account, Boost, SetCell, Filled, Lookup;
      ghost var pol, goal := Abs(), Model.Account(Abs(), sys.Abs(), now);
      var s := sys.Abs();
      AccountKeepsShape(pol, s, now);
      var floor := PoolFloor(sys, now);
      FilledFrom<nat>(offset, goal.offset, s);
      FilledFrom<bool>(wasSchedulable, goal.wasSchedulable, s);
      for dom := 0 to |s.domains|
        invariant Abs().(offset := pol.offset, wasSchedulable := pol.wasSchedulable) == pol
        invariant Filled<nat>(offset, pol.offset, goal.offset, s, dom, 0)
        invariant Filled<bool>(wasSchedulable, pol.wasSchedulable, goal.wasSchedulable, s, dom, 0)
      {
        for vcpu := 0 to |s.domains[dom]|
          invariant Abs().(offset := pol.offset, wasSchedulable := pol.wasSchedulable) == pol
          invariant Filled<nat>(offset, pol.offset, goal.offset, s, dom, vcpu)
          invariant Filled<bool>(wasSchedulable, pol.wasSchedulable, goal.wasSchedulable, s, dom, vcpu)
        {
          var id := Id(dom, vcpu);
          AccountAt(pol, s, now, id);
          FilledAt<nat>(offset, pol.offset, goal.offset, s, id, 0);
          FilledAt<bool>(wasSchedulable, pol.wasSchedulable, goal.wasSchedulable, s, id, false);
          FilledNext<nat>(offset, pol.offset, goal.offset, s, id, 0);
          FilledNext<bool>(wasSchedulable, pol.wasSchedulable, goal.wasSchedulable, s, id, false);
          ghost var untracked := if Woke(Abs(), s, id) && wakeBoost && floor.Some?
                                 then Boost(floor.value, Abs().WeightOf(id), s.At(id).runtime) else Abs().OffsetOf(id);
          SetUntracked<nat>(offset, id, untracked, goal.OffsetOf(id));
          SetUntracked<bool>(wasSchedulable, id, Schedulable(s, id), goal.Was(id));
          AccountOne(s, floor, id);
        }
        FilledRow<nat>(offset, pol.offset, goal.offset, s, dom);
        FilledRow<bool>(wasSchedulable, pol.wasSchedulable, goal.wasSchedulable, s, dom);
      }
      AccountOutside(pol, s, now);
      FilledAll<nat>(offset, pol.offset, goal.offset, s);
      FilledAll<bool>(wasSchedulable, pol.wasSchedulable, goal.wasSchedulable, s);
    }

    // ----- the driver -----

    method CountVcpus(sys: Sched.System) returns (total: nat)
      ensures total == VcpuTotal(sys.domains)
    {
      total := 0;
      for d := 0 to |sys.domains|
        invariant total == VcpuTotal(sys.domains[..d])
      {
        assert sys.domains[..d + 1][..d] == sys.domains[..d];
        total := total + |sys.domains[d]|;
      }
      assert sys.domains[..|sys.domains|] == sys.domains;
    }

    /** Enact decisions until none is left, one is refused, or `limit` of them are done. */
    method Drive(sys: Sched.System, now: nat, limit: nat) returns (enacted: nat)
      requires sys.Valid()
      modifies sys
      ensures sys.Valid()
      ensures Model.Drive(sys.Abs(), enacted) == Settle(Abs(), old(sys.Abs()), now, limit)
    {
      hide Best, Step, Inv;
      ghost var goal := Settle(Abs(), sys.Abs(), now, limit);
      enacted := 0;
      while enacted < limit
        invariant enacted <= limit && sys.Valid()
        invariant goal.state == Settle(Abs(), sys.Abs(), now, limit - enacted).state
        invariant goal.enacted == enacted + Settle(Abs(), sys.Abs(), now, limit - enacted).enacted
      {
        var d := Next(sys, now);
        var refused: Option<Error> := None;
        match d {
          case Idle => break;
          case Run(id, pcpu) => refused := sys.Run(id, pcpu, now);
          case Preempt(id, pcpu) => refused := sys.Preempt(id, now);
        }
        if refused.Some? {
          break;
        }
        enacted := enacted + 1;
      }
    }

    /** One pass: account for wake-ups, then drive the mechanism under the iteration cap. */
    method Advance(sys: Sched.System, now: nat) returns (enacted: nat)
      requires sys.Valid()
      modifies this`offset, this`wasSchedulable, sys
      ensures sys.Valid()
      ensures World(Abs(), sys.Abs()) == Model.Advance(World(old(Abs()), old(sys.Abs())), now)
      ensures enacted == Driven(World(old(Abs()), old(sys.Abs())), now).enacted
      ensures SureToSettle(World(old(Abs()), old(sys.Abs())), now)
              ==> Settled(Abs(), sys.Abs(), now) && enacted <= 2 * |old(sys.pcpus)|
    {
      hide Settle, Model.Account, Settled, Inv, SureToSettle;
      ghost var world := World(Abs(), sys.Abs());
      if SureToSettle(world, now) {
        AdvanceSettles(world, now);
      }
      Account(sys, now);
      var total := CountVcpus(sys);
      enacted := Drive(sys, now, (total + 2 * |sys.pcpus| + 1) % (U32_MAX + 1));
    }
  }
}
