/** The scheduler mechanism as the hypervisor runs it: vCPU records and the occupancy table,
    updated in place, each method proved to enact the transition of the same name. */
module Sched {
  import opened Basics
  import opened SchedModel

  /** The call did what `spec` says: its new state on acceptance, nothing on refusal. */
  ghost predicate Enacted(before: State, after: State, spec: Result<State, Error>, refused: Option<Error>) {
    match spec
    case Success(s) => refused == None && after == s
    case Failure(e) => refused == Some(e) && after == before
  }

  class System {
    var domains: seq<seq<VirtualCpu>>
    var pcpus: seq<Option<Id>>

    function Abs(): State
      reads this
    {
      State(domains, pcpus)
    }

    ghost predicate Valid()
      reads this
    {
      Inv(Abs())
    }

    constructor (numDomains: nat, vcpusPerDomain: nat, numPcpus: nat)
      ensures Valid() && Abs() == New(numDomains, vcpusPerDomain, numPcpus)
    {
      domains := seq(numDomains, _ => seq(vcpusPerDomain, _ => VirtualCpu(Offline, 0, 0, FullMask(numPcpus))));
      pcpus := seq(numPcpus, _ => None);
      new;
      NewInv(numDomains, vcpusPerDomain, numPcpus);
    }

    method SetVcpu(id: Id, v: VirtualCpu)
      requires Abs().Has(id)
      modifies this`domains
      ensures Abs() == old(Abs()).With(id, v)
    {
      domains := domains[id.dom := domains[id.dom][id.vcpu := v]];
    }

    /** Close the open interval of a running vCPU into its run time. */
    method Account(id: Id, now: nat)
      requires Abs().Has(id)
      modifies this`domains
      ensures Abs() == old(Abs()).With(id, old(Abs()).At(id).Accounted(now))
    {
      var v := domains[id.dom][id.vcpu];
      var delta := SatSub(now, v.dispatchedAt);
      SetVcpu(id, v.(runtime := Min(U64_MAX, v.runtime + delta)));
    }

    method Admit(id: Id) returns (refused: Option<Error>)
      requires Valid()
      modifies this
      ensures Valid() && Enacted(old(Abs()), Abs(), Step(old(Abs()), Op.Admit(id)), refused)
    {
      StepKeepsInv(Abs(), Op.Admit(id));
      var found := Abs().Find(id);
      if found.Failure? {
        return Some(found.error);
      }
      if found.value.state != Offline {
        return Some(WrongState);
      }
      SetVcpu(id, found.value.(state := Runnable));
      return None;
    }

    method Run(id: Id, pcpu: nat, now: nat) returns (refused: Option<Error>)
      requires Valid()
      modifies this
      ensures Valid() && Enacted(old(Abs()), Abs(), Step(old(Abs()), Op.Run(id, pcpu, now)), refused)
    {
      StepKeepsInv(Abs(), Op.Run(id, pcpu, now));
      if pcpu >= |pcpus| {
        return Some(BadPcpu);
      }
      var found := Abs().Find(id);
      if found.Failure? {
        return Some(found.error);
      }
      if found.value.state != Runnable {
        return Some(WrongState);
      }
      if !Abs().AffinityPermits(id, pcpu) {
        return Some(NotAffine);
      }
      if pcpus[pcpu].Some? {
        return Some(PcpuBusy);
      }
      SetVcpu(id, found.value.(state := Running(pcpu), dispatchedAt := now));
      pcpus := pcpus[pcpu := Some(id)];
      return None;
    }

    method Preempt(id: Id, now: nat) returns (refused: Option<Error>)
      requires Valid()
      modifies this
      ensures Valid() && Enacted(old(Abs()), Abs(), Step(old(Abs()), Op.Preempt(id, now)), refused)
    {
      StepKeepsInv(Abs(), Op.Preempt(id, now));
      var found := Abs().Find(id);
      if found.Failure? {
        return Some(found.error);
      }
      if !found.value.state.Running? {
        return Some(WrongState);
      }
      assert Abs().At(id) == found.value;
      Account(id, now);
      pcpus := pcpus[found.value.state.pcpu := None];
      WithTwice(old(Abs()), id, domains[id.dom][id.vcpu], domains[id.dom][id.vcpu].(state := Runnable));
      SetVcpu(id, domains[id.dom][id.vcpu].(state := Runnable));
      return None;
    }

    method Block(id: Id, now: nat) returns (refused: Option<Error>)
      requires Valid()
      modifies this
      ensures Valid() && Enacted(old(Abs()), Abs(), Step(old(Abs()), Op.Block(id, now)), refused)
    {
      StepKeepsInv(Abs(), Op.Block(id, now));
      var found := Abs().Find(id);
      if found.Failure? {
        return Some(found.error);
      }
      assert Abs().At(id) == found.value;
      match found.value.state {
        case Running(pcpu) =>
          Account(id, now);
          pcpus := pcpus[pcpu := None];
        case Runnable =>
        case _ => return Some(WrongState);
      }
      WithTwice(old(Abs()), id, domains[id.dom][id.vcpu], domains[id.dom][id.vcpu].(state := Blocked));
      SetVcpu(id, domains[id.dom][id.vcpu].(state := Blocked));
      return None;
    }

    method Wake(id: Id) returns (refused: Option<Error>)
      requires Valid()
      modifies this
      ensures Valid() && Enacted(old(Abs()), Abs(), Step(old(Abs()), Op.Wake(id)), refused)
    {
      StepKeepsInv(Abs(), Op.Wake(id));
      var found := Abs().Find(id);
      if found.Failure? {
        return Some(found.error);
      }
      if found.value.state != Blocked {
        return Some(WrongState);
      }
      SetVcpu(id, found.value.(state := Runnable));
      return None;
    }

    method SetAffinity(id: Id, affinity: nat) returns (refused: Option<Error>)
      requires Valid()
      modifies this
      ensures Valid() && Enacted(old(Abs()), Abs(), Step(old(Abs()), Op.SetAffinity(id, affinity)), refused)
    {
      StepKeepsInv(Abs(), Op.SetAffinity(id, affinity));
      var mask := And(affinity, FullMask(|pcpus|), 64);
      var found := Abs().Find(id);
      if found.Failure? {
        return Some(found.error);
      }
      if found.value.state.Running? && !Permits(mask, found.value.state.pcpu) {
        return Some(NotAffine);
      }
      SetVcpu(id, found.value.(affinity := mask));
      return None;
    }

    method TakeOffline(id: Id, now: nat) returns (refused: Option<Error>)
      requires Valid()
      modifies this
      ensures Valid() && Enacted(old(Abs()), Abs(), Step(old(Abs()), Op.TakeOffline(id, now)), refused)
    {
      StepKeepsInv(Abs(), Op.TakeOffline(id, now));
      var found := Abs().Find(id);
      if found.Failure? {
        return Some(found.error);
      }
      assert Abs().At(id) == found.value;
      match found.value.state {
        case Offline => return Some(WrongState);
        case Running(pcpu) =>
          Account(id, now);
          pcpus := pcpus[pcpu := None];
        case _ =>
      }
      var w := domains[id.dom][id.vcpu].(state := Offline, affinity := FullMask(|pcpus|));
      WithTwice(old(Abs()), id, domains[id.dom][id.vcpu], w);
      SetVcpu(id, w);
      return None;
    }

    /** Teardown: take every vCPU of `dom` offline, one call at a time. */
    method TakeAllOffline(dom: nat, now: nat)
      requires Valid()
      modifies this
      ensures Valid() && Abs() == OfflineAll(old(Abs()), dom, now)
    {
      if dom >= |domains| {
        return;
      }
      ghost var s := Abs();
      var n := |domains[dom]|;
      for i := 0 to n
        invariant Valid() && OfflinedUpTo(s, Abs(), dom, now, i)
      {
        OfflineNext(s, Abs(), dom, now, i);
        if domains[dom][i].state != Offline {
          var _ := TakeOffline(Id(dom, i), now);
        }
      }
      OfflineDone(s, Abs(), dom, now);
    }

    /** Dispatch one transition. */
    method Do(op: Op) returns (refused: Option<Error>)
      requires Valid()
      modifies this
      ensures Valid() && Enacted(old(Abs()), Abs(), Step(old(Abs()), op), refused)
    {
      match op
      case Admit(id) => refused := this.Admit(id);
      case Run(id, pcpu, now) => refused := this.Run(id, pcpu, now);
      case Preempt(id, now) => refused := this.Preempt(id, now);
      case Block(id, now) => refused := this.Block(id, now);
      case Wake(id) => refused := this.Wake(id);
      case SetAffinity(id, affinity) => refused := this.SetAffinity(id, affinity);
      case TakeOffline(id, now) => refused := this.TakeOffline(id, now);
    }
  }
}
