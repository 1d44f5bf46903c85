/** CPU time over whole runs of the hypervisor: what its scheduler credits, the hardware supplied. */
module HypervisorTime {
  import opened Basics
  import opened HypervisorModel
  import E = EvtchnModel
  import G = GrantModel
  import S = SchedModel
  import P = P2mModel
  import C = ControlModel

  /** The clock once a transition has happened: the reading it carries, if it carries one. */
  function Tick(clock: nat, t: Transition): nat {
    match t
    case Guest(_, Schedule(Run(_, _, now))) => now
    case Guest(_, Schedule(Preempt(_, now))) => now
    case Guest(_, Schedule(TakeOffline(_, now))) => now
    case Guest(_, SchedBlock(_, now)) => now
    case Guest(_, DomainDestroy(_, now)) => now
    case _ => clock
  }

  /** From `clock` on, the readings a run carries never go back, and none is later than `now`. */
  ghost predicate InOrder(ts: seq<Transition>, clock: nat, now: nat)
    decreases |ts|
  {
    if ts == [] then clock <= now
    else clock <= Tick(clock, ts[0]) && InOrder(ts[1..], Tick(clock, ts[0]), now)
  }

  lemma {:induction false} OrderedClock(ts: seq<Transition>, clock: nat, now: nat)
    requires InOrder(ts, clock, now)
    ensures clock <= now
    decreases |ts|
  {
    if ts != [] {
      OrderedClock(ts[1..], Tick(clock, ts[0]), now);
    }
  }

  /** What an event operation does to the scheduler: it may try to wake one vCPU. */
  lemma EventDeed(hv: Hv, d: nat, op: E.Op) returns (deed: Option<S.Deed>)
    requires EventStep(hv, d, op).Success?
    ensures deed.Some? ==> deed.value.One? && deed.value.op.Wake?
    ensures EventStep(hv, d, op).value.hv.sched == if deed.Some? then S.Perform(hv.sched, deed.value) else hv.sched
  {
    hide E.Step, S.Step;
    var e, port := E.Step(hv.evtchn, d, op).value.state, E.Notified(hv.evtchn, d, op);
    if WokenBy(e, hv.sched, port) == hv.sched {
      deed := None;
    } else {
      deed := Some(S.One(S.Op.Wake(S.Id(port.value.0, e.At(port.value.0, port.value.1).Target().value))));
    }
  }

  /** What a transition does to the scheduler, accepted or refused: nothing, one scheduler
      transition, or taking a dying domain offline, at the reading the transition carries. */
  lemma DeedOf(hv: Hv, t: Transition, clock: nat) returns (deed: Option<S.Deed>)
    ensures deed.Some? ==> S.DoneAt(deed.value, Tick(clock, t))
    ensures After(hv, t).sched == if deed.Some? then S.Perform(hv.sched, deed.value) else hv.sched
  {
    hide EventStep, Grant, EndGrant, MapGrant, UnmapGrant, CopyGrant, MemoryStep, Delegate, Revoke, AssignDevice,
      ReleaseDevice, S.Step, S.OfflineAll, G.Teardown, E.Teardown, P.Teardown, C.Remove;
    deed := None;
    if Apply(hv, t).Success? && After(hv, t).sched != hv.sched {
      match t
      case RaiseVcpuVirq(d, vcpu, virq) => deed := EventDeed(hv, d, E.OpRaiseVirq(vcpu, virq));
      case Guest(caller, call) =>
        match call {
          case Event(op) => deed := EventDeed(hv, caller, op);
          case Schedule(own) => deed := Some(S.One(own.For(caller)));
          case SchedBlock(vcpu, now) => deed := Some(S.One(S.Op.Block(S.Id(caller, vcpu), now)));
          case SchedSetAffinity(target, vcpu, affinity) =>
            deed := Some(S.One(S.Op.SetAffinity(S.Id(target, vcpu), affinity)));
          case DomainDestroy(target, now) => deed := Some(S.Death(target, now));
          case _ => QuietCall(hv, caller, call);
        }
    }
  }

  lemma QuietCall(hv: Hv, caller: nat, call: Call)
    requires !(call.Event? || call.Schedule? || call.SchedBlock? || call.SchedSetAffinity? || call.DomainDestroy?)
    ensures After(hv, Guest(caller, call)).sched == hv.sched
  {
  }

  lemma {:induction false} RunKeepsCovered(hv: Hv, ts: seq<Transition>, start: nat, clock: nat, now: nat)
    requires S.Inv(hv.sched) && start <= clock && S.Covered(hv.sched, start, clock) && InOrder(ts, clock, now)
    ensures start <= now
    ensures var s := RunAll(hv, ts).sched; |s.pcpus| == |hv.sched.pcpus| && S.Covered(s, start, now)
    decreases |ts|
  {
    hide S.Inv, S.Covered, S.Perform, S.DoneAt, Tick, After;
    OrderedClock(ts, clock, now);
    if ts == [] {
      S.StaysCovered(hv.sched, start, clock, now);
    } else {
      var at := Tick(clock, ts[0]);
      var deed := DeedOf(hv, ts[0], clock);
      if deed.Some? {
        S.StaysCovered(hv.sched, start, clock, at);
        S.PerformKeepsCovered(hv.sched, S.Event.Event(deed.value, at), start, at);
      } else {
        S.StaysCovered(hv.sched, start, clock, at);
      }
      RunKeepsCovered(After(hv, ts[0]), ts[1..], start, at, now);
    }
  }

  /** From boot, over every run whose clock never goes back, whoever calls, whatever is refused and
      whoever dies: the run time of all vCPUs together, open intervals included, never exceeds what
      the physical CPUs supplied. */
  lemma TimeIsConserved(domains: nat, ports: nat, grefs: nat, vcpus: nat, pcpus: nat, frames: nat, devices: nat,
                        ts: seq<Transition>, start: nat, now: nat)
    requires InOrder(ts, start, now)
    ensures start <= now
    ensures var s := RunAll(New(domains, ports, grefs, vcpus, pcpus, frames, devices), ts).sched;
            |s.pcpus| == pcpus && S.TotalTime(s, now) <= pcpus * (now - start)
  {
    hide S.Inv, S.TotalTime, S.New, RunAll;
    S.BootCovered(domains, vcpus, pcpus, start, start);
    RunKeepsCovered(New(domains, ports, grefs, vcpus, pcpus, frames, devices), ts, start, start, now);
  }
}
