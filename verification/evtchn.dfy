/** Event channels as the hypervisor runs them: per-domain port vectors overwritten in place, each
    method proved to enact the operation of the same name. */
module Evtchn {
  import opened Basics
  import M = EvtchnModel

  ghost predicate Enacted(before: M.State, after: M.State, spec: Result<M.State, M.Error>, refused: Option<M.Error>) {
    match spec
    case Success(s) => refused == None && after == s
    case Failure(e) => refused == Some(e) && after == before
  }

  ghost predicate EnactedBind(before: M.State, after: M.State, spec: Result<M.Bound, M.Error>,
                              r: Result<nat, M.Error>) {
    match spec
    case Success(b) => r == Success(b.port) && after == b.state
    case Failure(e) => r == Failure(e) && after == before
  }

  class System {
    var domains: seq<seq<M.Channel>>

    function Abs(): M.State
      reads this
    {
      M.State(domains)
    }

    ghost predicate Valid()
      reads this
    {
      M.Inv(Abs())
    }

    constructor (numDomains: nat, portsPerDomain: nat)
      ensures Valid() && Abs() == M.New(numDomains, portsPerDomain)
    {
      domains := seq(numDomains, _ => seq(portsPerDomain, _ => M.IDLE));
      new;
      M.NewInv(numDomains, portsPerDomain);
    }

    method SetChannel(d: nat, p: nat, c: M.Channel)
      requires Abs().Has(d, p)
      modifies this
      ensures Abs() == old(Abs()).With(d, p, c)
    {
      domains := domains[d := domains[d][p := c]];
    }

    /** Scan for the first free port. */
    method FindFree(d: nat) returns (r: Result<nat, M.Error>)
      ensures r == M.FindFree(Abs(), d)
    {
      if d >= |domains| {
        return Failure(M.BadDomain);
      }
      for p := 0 to |domains[d]|
        invariant forall q | 0 <= q < p :: !domains[d][q].state.Free?
      {
        if domains[d][p].state.Free? {
          return Success(p);
        }
      }
      return Failure(M.NoFreePort);
    }

    /** Scan for the port a virtual interrupt is bound to. */
    method FindVirq(d: nat, vcpu: nat, virq: nat) returns (port: nat)
      requires d < |domains|
      ensures port == M.VirqPort(domains[d], vcpu, virq)
    {
      port := 0;
      while port < |domains[d]| && domains[d][port].state != M.Virq(vcpu, virq)
        invariant port <= |domains[d]|
        invariant forall q | 0 <= q < port :: domains[d][q].state != M.Virq(vcpu, virq)
      {
        port := port + 1;
      }
    }

    method Reserve(d: nat, state: M.PortState) returns (r: Result<nat, M.Error>)
      modifies this
      ensures EnactedBind(old(Abs()), Abs(), M.Reserve(old(Abs()), d, state), r)
    {
      r := FindFree(d);
      if r.Success? {
        SetChannel(d, r.value, domains[d][r.value].(state := state));
      }
    }

    method AllocUnbound(d: nat, remote: nat) returns (r: Result<nat, M.Error>)
      requires Valid()
      modifies this
      ensures Valid() && EnactedBind(old(Abs()), Abs(), M.AllocUnbound(old(Abs()), d, remote), r)
    {
      Keeps(d, M.OpAllocUnbound(remote));
      if remote >= |domains| {
        return Failure(M.BadDomain);
      }
      r := Reserve(d, M.Unbound(remote));
    }

    lemma Keeps(d: nat, op: M.Op)
      requires Valid()
      ensures M.Step(Abs(), d, op).Success? ==> M.Inv(M.Step(Abs(), d, op).value.state)
    {
      if M.Step(Abs(), d, op).Success? {
        M.StepKeepsInv(Abs(), d, op);
      }
    }

    /** Link a fresh port to a peer that waits for exactly this domain; both ends start clean. */
    method BindInterdomain(d: nat, remote: nat, remotePort: nat) returns (r: Result<nat, M.Error>)
      requires Valid()
      modifies this
      ensures Valid() && EnactedBind(old(Abs()), Abs(), M.BindInterdomain(old(Abs()), d, remote, remotePort), r)
    {
      Keeps(d, M.OpBindInterdomain(remote, remotePort));
      var peer := Abs().Find(remote, remotePort);
      if peer.Failure? {
        return Failure(peer.error);
      }
      if peer.value.state != M.Unbound(d) {
        return Failure(M.WrongState);
      }
      r := FindFree(d);
      if r.Success? {
        SetChannel(d, r.value, M.Channel(M.Interdomain(remote, remotePort), false, false));
        SetChannel(remote, remotePort, M.Channel(M.Interdomain(d, r.value), false, false));
      }
    }

    method BindVirq(d: nat, vcpu: nat, virq: nat) returns (r: Result<nat, M.Error>)
      requires Valid()
      modifies this
      ensures Valid() && EnactedBind(old(Abs()), Abs(), M.BindVirq(old(Abs()), d, vcpu, virq), r)
    {
      Keeps(d, M.OpBindVirq(vcpu, virq));
      if d >= |domains| {
        return Failure(M.BadDomain);
      }
      var port := FindVirq(d, vcpu, virq);
      if port < |domains[d]| {
        return Failure(M.VirqInUse);
      }
      r := Reserve(d, M.Virq(vcpu, virq));
    }

    method BindIpi(d: nat, vcpu: nat) returns (r: Result<nat, M.Error>)
      requires Valid()
      modifies this
      ensures Valid() && EnactedBind(old(Abs()), Abs(), M.BindIpi(old(Abs()), d, vcpu), r)
    {
      Keeps(d, M.OpBindIpi(vcpu));
      r := Reserve(d, M.Ipi(vcpu));
    }

    /** The peer of a closed port waits for the closer again, its signals cleared. */
    method Close(d: nat, port: nat) returns (refused: Option<M.Error>)
      requires Valid()
      modifies this
      ensures Valid() && Enacted(old(Abs()), Abs(), M.Close(old(Abs()), d, port), refused)
    {
      Keeps(d, M.OpClose(port));
      var found := Abs().Find(d, port);
      if found.Failure? {
        return Some(found.error);
      }
      M.PortAt(Abs(), d, port);
      match found.value.state {
        case Free => return Some(M.WrongState);
        case Interdomain(remote, remotePort) =>
          SetChannel(remote, remotePort, M.Channel(M.Unbound(d), false, false));
        case _ =>
      }
      SetChannel(d, port, M.IDLE);
      return None;
    }

    method Send(d: nat, port: nat) returns (refused: Option<M.Error>)
      requires Valid()
      modifies this
      ensures Valid() && Enacted(old(Abs()), Abs(), M.Send(old(Abs()), d, port), refused)
    {
      Keeps(d, M.OpSend(port));
      var found := Abs().Find(d, port);
      if found.Failure? {
        return Some(found.error);
      }
      M.PortAt(Abs(), d, port);
      var target := M.SendTarget(Abs(), d, port);
      if target.None? {
        return Some(M.WrongState);
      }
      var (td, tp) := target.value;
      SetChannel(td, tp, domains[td][tp].(pending := true));
      return None;
    }

    method RaiseVirq(d: nat, vcpu: nat, virq: nat) returns (r: Result<nat, M.Error>)
      requires Valid()
      modifies this
      ensures Valid() && EnactedBind(old(Abs()), Abs(), M.RaiseVirq(old(Abs()), d, vcpu, virq), r)
    {
      Keeps(d, M.OpRaiseVirq(vcpu, virq));
      if d >= |domains| {
        return Failure(M.BadDomain);
      }
      var port := FindVirq(d, vcpu, virq);
      if port == |domains[d]| {
        return Failure(M.WrongState);
      }
      SetChannel(d, port, domains[d][port].(pending := true));
      return Success(port);
    }

    method SetMasked(d: nat, port: nat, masked: bool) returns (refused: Option<M.Error>)
      requires Valid()
      modifies this
      ensures Valid() && Enacted(old(Abs()), Abs(), M.SetMasked(old(Abs()), d, port, masked), refused)
    {
      Keeps(d, M.OpSetMasked(port, masked));
      var found := Abs().Find(d, port);
      if found.Failure? {
        return Some(found.error);
      }
      if found.value.state.Free? {
        return Some(M.WrongState);
      }
      SetChannel(d, port, found.value.(masked := masked));
      return None;
    }

    method Consume(d: nat, port: nat) returns (r: Result<bool, M.Error>)
      requires Valid()
      modifies this
      ensures Valid()
      ensures match M.Consume(old(Abs()), d, port)
              case Success(c) => r == Success(c.pending) && Abs() == c.state
              case Failure(e) => r == Failure(e) && Abs() == old(Abs())
    {
      Keeps(d, M.OpConsume(port));
      var found := Abs().Find(d, port);
      if found.Failure? {
        return Failure(found.error);
      }
      if found.value.state.Free? {
        return Failure(M.WrongState);
      }
      SetChannel(d, port, found.value.(pending := false));
      return Success(found.value.pending);
    }

    /** Dispatch one operation. */
    method Do(d: nat, op: M.Op) returns (r: Result<M.Answer, M.Error>)
      requires Valid()
      modifies this
      ensures Valid()
      ensures match M.Step(old(Abs()), d, op)
              case Success(stepped) => r == Success(stepped.answer) && Abs() == stepped.state
              case Failure(e) => r == Failure(e) && Abs() == old(Abs())
    {
      var port: Result<nat, M.Error> := Success(0);
      var refused: Option<M.Error> := None;
      match op {
        case OpAllocUnbound(remote) => port := AllocUnbound(d, remote);
        case OpBindInterdomain(remote, remotePort) => port := BindInterdomain(d, remote, remotePort);
        case OpBindVirq(vcpu, virq) => port := BindVirq(d, vcpu, virq);
        case OpBindIpi(vcpu) => port := BindIpi(d, vcpu);
        case OpRaiseVirq(vcpu, virq) => port := RaiseVirq(d, vcpu, virq);
        case OpClose(p) => refused := Close(d, p);
        case OpSend(p) => refused := Send(d, p);
        case OpSetMasked(p, masked) => refused := SetMasked(d, p, masked);
        case OpConsume(p) =>
          var pending := Consume(d, p);
          return if pending.Success? then Success(M.WasPending(pending.value)) else Failure(pending.error);
      }
      if op.OpClose? || op.OpSend? || op.OpSetMasked? {
        return if refused.Some? then Failure(refused.value) else Success(M.Nothing);
      }
      return if port.Success? then Success(M.AtPort(port.value)) else Failure(port.error);
    }

    /** Whether an event of the domain is waiting for the vCPU. */
    method HasDeliverableFor(d: nat, vcpu: nat) returns (waiting: bool)
      ensures waiting == Abs().Waiting(d, vcpu)
    {
      if d >= |domains| {
        return false;
      }
      for p := 0 to |domains[d]|
        invariant forall q | 0 <= q < p :: !(domains[d][q].Deliverable() && domains[d][q].Target() == Some(vcpu))
      {
        if domains[d][p].Deliverable() && domains[d][p].Target() == Some(vcpu) {
          return true;
        }
      }
      return false;
    }

    // ----- teardown -----

    /** Close the domain's ports in turn. A link between two of its own ports is met half-open the
        second time, and the outcome does not depend on it. */
    method CloseAll(d: nat)
      requires Valid()
      modifies this
      ensures Valid() && Abs() == M.CloseAll(old(Abs()), d)
    {
      ghost var s := Abs();
      M.ClosedNone(s, d);
      if d < |domains| {
        for p := 0 to |domains[d]|
          invariant Valid() && d < |domains| && |domains| == |s.domains| && |domains[d]| == |s.domains[d]|
          invariant M.ClosedUpTo(s, Abs(), d, p)
        {
          ghost var before := Abs();
          if domains[d][p].state.Free? {
            M.PortAt(before, d, p);
          } else {
            var refused := Close(d, p);
          }
          M.ClosedNext(s, before, Abs(), d, p);
        }
      }
      M.ClosedEvery(s, Abs(), d);
    }

    method ClearUnboundInto(target: nat)
      requires Valid()
      modifies this
      ensures Valid() && Abs() == M.ClearUnboundInto(old(Abs()), target)
    {
      ghost var s := Abs();
      M.ClearUnboundKeepsInv(s, target);
      for d := 0 to |domains|
        invariant |domains| == |s.domains|
        invariant forall x | 0 <= x < d :: domains[x] == M.ClearUnboundInto(s, target).domains[x]
        invariant forall x | d <= x < |domains| :: domains[x] == s.domains[x]
      {
        for p := 0 to |domains[d]|
          invariant |domains| == |s.domains| && |domains[d]| == |s.domains[d]|
          invariant forall x | 0 <= x < d :: domains[x] == M.ClearUnboundInto(s, target).domains[x]
          invariant forall x | d < x < |domains| :: domains[x] == s.domains[x]
          invariant forall q | 0 <= q < p :: domains[d][q] == M.ClearUnboundInto(s, target).domains[d][q]
          invariant forall q | p <= q < |domains[d]| :: domains[d][q] == s.domains[d][q]
        {
          if domains[d][p].state == M.Unbound(target) {
            SetChannel(d, p, M.IDLE);
          }
        }
        assert domains[d] == M.ClearUnboundInto(s, target).domains[d];
      }
      assert domains == M.ClearUnboundInto(s, target).domains;
    }
  }
}
