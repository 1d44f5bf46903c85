/** The integrated hypervisor: five subsystems, domain lifecycle and delegated control behind one
    transition function. */
module HypervisorModel {
  import opened Basics
  import E = EvtchnModel
  import G = GrantModel
  import S = SchedModel
  import P = P2mModel
  import D = DeviceModel
  import C = ControlModel

  datatype Hv = Hv(evtchn: E.State, grant: G.State, sched: S.State, p2m: P.State, device: D.State,
                   live: seq<bool>, mayCreate: seq<bool>, controls: C.Matrix)
  {
    predicate IsLive(d: nat) {
      d < |live| && live[d]
    }

    predicate DeadTarget(d: nat) {
      d < |live| && !live[d]
    }
  }

  datatype Error =
    | BadDomain | StaleGrant | Unauthorized | Denied | NotAlive | AlreadyAlive
    | EvtchnError(evtchn: E.Error)
    | GrantError(grant: G.Error)
    | SchedError(sched: S.Error)
    | P2mError(p2m: P.Error)
    | DeviceError(device: D.Error)

  datatype Outcome = Done | Answered(answer: E.Answer) | MapHandle(handle: nat) | Raised(deliverable: bool)

  datatype Next = Next(hv: Hv, outcome: Outcome)

  type Answer = Result<Next, Error>

  /** The event operations a guest can ask for; virtual interrupts are raised from outside. */
  type GuestEvent = op: E.Op | !op.OpRaiseVirq? witness E.OpSend(0)

  /** The scheduling requests a guest makes about its own vCPUs. */
  datatype OwnOp = Admit(vcpu: nat) | Run(vcpu: nat, pcpu: nat, now: nat) | Preempt(vcpu: nat, now: nat)
                 | Wake(vcpu: nat) | TakeOffline(vcpu: nat, now: nat)
  {
    function For(d: nat): S.Op {
      match this
      case Admit(v) => S.Op.Admit(S.Id(d, v))
      case Run(v, p, now) => S.Op.Run(S.Id(d, v), p, now)
      case Preempt(v, now) => S.Op.Preempt(S.Id(d, v), now)
      case Wake(v) => S.Op.Wake(S.Id(d, v))
      case TakeOffline(v, now) => S.Op.TakeOffline(S.Id(d, v), now)
    }
  }

  datatype Call =
    | Event(op: GuestEvent)
    | GrantAccess(gref: nat, grantee: nat, frame: nat, readonly: bool)
    | GrantEndAccess(gref: nat)
    | GrantMap(grantor: nat, gref: nat, writable: bool)
    | GrantUnmap(handle: nat)
    | GrantCopy(grantor: nat, gref: nat, writable: bool)
    | Schedule(own: OwnOp)
    | SchedBlock(vcpu: nat, now: nat)
    | SchedSetAffinity(target: nat, vcpu: nat, affinity: nat)
    | Memory(mem: P.Op)
    | DomainCreate(target: nat, mayCreate: bool)
    | DomainDestroy(target: nat, now: nat)
    | ControlGrant(target: nat, to: nat)
    | ControlRevoke(target: nat, from: nat)
    | DeviceAssign(dev: nat, to: nat)
    | DeviceRelease(dev: nat, from: nat)

  datatype Transition = Guest(caller: nat, call: Call) | RaiseVcpuVirq(dom: nat, vcpu: nat, virq: nat)

  function New(domains: nat, ports: nat, grefs: nat, vcpus: nat, pcpus: nat, frames: nat, devices: nat): Hv {
    Hv(E.New(domains, ports), G.New(domains, grefs), S.New(domains, vcpus, pcpus), P.New(domains, frames),
       D.New(domains, devices), seq(domains, d => d == 0), seq(domains, d => d == 0),
       seq(domains, _ => seq(domains, _ => C.Absent)))
  }

  // ----- lifting a subsystem's verdict -----

  function OfEvtchn<T>(r: Result<T, E.Error>): Result<T, Error> {
    if r.Success? then Success(r.value) else Failure(EvtchnError(r.error))
  }

  function OfGrant<T>(r: Result<T, G.Error>): Result<T, Error> {
    if r.Success? then Success(r.value) else Failure(GrantError(r.error))
  }

  function OfSched<T>(r: Result<T, S.Error>): Result<T, Error> {
    if r.Success? then Success(r.value) else Failure(SchedError(r.error))
  }

  function OfP2m<T>(r: Result<T, P.Error>): Result<T, Error> {
    if r.Success? then Success(r.value) else Failure(P2mError(r.error))
  }

  function OfDevice<T>(r: Result<T, D.Error>): Result<T, Error> {
    if r.Success? then Success(r.value) else Failure(DeviceError(r.error))
  }

  // ----- events and the scheduler -----

  /** Wake a vCPU if it is blocked; otherwise nothing happens. */
  function Woken(s: S.State, d: nat, vcpu: nat): S.State {
    var r := S.Step(s, S.Op.Wake(S.Id(d, vcpu)));
    if r.Success? then r.value else s
  }

  /** The scheduler after whoever a deliverable event on this port is for has been woken. */
  function WokenBy(e: E.State, s: S.State, port: Option<(nat, nat)>): S.State {
    if port.Some? && e.Has(port.value.0, port.value.1) && e.At(port.value.0, port.value.1).Deliverable()
       && e.At(port.value.0, port.value.1).Target().Some?
    then Woken(s, port.value.0, e.At(port.value.0, port.value.1).Target().value)
    else s
  }

  function EventStep(hv: Hv, d: nat, op: E.Op): Result<Next, Error> {
    var r :- OfEvtchn(E.Step(hv.evtchn, d, op));
    Success(Next(hv.(evtchn := r.state, sched := WokenBy(r.state, hv.sched, E.Notified(hv.evtchn, d, op))),
                 Answered(r.answer)))
  }

  function GuestEventStep(hv: Hv, caller: nat, op: GuestEvent): Answer {
    if op.OpAllocUnbound? && hv.DeadTarget(op.remote) then Failure(NotAlive)
    else if (op.OpBindVirq? || op.OpBindIpi?) && caller < |hv.sched.domains| && op.vcpu >= |hv.sched.domains[caller]|
    then Failure(SchedError(S.BadVcpu))
    else EventStep(hv, caller, op)
  }

  function SchedStep(hv: Hv, op: S.Op): Answer {
    var s :- OfSched(S.Step(hv.sched, op));
    Success(Next(hv.(sched := s), Done))
  }

  /** A vCPU with an event waiting does not go to sleep. */
  function Block(hv: Hv, caller: nat, vcpu: nat, now: nat): Answer {
    var id := S.Id(caller, vcpu);
    if hv.sched.Has(id) && (hv.sched.At(id).state.Running? || hv.sched.At(id).state.Runnable?)
       && hv.evtchn.Waiting(caller, vcpu)
    then Success(Next(hv, Done))
    else SchedStep(hv, S.Op.Block(id, now))
  }

  function SetAffinity(hv: Hv, caller: nat, target: nat, vcpu: nat, affinity: nat): Answer {
    if target >= |hv.live| then Failure(BadDomain)
    else if caller != target && !C.Controls(hv.controls, caller, target) then Failure(Denied)
    else SchedStep(hv, S.Op.SetAffinity(S.Id(target, vcpu), affinity))
  }

  // ----- grants and pages -----

  function MapKind(writable: bool): P.Kind {
    if writable then P.Writable else P.Bare
  }

  /** Record the mapping, then take the reference that backs it. */
  function MapGrant(hv: Hv, caller: nat, grantor: nat, gref: nat, writable: bool): Answer {
    match hv.grant.GrantedFrame(grantor, gref)
    case None => Failure(GrantError(G.WrongState))
    case Some(frame) =>
      if hv.p2m.OwnerOf(frame) != Some(grantor) then Failure(StaleGrant) else
      var placed :- OfGrant(G.Map(hv.grant, caller, grantor, gref, writable));
      var p :- OfP2m(P.Acquire(hv.p2m, frame, MapKind(writable), 0));
      Success(Next(hv.(grant := placed.state, p2m := p), MapHandle(placed.handle)))
  }

  /** Give back the reference a mapping held. */
  function Mirrored(p: P.State, released: G.Unmapped): P.State {
    var r := P.Release(p, released.frame, MapKind(released.writable), 0);
    if r.Success? then r.value else p
  }

  function UnmapGrant(hv: Hv, caller: nat, handle: nat): Answer {
    var dropped :- OfGrant(G.Unmap(hv.grant, caller, handle));
    Success(Next(hv.(grant := dropped.state, p2m := Mirrored(hv.p2m, dropped.released)), Done))
  }

  function CopyGrant(hv: Hv, caller: nat, grantor: nat, gref: nat, writable: bool): Answer {
    var frame := hv.grant.GrantedFrame(grantor, gref);
    if frame.Some? && hv.p2m.OwnerOf(frame.value) != Some(grantor) then Failure(StaleGrant) else
    var _ :- OfGrant(G.Permitted(hv.grant, caller, grantor, gref, writable));
    Success(Next(hv, Done))
  }

  function Grant(hv: Hv, caller: nat, gref: nat, grantee: nat, frame: nat, readonly: bool): Answer {
    if hv.DeadTarget(grantee) then Failure(NotAlive) else
    var g :- OfGrant(G.GrantAccess(hv.grant, caller, gref, grantee, frame, readonly));
    Success(Next(hv.(grant := g), Done))
  }

  function EndGrant(hv: Hv, caller: nat, gref: nat): Answer {
    if hv.grant.Granted(caller, gref)
       && var e := hv.grant.entries[caller][gref]; P.ForeignLinkedBy(hv.p2m, e.frame, e.grantee)
    then Failure(GrantError(G.InUse)) else
    var g :- OfGrant(G.EndAccess(hv.grant, caller, gref));
    Success(Next(hv.(grant := g), Done))
  }

  /** An entry onto another domain's frame needs that domain's grant, at matching permission. */
  predicate LinkRefused(hv: Hv, caller: nat, op: P.Op) {
    && op.OpLink?
    && var owner := hv.p2m.OwnerOf(op.edge.child);
       owner.Some? && owner.value != caller
       && !G.Authorizes(hv.grant, owner.value, caller, op.edge.child, op.edge.writable)
  }

  function MemoryStep(hv: Hv, caller: nat, op: P.Op): Answer {
    if LinkRefused(hv, caller, op) then Failure(Unauthorized) else
    var p :- OfP2m(P.Step(hv.p2m, caller, op));
    Success(Next(hv.(p2m := p), Done))
  }

  // ----- lifecycle and authority -----

  function Set(flags: seq<bool>, d: nat, value: bool): seq<bool> {
    if d < |flags| then flags[d := value] else flags
  }

  function Create(hv: Hv, caller: nat, target: nat, mayCreate: bool): Answer {
    if target >= |hv.live| then Failure(BadDomain)
    else if !(caller < |hv.mayCreate| && hv.mayCreate[caller]) then Failure(Denied)
    else if hv.live[target] then Failure(AlreadyAlive)
    else Success(Next(hv.(live := Set(hv.live, target, true), mayCreate := Set(hv.mayCreate, target, mayCreate),
                          controls := C.Put(hv.controls, caller, target, C.Root)), Done))
  }

  /** The references mappings hold on a frame. */
  function LooseOf(g: G.State, m: nat): P.Counts {
    P.Counts(|G.Reaching(g, m, false)|, 0, |G.Reaching(g, m, true)|, 0)
  }

  function Backing(g: G.State, frames: nat): seq<P.Counts> {
    seq(frames, m requires 0 <= m < frames => LooseOf(g, m))
  }

  /** Teardown in one shot: what touches `target` goes, everything else stays. */
  function Destroyed(hv: Hv, target: nat, now: nat): Hv {
    var g := G.Teardown(hv.grant, target);
    Hv(E.Teardown(hv.evtchn, target), g, S.OfflineAll(hv.sched, target, now),
       P.Teardown(hv.p2m, target, Backing(g, |hv.p2m.pages|)), D.ReleaseAllOf(hv.device, target),
       Set(hv.live, target, false), Set(hv.mayCreate, target, false), C.Remove(hv.controls, target))
  }

  function Destroy(hv: Hv, caller: nat, target: nat, now: nat): Answer {
    if target >= |hv.live| then Failure(BadDomain)
    else if caller != target && !C.Controls(hv.controls, caller, target) then Failure(Denied)
    else Success(Next(Destroyed(hv, target, now), Done))
  }

  function Delegate(hv: Hv, caller: nat, target: nat, to: nat): Answer {
    if target >= |hv.live| || to >= |hv.live| then Failure(BadDomain)
    else if !C.Controls(hv.controls, caller, target) then Failure(Denied)
    else if to == target then Failure(Denied)
    else if !hv.live[to] then Failure(NotAlive)
    else if C.Controls(hv.controls, to, target) then Success(Next(hv, Done))
    else Success(Next(hv.(controls := C.Put(hv.controls, to, target, C.Via(caller))), Done))
  }

  function Revoke(hv: Hv, caller: nat, target: nat, from: nat): Answer {
    if target >= |hv.live| || from >= |hv.live| then Failure(BadDomain)
    else if !C.Controls(hv.controls, caller, target) then Failure(Denied)
    else if !C.Passes(C.ColumnOf(hv.controls, target), caller, from, |hv.live|) then Failure(Denied)
    else Success(Next(hv.(controls := C.Revoke(hv.controls, target, from)), Done))
  }

  function AssignDevice(hv: Hv, caller: nat, dev: nat, to: nat): Answer {
    if to >= |hv.live| then Failure(BadDomain)
    else if !C.Controls(hv.controls, caller, to) then Failure(Denied)
    else if hv.DeadTarget(to) then Failure(NotAlive)
    else
      var d :- OfDevice(D.Assign(hv.device, dev, to));
      Success(Next(hv.(device := d), Done))
  }

  function ReleaseDevice(hv: Hv, caller: nat, dev: nat, from: nat): Answer {
    if from >= |hv.live| then Failure(BadDomain)
    else if caller != from && !C.Controls(hv.controls, caller, from) then Failure(Denied)
    else
      var d :- OfDevice(D.Release(hv.device, dev, from));
      Success(Next(hv.(device := d), Done))
  }

  // ----- the dispatcher -----

  function Route(hv: Hv, caller: nat, call: Call): Answer {
    if caller >= |hv.live| then Failure(BadDomain)
    else if !hv.live[caller] then Failure(NotAlive)
    else
      match call
      case Event(op) => GuestEventStep(hv, caller, op)
      case GrantAccess(gref, grantee, frame, readonly) => Grant(hv, caller, gref, grantee, frame, readonly)
      case GrantEndAccess(gref) => EndGrant(hv, caller, gref)
      case GrantMap(grantor, gref, writable) => MapGrant(hv, caller, grantor, gref, writable)
      case GrantUnmap(handle) => UnmapGrant(hv, caller, handle)
      case GrantCopy(grantor, gref, writable) => CopyGrant(hv, caller, grantor, gref, writable)
      case Schedule(own) => SchedStep(hv, own.For(caller))
      case SchedBlock(vcpu, now) => Block(hv, caller, vcpu, now)
      case SchedSetAffinity(target, vcpu, affinity) => SetAffinity(hv, caller, target, vcpu, affinity)
      case Memory(op) => MemoryStep(hv, caller, op)
      case DomainCreate(target, mayCreate) => Create(hv, caller, target, mayCreate)
      case DomainDestroy(target, now) => Destroy(hv, caller, target, now)
      case ControlGrant(target, to) => Delegate(hv, caller, target, to)
      case ControlRevoke(target, from) => Revoke(hv, caller, target, from)
      case DeviceAssign(dev, to) => AssignDevice(hv, caller, dev, to)
      case DeviceRelease(dev, from) => ReleaseDevice(hv, caller, dev, from)
  }

  function RaiseVirq(hv: Hv, d: nat, vcpu: nat, virq: nat): Answer {
    var next :- EventStep(hv, d, E.OpRaiseVirq(vcpu, virq));
    var p := E.VirqPort(hv.evtchn.domains[d], vcpu, virq);
    Success(Next(next.hv, Raised(next.hv.evtchn.Has(d, p) && next.hv.evtchn.At(d, p).Deliverable())))
  }

  function Apply(hv: Hv, t: Transition): Answer {
    match t
    case Guest(caller, call) => Route(hv, caller, call)
    case RaiseVcpuVirq(d, vcpu, virq) => RaiseVirq(hv, d, vcpu, virq)
  }

  /** The state after a transition, accepted or refused. */
  function After(hv: Hv, t: Transition): Hv {
    var r := Apply(hv, t);
    if r.Success? then r.value.hv else hv
  }

  function RunAll(hv: Hv, ts: seq<Transition>): Hv
    decreases |ts|
  {
    if ts == [] then hv else RunAll(After(hv, ts[0]), ts[1..])
  }
}
