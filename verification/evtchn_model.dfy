/** Event channels: the signalling ports of every domain and the links between them. */
module EvtchnModel {
  import opened Basics

  datatype PortState =
    | Free
    | Unbound(awaited: nat)
    | Interdomain(remote: nat, remotePort: nat)
    | Virq(vcpu: nat, virq: nat)
    | Ipi(vcpu: nat)

  datatype Channel = Channel(state: PortState, pending: bool, masked: bool) {
    predicate Deliverable() {
      pending && !masked
    }

    /** The vCPU an event on this channel is for. */
    function Target(): Option<nat> {
      match state
      case Virq(vcpu, _) => Some(vcpu)
      case Ipi(vcpu) => Some(vcpu)
      case Interdomain(_, _) => Some(0)
      case Unbound(_) => Some(0)
      case Free => None
    }
  }

  const IDLE := Channel(Free, false, false)

  datatype Error = BadDomain | BadPort | NoFreePort | WrongState | VirqInUse

  datatype State = State(domains: seq<seq<Channel>>) {
    predicate Has(d: nat, p: nat) {
      d < |domains| && p < |domains[d]|
    }

    function At(d: nat, p: nat): Channel
      requires Has(d, p)
    {
      domains[d][p]
    }

    function With(d: nat, p: nat, c: Channel): State
      requires Has(d, p)
    {
      State(domains[d := domains[d][p := c]])
    }

    function Find(d: nat, p: nat): Result<Channel, Error> {
      if d >= |domains| then Failure(BadDomain)
      else if p >= |domains[d]| then Failure(BadPort)
      else Success(domains[d][p])
    }

    /** Whether some deliverable event of this domain is for this vCPU. */
    predicate Waiting(d: nat, vcpu: nat) {
      && d < |domains|
      && exists p | 0 <= p < |domains[d]| :: domains[d][p].Deliverable() && domains[d][p].Target() == Some(vcpu)
    }
  }

  function New(domains: nat, ports: nat): State {
    State(seq(domains, _ => seq(ports, _ => IDLE)))
  }

  // ----- the invariant -----

  /** A free port carries no signal; a link is mutual and never of a port with itself. */
  ghost predicate PortInv(s: State, d: nat, p: nat)
    requires s.Has(d, p)
  {
    var c := s.At(d, p);
    match c.state
    case Free => c == IDLE
    case Unbound(remote) => remote < |s.domains|
    case Interdomain(remote, q) =>
      s.Has(remote, q) && s.At(remote, q).state == Interdomain(d, p) && (remote, q) != (d, p)
    case Virq(vcpu, virq) =>
      forall r | 0 <= r < |s.domains[d]| :: s.domains[d][r].state == c.state ==> r == p
    case Ipi(_) => true
  }

  ghost predicate Inv(s: State) {
    forall d: nat, p: nat {:trigger s.Has(d, p)} | s.Has(d, p) :: PortInv(s, d, p)
  }

  lemma NewInv(domains: nat, ports: nat)
    ensures Inv(New(domains, ports))
  {
  }

  // ----- transitions -----

  /** The first port in a row that is free, or its length. */
  function FirstFree(row: seq<Channel>): (p: nat)
    ensures p <= |row|
    ensures p < |row| ==> row[p].state.Free?
    ensures forall q | 0 <= q < p :: !row[q].state.Free?
  {
    if row == [] then 0 else if row[0].state.Free? then 0 else
    var p := FirstFree(row[1..]);
    assert forall q | 1 <= q < 1 + p :: row[q] == row[1..][q - 1];
    1 + p
  }

  function FindFree(s: State, d: nat): Result<nat, Error> {
    if d >= |s.domains| then Failure(BadDomain) else
    var p := FirstFree(s.domains[d]);
    if p == |s.domains[d]| then Failure(NoFreePort) else Success(p)
  }

  datatype Bound = Bound(state: State, port: nat)

  /** Reserve a free port as something, leaving its signals as they are. */
  function Reserve(s: State, d: nat, as_: PortState): Result<Bound, Error> {
    var p :- FindFree(s, d);
    Success(Bound(s.With(d, p, s.At(d, p).(state := as_)), p))
  }

  function AllocUnbound(s: State, d: nat, remote: nat): Result<Bound, Error> {
    if remote >= |s.domains| then Failure(BadDomain) else Reserve(s, d, Unbound(remote))
  }

  function BindInterdomain(s: State, d: nat, remote: nat, q: nat): Result<Bound, Error> {
    var peer :- s.Find(remote, q);
    if peer.state != Unbound(d) then Failure(WrongState) else
    var p :- FindFree(s, d);
    Success(Bound(s.With(d, p, Channel(Interdomain(remote, q), false, false))
                   .With(remote, q, Channel(Interdomain(d, p), false, false)), p))
  }

  /** The port a virtual interrupt of a vCPU is bound to, or the row's length. */
  function VirqPort(row: seq<Channel>, vcpu: nat, virq: nat): (p: nat)
    ensures p <= |row|
    ensures p < |row| ==> row[p].state == Virq(vcpu, virq)
    ensures forall q | 0 <= q < p :: row[q].state != Virq(vcpu, virq)
  {
    if row == [] then 0 else if row[0].state == Virq(vcpu, virq) then 0 else
    var p := VirqPort(row[1..], vcpu, virq);
    assert forall q | 1 <= q < 1 + p :: row[q] == row[1..][q - 1];
    1 + p
  }

  function BindVirq(s: State, d: nat, vcpu: nat, virq: nat): Result<Bound, Error> {
    if d >= |s.domains| then Failure(BadDomain)
    else if VirqPort(s.domains[d], vcpu, virq) < |s.domains[d]| then Failure(VirqInUse)
    else Reserve(s, d, Virq(vcpu, virq))
  }

  function BindIpi(s: State, d: nat, vcpu: nat): Result<Bound, Error> {
    Reserve(s, d, Ipi(vcpu))
  }

  /** Closing one end of a link leaves the other waiting for the closer. */
  function Close(s: State, d: nat, p: nat): Result<State, Error> {
    var c :- s.Find(d, p);
    match c.state
    case Free => Failure(WrongState)
    case Interdomain(remote, q) =>
      var s1 := if s.Has(remote, q) then s.With(remote, q, Channel(Unbound(d), false, false)) else s;
      Success(s1.With(d, p, IDLE))
    case _ => Success(s.With(d, p, IDLE))
  }

  /** Where a send on this port lands. */
  function SendTarget(s: State, d: nat, p: nat): Option<(nat, nat)> {
    if !s.Has(d, p) then None else
    match s.At(d, p).state
    case Interdomain(remote, q) => Some((remote, q))
    case Ipi(_) => Some((d, p))
    case _ => None
  }

  function Pend(s: State, d: nat, p: nat): State {
    if s.Has(d, p) then s.With(d, p, s.At(d, p).(pending := true)) else s
  }

  function Send(s: State, d: nat, p: nat): Result<State, Error> {
    var _ :- s.Find(d, p);
    match SendTarget(s, d, p)
    case None => Failure(WrongState)
    case Some(target) => Success(Pend(s, target.0, target.1))
  }

  function RaiseVirq(s: State, d: nat, vcpu: nat, virq: nat): Result<Bound, Error> {
    if d >= |s.domains| then Failure(BadDomain) else
    var p := VirqPort(s.domains[d], vcpu, virq);
    if p == |s.domains[d]| then Failure(WrongState) else Success(Bound(Pend(s, d, p), p))
  }

  function SetMasked(s: State, d: nat, p: nat, masked: bool): Result<State, Error> {
    var c :- s.Find(d, p);
    if c.state.Free? then Failure(WrongState) else Success(s.With(d, p, c.(masked := masked)))
  }

  datatype Consumed = Consumed(state: State, pending: bool)

  function Consume(s: State, d: nat, p: nat): Result<Consumed, Error> {
    var c :- s.Find(d, p);
    if c.state.Free? then Failure(WrongState)
    else Success(Consumed(s.With(d, p, c.(pending := false)), c.pending))
  }

  // ----- teardown, in one shot -----

  /** What becomes of one channel when `dom` closes all its ports. */
  function Hungup(c: Channel, own: bool, dom: nat): Channel {
    if own then IDLE
    else if c.state.Interdomain? && c.state.remote == dom then Channel(Unbound(dom), false, false)
    else c
  }

  function CloseAll(s: State, dom: nat): State {
    State(seq(|s.domains|, d requires 0 <= d < |s.domains| =>
      seq(|s.domains[d]|, p requires 0 <= p < |s.domains[d]| => Hungup(s.domains[d][p], d == dom, dom))))
  }

  /** No port anywhere waits for `target` any more. */
  function ClearUnboundInto(s: State, target: nat): State {
    State(seq(|s.domains|, d requires 0 <= d < |s.domains| =>
      seq(|s.domains[d]|, p requires 0 <= p < |s.domains[d]| =>
        if s.domains[d][p].state == Unbound(target) then IDLE else s.domains[d][p])))
  }

  function Teardown(s: State, dom: nat): State {
    ClearUnboundInto(CloseAll(s, dom), dom)
  }

  // ----- one dispatcher -----

  datatype Op =
    | OpAllocUnbound(remote: nat)
    | OpBindInterdomain(remote: nat, port: nat)
    | OpBindVirq(vcpu: nat, virq: nat)
    | OpBindIpi(vcpu: nat)
    | OpClose(port: nat)
    | OpSend(port: nat)
    | OpSetMasked(port: nat, masked: bool)
    | OpConsume(port: nat)
    | OpRaiseVirq(vcpu: nat, virq: nat)

  datatype Answer = Nothing | AtPort(port: nat) | WasPending(pending: bool)

  datatype Stepped = Stepped(state: State, answer: Answer)

  /** An operation by domain `d`. */
  function Step(s: State, d: nat, op: Op): Result<Stepped, Error> {
    match op
    case OpAllocUnbound(remote) => var b :- AllocUnbound(s, d, remote); Success(Stepped(b.state, AtPort(b.port)))
    case OpBindInterdomain(remote, q) =>
      var b :- BindInterdomain(s, d, remote, q);
      Success(Stepped(b.state, AtPort(b.port)))
    case OpBindVirq(vcpu, virq) => var b :- BindVirq(s, d, vcpu, virq); Success(Stepped(b.state, AtPort(b.port)))
    case OpBindIpi(vcpu) => var b :- BindIpi(s, d, vcpu); Success(Stepped(b.state, AtPort(b.port)))
    case OpClose(p) => var s' :- Close(s, d, p); Success(Stepped(s', Nothing))
    case OpSend(p) => var s' :- Send(s, d, p); Success(Stepped(s', Nothing))
    case OpSetMasked(p, masked) => var s' :- SetMasked(s, d, p, masked); Success(Stepped(s', Nothing))
    case OpConsume(p) => var c :- Consume(s, d, p); Success(Stepped(c.state, WasPending(c.pending)))
    case OpRaiseVirq(vcpu, virq) => var b :- RaiseVirq(s, d, vcpu, virq); Success(Stepped(b.state, AtPort(b.port)))
  }

  ghost predicate SameShape(s: State, s': State) {
    && |s'.domains| == |s.domains|
    && (forall d | 0 <= d < |s.domains| :: |s'.domains[d]| == |s.domains[d]|)
  }

  lemma PortAt(s: State, d: nat, p: nat)
    requires Inv(s) && s.Has(d, p)
    ensures PortInv(s, d, p)
  {
  }

  /** A free port found is idle. */
  lemma FoundIdle(s: State, d: nat)
    requires Inv(s) && FindFree(s, d).Success?
    ensures s.Has(d, FindFree(s, d).value) && s.At(d, FindFree(s, d).value) == IDLE
  {
    PortAt(s, d, FindFree(s, d).value);
  }

  /** Rewriting the signals of a bound port. */
  lemma SignalKeepsInv(s: State, d: nat, p: nat, c: Channel)
    requires Inv(s) && s.Has(d, p) && c.state == s.At(d, p).state && !c.state.Free?
    ensures Inv(s.With(d, p, c))
  {
    var s' := s.With(d, p, c);
    forall x: nat, y: nat | s'.Has(x, y)
      ensures PortInv(s', x, y)
    {
      PortAt(s, x, y);
    }
  }

  /** Rewriting a port that is not linked into one that is not linked. */
  lemma UnlinkedKeepsInv(s: State, d: nat, p: nat, c: Channel)
    requires Inv(s) && s.Has(d, p) && !s.At(d, p).state.Interdomain? && !c.state.Interdomain?
    requires c.state.Free? ==> c == IDLE
    requires c.state.Unbound? ==> c.state.awaited < |s.domains|
    requires c.state.Virq? ==> forall r | 0 <= r < |s.domains[d]| :: s.domains[d][r].state != c.state
    ensures Inv(s.With(d, p, c))
  {
    var s' := s.With(d, p, c);
    forall x: nat, y: nat | s'.Has(x, y)
      ensures PortInv(s', x, y)
    {
      PortAt(s, x, y);
    }
  }

  lemma BindInterdomainKeepsInv(s: State, d: nat, remote: nat, q: nat)
    requires Inv(s) && BindInterdomain(s, d, remote, q).Success?
    ensures Inv(BindInterdomain(s, d, remote, q).value.state)
  {
    var s' := BindInterdomain(s, d, remote, q).value.state;
    forall x: nat, y: nat | s'.Has(x, y)
      ensures PortInv(s', x, y)
    {
      PortAt(s, x, y);
    }
  }

  lemma CloseKeepsInv(s: State, d: nat, p: nat)
    requires Inv(s) && Close(s, d, p).Success?
    ensures Inv(Close(s, d, p).value)
  {
    PortAt(s, d, p);
    var s' := Close(s, d, p).value;
    forall x: nat, y: nat | s'.Has(x, y)
      ensures PortInv(s', x, y)
    {
      PortAt(s, x, y);
    }
  }

  lemma StepKeepsInv(s: State, d: nat, op: Op)
    requires Inv(s) && Step(s, d, op).Success?
    ensures Inv(Step(s, d, op).value.state) && SameShape(s, Step(s, d, op).value.state)
  {
    match op
    case OpAllocUnbound(remote) =>
      FoundIdle(s, d);
      UnlinkedKeepsInv(s, d, FindFree(s, d).value, Channel(Unbound(remote), false, false));
    case OpBindInterdomain(remote, q) => BindInterdomainKeepsInv(s, d, remote, q);
    case OpBindVirq(vcpu, virq) =>
      FoundIdle(s, d);
      UnlinkedKeepsInv(s, d, FindFree(s, d).value, Channel(Virq(vcpu, virq), false, false));
    case OpBindIpi(vcpu) =>
      FoundIdle(s, d);
      UnlinkedKeepsInv(s, d, FindFree(s, d).value, Channel(Ipi(vcpu), false, false));
    case OpClose(p) => CloseKeepsInv(s, d, p);
    case OpSend(p) =>
      var t := SendTarget(s, d, p).value;
      PortAt(s, d, p);
      SignalKeepsInv(s, t.0, t.1, s.At(t.0, t.1).(pending := true));
    case OpSetMasked(p, masked) => SignalKeepsInv(s, d, p, s.At(d, p).(masked := masked));
    case OpConsume(p) => SignalKeepsInv(s, d, p, s.At(d, p).(pending := false));
    case OpRaiseVirq(vcpu, virq) =>
      var p := VirqPort(s.domains[d], vcpu, virq);
      SignalKeepsInv(s, d, p, s.At(d, p).(pending := true));
  }

  // ----- what one call means for the next -----

  /** Closing a port that was just reserved undoes the reservation. */
  lemma ReserveThenClose(s: State, d: nat, as_: PortState)
    requires Inv(s) && Reserve(s, d, as_).Success? && !as_.Interdomain? && !as_.Free?
    ensures var b := Reserve(s, d, as_).value; Close(b.state, d, b.port) == Success(s)
  {
    FoundIdle(s, d);
    var b := Reserve(s, d, as_).value;
    forall x: nat | x < |s.domains|
      ensures Close(b.state, d, b.port).value.domains[x] == s.domains[x]
    {
    }
    assert Close(b.state, d, b.port).value.domains == s.domains;
  }

  /** Closing a fresh link leaves the peer waiting as before, with its signals cleared. */
  lemma BindThenClose(s: State, d: nat, remote: nat, q: nat)
    requires Inv(s) && BindInterdomain(s, d, remote, q).Success?
    ensures var b := BindInterdomain(s, d, remote, q).value;
            && Close(b.state, d, b.port) == Success(s.With(remote, q, Channel(Unbound(d), false, false)))
            && (s.At(remote, q) == Channel(Unbound(d), false, false) ==> Close(b.state, d, b.port) == Success(s))
  {
    FoundIdle(s, d);
    var b := BindInterdomain(s, d, remote, q).value;
    var t, u := Close(b.state, d, b.port).value, s.With(remote, q, Channel(Unbound(d), false, false));
    forall x: nat | x < |s.domains|
      ensures t.domains[x] == u.domains[x]
    {
    }
    assert t.domains == u.domains;
    assert s.At(remote, q) == Channel(Unbound(d), false, false) ==>
             u.domains[remote] == s.domains[remote] && u.domains == s.domains;
  }

  /** A send over a link is seen once by the peer: the first consume reports it, the next does not,
      and the sender's own port is untouched. */
  lemma SendThenConsume(s: State, d: nat, p: nat)
    requires Inv(s) && s.Has(d, p) && s.At(d, p).state.Interdomain?
    ensures Send(s, d, p).Success?
    ensures var (r, q) := (s.At(d, p).state.remote, s.At(d, p).state.remotePort);
            var s1 := Send(s, d, p).value;
            && Consume(s1, r, q).Success? && Consume(s1, r, q).value.pending
            && Consume(Consume(s1, r, q).value.state, r, q).Success?
            && !Consume(Consume(s1, r, q).value.state, r, q).value.pending
            && s1.Has(d, p) && s1.At(d, p) == s.At(d, p)
  {
  }

  // ----- silence and loudness -----

  /** Nothing of `x` is open and nobody waits for `x`. */
  ghost predicate Silent(s: State, x: nat) {
    forall d: nat, p: nat {:trigger s.Has(d, p)} | s.Has(d, p) ::
      (d == x ==> s.At(d, p).state.Free?) && s.At(d, p).state != Unbound(x)
  }

  lemma SilentAt(s: State, x: nat, d: nat, p: nat)
    requires Silent(s, x) && s.Has(d, p)
    ensures (d == x ==> s.At(d, p).state.Free?) && s.At(d, p).state != Unbound(x)
  {
  }

  lemma KeepsSilent(s: State, s': State, x: nat)
    requires Silent(s, x) && SameShape(s, s')
    requires forall d: nat, p: nat {:trigger s'.domains[d][p]} | s.Has(d, p) ::
               s'.domains[d][p].state == s.domains[d][p].state
               || ((d == x ==> !s.domains[d][p].state.Free?) && s'.domains[d][p].state != Unbound(x))
    ensures Silent(s', x)
  {
  }

  /** The one port an operation may make deliverable. */
  function Notified(s: State, d: nat, op: Op): Option<(nat, nat)> {
    match op
    case OpSend(p) => SendTarget(s, d, p)
    case OpSetMasked(p, masked) => if masked then None else Some((d, p))
    case OpRaiseVirq(vcpu, virq) => if d < |s.domains| then Some((d, VirqPort(s.domains[d], vcpu, virq))) else None
    case _ => None
  }

  /** A send does not change where the sender's port leads. */
  lemma SendTargetStays(s: State, d: nat, p: nat)
    requires Send(s, d, p).Success?
    ensures SendTarget(Send(s, d, p).value, d, p) == SendTarget(s, d, p)
  {
  }

  /** Apart from the notified port, an event deliverable after a step was deliverable before it,
      to the same vCPU. */
  ghost predicate NoLouder(s: State, s': State, notified: Option<(nat, nat)>) {
    forall d: nat, p: nat {:trigger s'.Has(d, p)} | s'.Has(d, p) && s'.At(d, p).Deliverable()
        && notified != Some((d, p)) ::
      s.Has(d, p) && s.At(d, p).Deliverable() && s.At(d, p).Target() == s'.At(d, p).Target()
  }

  /** What an operation by `d` means to others: it makes nothing deliverable except at the
      notified port, and a silent domain stays silent unless it is the one invited. */
  ghost predicate Discreet(s: State, s': State, d: nat, invited: Option<nat>, notified: Option<(nat, nat)>) {
    && NoLouder(s, s', notified)
    && forall x: nat {:trigger Silent(s', x)} | x != d && invited != Some(x) && Silent(s, x) :: Silent(s', x)
  }

  lemma ReserveIsDiscreet(s: State, d: nat, as_: PortState)
    requires Inv(s) && Reserve(s, d, as_).Success? && !as_.Free?
    ensures Discreet(s, Reserve(s, d, as_).value.state, d, if as_.Unbound? then Some(as_.awaited) else None, None)
  {
    FoundIdle(s, d);
    forall x: nat | x != d && as_ != Unbound(x) && Silent(s, x)
      ensures Silent(Reserve(s, d, as_).value.state, x)
    {
      KeepsSilent(s, Reserve(s, d, as_).value.state, x);
    }
  }

  lemma BindIsDiscreet(s: State, d: nat, remote: nat, q: nat)
    requires Inv(s) && BindInterdomain(s, d, remote, q).Success?
    ensures Discreet(s, BindInterdomain(s, d, remote, q).value.state, d, None, None)
  {
    forall x: nat | x != d && Silent(s, x)
      ensures Silent(BindInterdomain(s, d, remote, q).value.state, x)
    {
      KeepsSilent(s, BindInterdomain(s, d, remote, q).value.state, x);
    }
  }

  lemma CloseIsDiscreet(s: State, d: nat, p: nat)
    requires Inv(s) && Close(s, d, p).Success?
    ensures Discreet(s, Close(s, d, p).value, d, None, None)
  {
    PortAt(s, d, p);
    forall x: nat | x != d && Silent(s, x)
      ensures Silent(Close(s, d, p).value, x)
    {
      KeepsSilent(s, Close(s, d, p).value, x);
    }
  }

  lemma SignalIsDiscreet(s: State, d: nat, p: nat, c: Channel, by_: nat)
    requires s.Has(d, p) && c.state == s.At(d, p).state && !c.state.Free?
    ensures Discreet(s, s.With(d, p, c), by_, None,
                     if c.Deliverable() && !s.At(d, p).Deliverable() then Some((d, p)) else None)
  {
    forall x: nat | Silent(s, x)
      ensures Silent(s.With(d, p, c), x)
    {
      KeepsSilent(s, s.With(d, p, c), x);
    }
  }

  function Invited(op: Op): Option<nat> {
    if op.OpAllocUnbound? then Some(op.remote) else None
  }

  lemma StepIsDiscreet(s: State, d: nat, op: Op)
    requires Inv(s) && Step(s, d, op).Success?
    ensures Discreet(s, Step(s, d, op).value.state, d, Invited(op), Notified(s, d, op))
  {
    match op
    case OpAllocUnbound(remote) => ReserveIsDiscreet(s, d, Unbound(remote));
    case OpBindInterdomain(remote, q) => BindIsDiscreet(s, d, remote, q);
    case OpBindVirq(vcpu, virq) => ReserveIsDiscreet(s, d, Virq(vcpu, virq));
    case OpBindIpi(vcpu) => ReserveIsDiscreet(s, d, Ipi(vcpu));
    case OpClose(p) => CloseIsDiscreet(s, d, p);
    case OpSend(p) =>
      var t := SendTarget(s, d, p).value;
      PortAt(s, d, p);
      SignalIsDiscreet(s, t.0, t.1, s.At(t.0, t.1).(pending := true), d);
    case OpSetMasked(p, masked) => SignalIsDiscreet(s, d, p, s.At(d, p).(masked := masked), d);
    case OpConsume(p) => SignalIsDiscreet(s, d, p, s.At(d, p).(pending := false), d);
    case OpRaiseVirq(vcpu, virq) =>
      var p := VirqPort(s.domains[d], vcpu, virq);
      SignalIsDiscreet(s, d, p, s.At(d, p).(pending := true), d);
  }

  /** What port `p` of `x` holds after an operation by `d`, seen from `x`: a link to `d` hears a send
      and a close at its far end, an invitation to `d` becomes a link when `d` takes it up, and the
      port a virtual interrupt is bound to hears the interrupt. */
  function Heard(s: State, d: nat, op: Op, x: nat, p: nat): Channel
    requires s.Has(x, p)
  {
    var c := s.At(x, p);
    match c.state
    case Interdomain(remote, q) =>
      if remote == d && op == OpSend(q) then c.(pending := true)
      else if remote == d && op == OpClose(q) then Channel(Unbound(d), false, false)
      else c
    case Unbound(remote) =>
      if remote == d && op == OpBindInterdomain(x, p) && FindFree(s, d).Success?
      then Channel(Interdomain(d, FindFree(s, d).value), false, false) else c
    case Virq(vcpu, virq) => if x == d && op == OpRaiseVirq(vcpu, virq) then c.(pending := true) else c
    case _ => c
  }

  /** An operation by another domain, or an interrupt, leaves every port of `x` as `x` hears it. */
  lemma OthersHear(s: State, d: nat, op: Op, x: nat, p: nat)
    requires Inv(s) && Step(s, d, op).Success? && s.Has(x, p) && (x != d || op.OpRaiseVirq?)
    ensures Step(s, d, op).value.state.Has(x, p)
    ensures Step(s, d, op).value.state.At(x, p) == Heard(s, d, op, x, p)
  {
    hide Inv, PortInv;
    match op
    case OpBindInterdomain(remote, q) => BindIsHeard(s, d, remote, q, x, p);
    case OpClose(q) => CloseIsHeard(s, d, q, x, p);
    case OpSend(q) => SendIsHeard(s, d, q, x, p);
    case OpRaiseVirq(vcpu, virq) => RaiseIsHeard(s, d, vcpu, virq, x, p);
    case _ =>
  }

  lemma BindIsHeard(s: State, d: nat, remote: nat, q: nat, x: nat, p: nat)
    requires x != d && s.Has(x, p) && BindInterdomain(s, d, remote, q).Success?
    ensures BindInterdomain(s, d, remote, q).value.state.Has(x, p)
    ensures BindInterdomain(s, d, remote, q).value.state.At(x, p) == Heard(s, d, OpBindInterdomain(remote, q), x, p)
  {
  }

  lemma CloseIsHeard(s: State, d: nat, q: nat, x: nat, p: nat)
    requires Inv(s) && x != d && s.Has(x, p) && Close(s, d, q).Success?
    ensures Close(s, d, q).value.Has(x, p) && Close(s, d, q).value.At(x, p) == Heard(s, d, OpClose(q), x, p)
  {
    PortAt(s, x, p);
    PortAt(s, d, q);
  }

  lemma SendIsHeard(s: State, d: nat, q: nat, x: nat, p: nat)
    requires Inv(s) && x != d && s.Has(x, p) && Send(s, d, q).Success?
    ensures Send(s, d, q).value.Has(x, p) && Send(s, d, q).value.At(x, p) == Heard(s, d, OpSend(q), x, p)
  {
    PortAt(s, x, p);
    PortAt(s, d, q);
  }

  lemma RaiseIsHeard(s: State, d: nat, vcpu: nat, virq: nat, x: nat, p: nat)
    requires Inv(s) && s.Has(x, p) && RaiseVirq(s, d, vcpu, virq).Success?
    ensures RaiseVirq(s, d, vcpu, virq).value.state.Has(x, p)
    ensures RaiseVirq(s, d, vcpu, virq).value.state.At(x, p) == Heard(s, d, OpRaiseVirq(vcpu, virq), x, p)
  {
    PortAt(s, d, VirqPort(s.domains[d], vcpu, virq));
  }

  // ----- teardown -----

  /** Closing part way: the domain's first `n` ports are idle; the far end of each link from them
      waits for the domain, or is idle if it was one of them; everything else is as it was. */
  ghost predicate ClosedUpTo(s: State, t: State, dom: nat, n: nat) {
    && SameShape(s, t)
    && forall d: nat, p: nat {:trigger t.domains[d][p]} | s.Has(d, p) ::
         var c := s.At(d, p);
         t.domains[d][p] == if d == dom && p < n then IDLE
                            else if c.state.Interdomain? && c.state.remote == dom && c.state.remotePort < n
                            then Channel(Unbound(dom), false, false) else c
  }

  lemma ClosedNone(s: State, dom: nat)
    ensures ClosedUpTo(s, s, dom, 0)
  {
  }

  lemma ClosedNext(s: State, t: State, t': State, dom: nat, n: nat)
    requires Inv(s) && Inv(t) && ClosedUpTo(s, t, dom, n) && t.Has(dom, n)
    requires t' == if t.At(dom, n).state.Free? then t else Close(t, dom, n).value
    ensures ClosedUpTo(s, t', dom, n + 1)
  {
  }

  lemma ClosedEvery(s: State, t: State, dom: nat)
    requires Inv(s) && ClosedUpTo(s, t, dom, if dom < |s.domains| then |s.domains[dom]| else 0)
    ensures t == CloseAll(s, dom)
  {
    forall d: nat | d < |s.domains|
      ensures t.domains[d] == CloseAll(s, dom).domains[d]
    {
      forall p: nat | p < |s.domains[d]|
        ensures t.domains[d][p] == CloseAll(s, dom).domains[d][p]
      {
        PortAt(s, d, p);
      }
    }
    assert t.domains == CloseAll(s, dom).domains;
  }

  lemma TeardownShape(s: State, dom: nat)
    ensures SameShape(s, CloseAll(s, dom)) && SameShape(s, Teardown(s, dom))
  {
  }

  lemma CloseAllKeepsInv(s: State, dom: nat)
    requires Inv(s)
    ensures Inv(CloseAll(s, dom))
  {
    var s' := CloseAll(s, dom);
    forall x: nat, y: nat | s'.Has(x, y)
      ensures PortInv(s', x, y)
    {
      PortAt(s, x, y);
    }
  }

  lemma ClearUnboundKeepsInv(s: State, dom: nat)
    requires Inv(s)
    ensures Inv(ClearUnboundInto(s, dom))
  {
    var s' := ClearUnboundInto(s, dom);
    forall x: nat, y: nat | s'.Has(x, y)
      ensures PortInv(s', x, y)
    {
      PortAt(s, x, y);
    }
  }

  /** Teardown frees the domain's own ports, the far ends of its links and the ports awaiting it,
      and touches no other port. */
  lemma TeardownExact(s: State, dom: nat, d: nat, p: nat)
    requires s.Has(d, p)
    ensures Teardown(s, dom).Has(d, p)
    ensures var state := s.At(d, p).state;
            Teardown(s, dom).At(d, p)
            == if d == dom || (state.Interdomain? && state.remote == dom) || state == Unbound(dom) then IDLE
               else s.At(d, p)
  {
  }

  lemma TeardownKeepsInv(s: State, dom: nat)
    requires Inv(s)
    ensures Inv(Teardown(s, dom)) && Silent(Teardown(s, dom), dom) && NoLouder(s, Teardown(s, dom), None)
  {
    CloseAllKeepsInv(s, dom);
    ClearUnboundKeepsInv(CloseAll(s, dom), dom);
    var s' := Teardown(s, dom);
    forall d: nat, p: nat | s'.Has(d, p)
      ensures s.Has(d, p)
      ensures (d == dom ==> s'.At(d, p).state.Free?) && s'.At(d, p).state != Unbound(dom)
      ensures s'.At(d, p) == IDLE || s'.At(d, p) == s.At(d, p)
    {
      assert s.Has(d, p);
      TeardownExact(s, dom, d, p);
    }
  }

  lemma TeardownKeepsSilent(s: State, dom: nat, x: nat)
    requires Silent(s, x)
    ensures Silent(Teardown(s, dom), x)
  {
    var s' := Teardown(s, dom);
    forall d: nat, p: nat | s'.Has(d, p)
      ensures (d == x ==> s'.At(d, p).state.Free?) && s'.At(d, p).state != Unbound(x)
    {
      SilentAt(s, x, d, p);
      TeardownExact(s, dom, d, p);
    }
  }
}
