/** What a domain cannot do to another without control over it. */
module HypervisorAuthority {
  import opened Basics
  import opened HypervisorModel
  import opened HypervisorSafety
  import opened HypervisorTheorems
  import E = EvtchnModel
  import G = GrantModel
  import S = SchedModel
  import P = P2mModel
  import C = ControlModel

  // ----- a bystander, part by part; `dying` is the domain a destroy takes, if any -----

  /** The vCPUs of `x` are as they were, except that a sleeping one may have been woken. */
  ghost predicate OnlyWoken(s: S.State, s': S.State, x: nat) {
    forall v: nat {:trigger s'.Has(S.Id(x, v))} | s.Has(S.Id(x, v)) ::
      s'.Has(S.Id(x, v))
      && (s'.At(S.Id(x, v)) == s.At(S.Id(x, v))
          || (s.At(S.Id(x, v)).state.Blocked? && s'.At(S.Id(x, v)) == s.At(S.Id(x, v)).(state := S.Runnable)))
  }

  /** `x` owns the same frames, with the same pins, and its tables hold the same entries but for
      those onto a dying domain's frames. */
  ghost predicate PagesSpared(p: P.State, p': P.State, x: nat, dying: Option<nat>) {
    && (forall m: nat {:trigger p'.OwnerOf(m)} :: p'.OwnerOf(m) == Some(x) <==> p.OwnerOf(m) == Some(x))
    && (forall m: nat {:trigger p'.OwnerOf(m)} | p.OwnerOf(m) == Some(x) && p'.OwnerOf(m) == Some(x) ::
          p'.pages[m].pinned == p.pages[m].pinned)
    && (forall k | k in p.links && p.OwnerOf(k.parent) == Some(x) ::
          k in p'.links <==> dying.None? || p.OwnerOf(p.links[k].child) != dying)
    && (forall k | k in p'.links && p.OwnerOf(k.parent) == Some(x) :: k in p.links && p'.links[k] == p.links[k])
  }

  /** `x` offers the same grants but for those to a dying domain, and holds the same mappings but
      for those of a dying domain's grants. */
  ghost predicate GrantsSpared(g: G.State, g': G.State, x: nat, dying: Option<nat>) {
    && (forall r: nat {:trigger g'.Granted(x, r)} ::
          g'.Granted(x, r) <==> g.Granted(x, r) && dying != Some(g.entries[x][r].grantee))
    && (forall r: nat {:trigger g'.Granted(x, r)} | g.Granted(x, r) && g'.Granted(x, r) ::
          g'.entries[x][r] == g.entries[x][r])
    && (forall h: G.Handle {:trigger h in g'.maps} | h.grantee == x ::
          h in g'.maps <==> h in g.maps && dying != Some(g.maps[h].grantor))
    && (forall h: G.Handle {:trigger h in g'.maps} | h.grantee == x && h in g.maps && h in g'.maps ::
          g'.maps[h] == g.maps[h])
  }

  ghost predicate DevicesSpared(a: seq<Option<nat>>, b: seq<Option<nat>>, x: nat) {
    |b| == |a| && forall i | 0 <= i < |a| :: b[i] == Some(x) <==> a[i] == Some(x)
  }

  /** Every domain has the right over `x` it had, from whom it had it, but for a dying domain and
      those that had it through the dying domain. */
  ghost predicate RightsSpared(c: C.Matrix, c': C.Matrix, x: nat, dying: Option<nat>) {
    forall h: nat {:trigger C.Cell(c', h, x)} ::
      C.Cell(c', h, x) == if dying.Some? && C.Under(C.ColumnOf(c, x), dying.value, h) then C.Absent else C.Cell(c, h, x)
  }

  /** Every port of `x` is as it was, but for one linked to a dying domain or awaiting it, which is
      closed, and for one that hears an event operation. */
  ghost predicate PortsSpared(e: E.State, e': E.State, x: nat, dying: Option<nat>, signal: Option<(nat, E.Op)>) {
    && (forall p: nat {:trigger e'.Has(x, p)} :: e'.Has(x, p) <==> e.Has(x, p))
    && (forall p: nat {:trigger e'.At(x, p)} | e.Has(x, p) && e'.Has(x, p) ::
          e'.At(x, p) == if dying.Some? && TiedTo(e.At(x, p), dying.value) then E.IDLE
                         else if signal.Some? then E.Heard(e, signal.value.0, signal.value.1, x, p)
                         else e.At(x, p))
  }

  predicate TiedTo(c: E.Channel, d: nat) {
    c.state == E.Unbound(d) || (c.state.Interdomain? && c.state.remote == d)
  }

  ghost predicate Spared(hv: Hv, hv': Hv, x: nat, dying: Option<nat>, signal: Option<(nat, E.Op)>) {
    && hv'.IsLive(x) == hv.IsLive(x)
    && (x < |hv'.mayCreate| && hv'.mayCreate[x]) == (x < |hv.mayCreate| && hv.mayCreate[x])
    && PagesSpared(hv.p2m, hv'.p2m, x, dying)
    && GrantsSpared(hv.grant, hv'.grant, x, dying)
    && DevicesSpared(hv.device.holders, hv'.device.holders, x)
    && RightsSpared(hv.controls, hv'.controls, x, dying)
    && OnlyWoken(hv.sched, hv'.sched, x)
    && PortsSpared(hv.evtchn, hv'.evtchn, x, dying, signal)
  }

  /** What does not change is spared. */
  lemma Unchanged(hv: Hv, x: nat)
    ensures PagesSpared(hv.p2m, hv.p2m, x, None) && GrantsSpared(hv.grant, hv.grant, x, None)
    ensures DevicesSpared(hv.device.holders, hv.device.holders, x) && RightsSpared(hv.controls, hv.controls, x, None)
    ensures OnlyWoken(hv.sched, hv.sched, x) && PortsSpared(hv.evtchn, hv.evtchn, x, None, None)
  {
  }

  // ----- vCPUs -----

  lemma RowIsOnlyWoken(s: S.State, s': S.State, x: nat)
    requires x < |s.domains| ==> x < |s'.domains| && s'.domains[x] == s.domains[x]
    ensures OnlyWoken(s, s', x)
  {
  }

  lemma WakeIsOnlyWoken(e: E.State, s: S.State, port: Option<(nat, nat)>, x: nat)
    ensures OnlyWoken(s, WokenBy(e, s, port), x)
  {
    var s' := WokenBy(e, s, port);
    if s' != s {
      var op := S.Op.Wake(S.Id(port.value.0, e.At(port.value.0, port.value.1).Target().value));
      assert S.Step(s, op).Success? && s' == S.Step(s, op).value;
      forall v: nat | s.Has(S.Id(x, v))
        ensures s'.Has(S.Id(x, v))
        ensures S.Id(x, v) != op.id ==> s'.At(S.Id(x, v)) == s.At(S.Id(x, v))
      {
        S.StepTouchesOne(s, op, S.Id(x, v));
      }
    }
  }

  lemma SignalSparesPorts(e: E.State, d: nat, op: E.Op, x: nat)
    requires E.Inv(e) && E.Step(e, d, op).Success? && (x != d || op.OpRaiseVirq?)
    ensures PortsSpared(e, E.Step(e, d, op).value.state, x, None, Some((d, op)))
  {
    var e' := E.Step(e, d, op).value.state;
    E.StepKeepsInv(e, d, op);
    hide E.Step, E.Inv, E.Heard;
    forall p: nat | e.Has(x, p)
      ensures e'.Has(x, p) && e'.At(x, p) == E.Heard(e, d, op, x, p)
    {
      E.OthersHear(e, d, op, x, p);
    }
  }

  lemma EventSpares(hv: Hv, d: nat, op: E.Op, x: nat)
    requires E.Inv(hv.evtchn) && EventStep(hv, d, op).Success? && (x != d || op.OpRaiseVirq?)
    ensures Spared(hv, EventStep(hv, d, op).value.hv, x, None, Some((d, op)))
  {
    hide E.Step, E.Inv, WokenBy, PagesSpared, GrantsSpared, DevicesSpared, RightsSpared, OnlyWoken, PortsSpared;
    var hv' := EventStep(hv, d, op).value.hv;
    Unchanged(hv, x);
    WakeIsOnlyWoken(hv'.evtchn, hv.sched, E.Notified(hv.evtchn, d, op), x);
    SignalSparesPorts(hv.evtchn, d, op, x);
  }

  lemma StepIsUnseen(s: S.State, op: S.Op, x: nat)
    requires S.Step(s, op).Success? && op.id.dom != x
    ensures OnlyWoken(s, S.Step(s, op).value, x)
  {
    hide S.Step;
    forall v: nat | s.Has(S.Id(x, v))
      ensures S.Step(s, op).value.Has(S.Id(x, v)) && S.Step(s, op).value.At(S.Id(x, v)) == s.At(S.Id(x, v))
    {
      S.StepTouchesOne(s, op, S.Id(x, v));
    }
  }

  lemma SchedSpares(hv: Hv, op: S.Op, x: nat)
    requires SchedStep(hv, op).Success? && op.id.dom != x
    ensures Spared(hv, SchedStep(hv, op).value.hv, x, None, None)
  {
    hide S.Step, PagesSpared, GrantsSpared, DevicesSpared, RightsSpared, OnlyWoken, PortsSpared;
    Unchanged(hv, x);
    StepIsUnseen(hv.sched, op, x);
  }

  // ----- grants -----

  /** Another domain's row and other domains' handles are not touched. */
  lemma OthersGrantsSpared(g: G.State, g': G.State, x: nat)
    requires x < |g.entries| ==> x < |g'.entries| && g'.entries[x] == g.entries[x]
    requires |g'.entries| == |g.entries|
    requires forall h: G.Handle | h.grantee == x ::
               (h in g'.maps <==> h in g.maps) && (h in g.maps ==> g'.maps[h] == g.maps[h])
    ensures GrantsSpared(g, g', x, None)
  {
  }

  lemma OfferSpares(hv: Hv, caller: nat, call: Call, x: nat)
    requires caller != x && (call.GrantAccess? || call.GrantEndAccess? || call.GrantCopy?)
             && Route(hv, caller, call).Success?
    ensures Spared(hv, Route(hv, caller, call).value.hv, x, None, None)
  {
    hide P.ForeignLinkedBy, PagesSpared, GrantsSpared, DevicesSpared, RightsSpared, OnlyWoken, PortsSpared;
    Unchanged(hv, x);
    OthersGrantsSpared(hv.grant, Route(hv, caller, call).value.hv.grant, x);
  }

  /** A reference taken or given back on behalf of a mapping moves no owner, pin or entry. */
  lemma HandsSpare(p: P.State, p': P.State, m: nat, writable: bool, up: int, x: nat)
    requires p.Allocated(m) && p.pages[m].loose.Of(MapKind(writable)) + up >= 0
    requires p' == p.With(m, P.Loosened(p.pages[m], MapKind(writable), up))
    ensures PagesSpared(p, p', x, None)
  {
  }

  lemma MappingSparesGrants(g: G.State, grantee: nat, grantor: nat, gref: nat, writable: bool, x: nat)
    requires grantee != x && G.Map(g, grantee, grantor, gref, writable).Success?
    ensures GrantsSpared(g, G.Map(g, grantee, grantor, gref, writable).value.state, x, None)
  {
    hide G.Permitted, G.FirstUnused, G.Over;
    OthersGrantsSpared(g, G.Map(g, grantee, grantor, gref, writable).value.state, x);
  }

  lemma MapSpares(hv: Hv, caller: nat, grantor: nat, gref: nat, writable: bool, x: nat)
    requires P.Inv(hv.p2m) && caller != x && MapGrant(hv, caller, grantor, gref, writable).Success?
    ensures Spared(hv, MapGrant(hv, caller, grantor, gref, writable).value.hv, x, None, None)
  {
    hide P.Inv, P.Acquire, G.Map, PagesSpared, GrantsSpared, DevicesSpared, RightsSpared, OnlyWoken, PortsSpared;
    var hv', frame := MapGrant(hv, caller, grantor, gref, writable).value.hv,
      hv.grant.GrantedFrame(grantor, gref).value;
    Unchanged(hv, x);
    MappingSparesGrants(hv.grant, caller, grantor, gref, writable, x);
    AcquireLoosens(hv.p2m, frame, writable);
    HandsSpare(hv.p2m, hv'.p2m, frame, writable, 1, x);
  }

  lemma UnmapSpares(hv: Hv, caller: nat, handle: nat, x: nat)
    requires P.Inv(hv.p2m) && G.Inv(hv.grant) && Backed(hv.grant, hv.p2m)
    requires caller != x && UnmapGrant(hv, caller, handle).Success?
    ensures Spared(hv, UnmapGrant(hv, caller, handle).value.hv, x, None, None)
  {
    hide P.Inv, G.Inv, Backed, P.Release, PagesSpared, GrantsSpared, DevicesSpared, RightsSpared, OnlyWoken,
      PortsSpared;
    var hv', h := UnmapGrant(hv, caller, handle).value.hv, G.Handle(caller, handle);
    var released := G.Unmap(hv.grant, caller, handle).value.released;
    Unchanged(hv, x);
    MapOwnedAt(hv.grant, hv.p2m, h);
    DropKeepsBacked(hv'.grant, hv.grant, h, released.frame, hv.p2m);
    ReleaseLoosens(hv.p2m, released.frame, released.writable);
    HandsSpare(hv.p2m, hv'.p2m, released.frame, released.writable, -1, x);
    OthersGrantsSpared(hv.grant, hv'.grant, x);
  }

  // ----- pages -----

  lemma ConfinedSpares(p: P.State, p': P.State, caller: nat, op: P.Op, x: nat)
    requires P.Confined(p, p', caller, op) && caller != x
    ensures PagesSpared(p, p', x, None)
  {
  }

  lemma MemorySpares(hv: Hv, caller: nat, op: P.Op, x: nat)
    requires P.Inv(hv.p2m) && caller != x && MemoryStep(hv, caller, op).Success?
    ensures Spared(hv, MemoryStep(hv, caller, op).value.hv, x, None, None)
  {
    hide P.Step, P.Inv, P.Confined, LinkRefused, PagesSpared, GrantsSpared, DevicesSpared, RightsSpared, OnlyWoken,
      PortsSpared;
    Unchanged(hv, x);
    P.StepIsConfined(hv.p2m, caller, op);
    ConfinedSpares(hv.p2m, MemoryStep(hv, caller, op).value.hv.p2m, caller, op, x);
  }

  // ----- lifecycle and authority -----

  lemma CreateSpares(hv: Hv, caller: nat, target: nat, mayCreate: bool, x: nat)
    requires target != x && Create(hv, caller, target, mayCreate).Success?
    ensures Spared(hv, Create(hv, caller, target, mayCreate).value.hv, x, None, None)
  {
  }

  lemma TeardownSparesPorts(e: E.State, target: nat, x: nat)
    requires E.Inv(e) && target != x
    ensures PortsSpared(e, E.Teardown(e, target), x, Some(target), None)
  {
    E.TeardownShape(e, target);
    hide E.Teardown, E.Inv;
    forall p: nat | e.Has(x, p)
      ensures E.Teardown(e, target).Has(x, p)
      ensures E.Teardown(e, target).At(x, p) == if TiedTo(e.At(x, p), target) then E.IDLE else e.At(x, p)
    {
      E.TeardownExact(e, target, x, p);
    }
  }

  lemma TeardownSparesGrants(g: G.State, target: nat, x: nat)
    requires G.Inv(g) && target != x
    ensures GrantsSpared(g, G.Teardown(g, target), x, Some(target))
  {
  }

  lemma TeardownSparesPages(p: P.State, target: nat, loose: seq<P.Counts>, x: nat)
    requires |loose| == |p.pages| && target != x
    ensures PagesSpared(p, P.Teardown(p, target, loose), x, Some(target))
  {
  }

  lemma RemoveSparesRights(c: C.Matrix, live: seq<bool>, target: nat, x: nat)
    requires C.Inv(c, live) && target < |live| && target != x
    ensures RightsSpared(c, C.Remove(c, target), x, Some(target))
  {
    hide C.Remove, C.Under;
    C.RemoveKeepsInv(c, live, target);
    RemoveSize(c, live, target);
    forall h: nat
      ensures C.Cell(C.Remove(c, target), h, x)
              == if C.Under(C.ColumnOf(c, x), target, h) then C.Absent else C.Cell(c, h, x)
    {
      if h < |live| && x < |live| {
        C.RemoveExact(c, live, target, h, x);
      }
    }
  }

  lemma RemoveSize(c: C.Matrix, live: seq<bool>, target: nat)
    requires C.Inv(c, live)
    ensures C.Square(c, |live|) && C.Square(C.Remove(c, target), |live|)
  {
  }

  lemma DestroySpares(hv: Hv, target: nat, now: nat, x: nat)
    requires Inv(hv) && target < |hv.live| && target != x
    ensures Spared(hv, Destroyed(hv, target, now), x, Some(target), None)
  {
    assert E.Inv(hv.evtchn) && G.Inv(hv.grant) && S.Inv(hv.sched) && C.Inv(hv.controls, hv.live)
           && |hv.sched.domains| == |hv.live|;
    hide Inv, G.Inv, S.Inv, C.Inv, G.Teardown, E.Teardown, P.Teardown, S.OfflineAll, C.Remove, PagesSpared,
      GrantsSpared, RightsSpared, OnlyWoken, PortsSpared, OwnVcpusOnly, E.Inv;
    TeardownSparesPorts(hv.evtchn, target, x);
    TeardownSparesGrants(hv.grant, target, x);
    BackingSize(hv, target);
    TeardownSparesPages(hv.p2m, target, Backing(G.Teardown(hv.grant, target), |hv.p2m.pages|), x);
    RemoveSparesRights(hv.controls, hv.live, target, x);
    if x < |hv.sched.domains| {
      OfflineAllIsOwn(hv.sched, target, now);
      OwnKeepsRow(hv.sched, S.OfflineAll(hv.sched, target, now), target, None, x);
    }
    RowIsOnlyWoken(hv.sched, S.OfflineAll(hv.sched, target, now), x);
  }

  lemma RevokeSparesRights(c: C.Matrix, live: seq<bool>, target: nat, from: nat, x: nat)
    requires C.Inv(c, live) && target < |live| && from < |live| && target != x
    ensures RightsSpared(c, C.Revoke(c, target, from), x, None)
  {
    hide C.Revoke;
    RevokeSize(c, live, target, from);
    forall h: nat
      ensures C.Cell(C.Revoke(c, target, from), h, x) == C.Cell(c, h, x)
    {
      if h < |live| && x < |live| {
        C.RevokeMatrixExact(c, live, target, from, h, x);
      }
    }
  }

  lemma RevokeSize(c: C.Matrix, live: seq<bool>, target: nat, from: nat)
    requires C.Inv(c, live)
    ensures C.Square(c, |live|) && C.Square(C.Revoke(c, target, from), |live|)
  {
  }

  lemma ControlSpares(hv: Hv, caller: nat, call: Call, x: nat)
    requires Inv(hv) && (call.ControlGrant? || call.ControlRevoke?) && Route(hv, caller, call).Success?
    requires !C.Controls(hv.controls, caller, x)
    ensures Spared(hv, Route(hv, caller, call).value.hv, x, None, None)
  {
    Unchanged(hv, x);
    if call.ControlRevoke? {
      RevokeSparesRights(hv.controls, hv.live, call.target, call.from, x);
      hide Inv, C.Revoke, PagesSpared, GrantsSpared, DevicesSpared, RightsSpared, OnlyWoken, PortsSpared;
    } else {
      hide Inv, PagesSpared, GrantsSpared, DevicesSpared, OnlyWoken;
    }
  }

  lemma DeviceSpares(hv: Hv, caller: nat, call: Call, x: nat)
    requires (call.DeviceAssign? || call.DeviceRelease?) && caller != x && !C.Controls(hv.controls, caller, x)
    requires Route(hv, caller, call).Success?
    ensures Spared(hv, Route(hv, caller, call).value.hv, x, None, None)
  {
    hide PagesSpared, GrantsSpared, RightsSpared, OnlyWoken, PortsSpared;
    Unchanged(hv, x);
  }

  /** The domain an accepted call destroys. */
  function Dying(call: Call): Option<nat> {
    if call.DomainDestroy? then Some(call.target) else None
  }

  /** The event operation a call performs. */
  function Signal(caller: nat, call: Call): Option<(nat, E.Op)> {
    if call.Event? then Some((caller, call.op)) else None
  }

  lemma GuestEventSpares(hv: Hv, caller: nat, op: GuestEvent, x: nat)
    requires E.Inv(hv.evtchn) && caller != x && GuestEventStep(hv, caller, op).Success?
    ensures Spared(hv, GuestEventStep(hv, caller, op).value.hv, x, None, Some((caller, op)))
  {
    hide E.Inv, EventStep, Spared;
    EventSpares(hv, caller, op, x);
  }

  /** The scheduler's own calls. */
  lemma VcpuCallSpares(hv: Hv, caller: nat, call: Call, x: nat)
    requires caller != x && !C.Controls(hv.controls, caller, x)
    requires call.Schedule? || call.SchedBlock? || call.SchedSetAffinity?
    requires Route(hv, caller, call).Success?
    ensures Spared(hv, Route(hv, caller, call).value.hv, x, None, None)
  {
    Unchanged(hv, x);
    hide S.Step, PagesSpared, GrantsSpared, DevicesSpared, RightsSpared, OnlyWoken, PortsSpared;
    match call
    case Schedule(own) => SchedSpares(hv, own.For(caller), x);
    case SchedBlock(vcpu, now) =>
      if Route(hv, caller, call).value.hv != hv {
        SchedSpares(hv, S.Op.Block(S.Id(caller, vcpu), now), x);
      }
    case SchedSetAffinity(target, vcpu, affinity) => SchedSpares(hv, S.Op.SetAffinity(S.Id(target, vcpu), affinity), x);
  }

  lemma RouteSpares(hv: Hv, caller: nat, call: Call, x: nat)
    requires Inv(hv) && caller != x && !C.Controls(hv.controls, caller, x) && hv.IsLive(x)
    requires Route(hv, caller, call).Success?
    ensures Spared(hv, Route(hv, caller, call).value.hv, x, Dying(call), Signal(caller, call))
  {
    assert E.Inv(hv.evtchn) && S.Inv(hv.sched) && P.Inv(hv.p2m) && G.Inv(hv.grant) && Backed(hv.grant, hv.p2m);
    hide Inv, E.Inv, S.Inv, P.Inv, G.Inv, Backed, GuestEventStep, Grant, EndGrant, MapGrant, UnmapGrant, MemoryStep,
      Create, Destroyed, Delegate, Revoke, AssignDevice, ReleaseDevice, SchedStep, Block, SetAffinity, Spared;
    match call
    case Event(op) => GuestEventSpares(hv, caller, op, x);
    case Memory(op) => MemorySpares(hv, caller, op, x);
    case DomainCreate(target, mayCreate) =>
      CreatedIsDead(hv, caller, target, mayCreate);
      CreateSpares(hv, caller, target, mayCreate, x);
    case DomainDestroy(target, now) => DestroySpares(hv, target, now, x);
    case ControlGrant(_, _) => ControlSpares(hv, caller, call, x);
    case ControlRevoke(_, _) => ControlSpares(hv, caller, call, x);
    case DeviceAssign(_, _) => DeviceSpares(hv, caller, call, x);
    case DeviceRelease(_, _) => DeviceSpares(hv, caller, call, x);
    case GrantMap(grantor, gref, writable) => MapSpares(hv, caller, grantor, gref, writable, x);
    case GrantUnmap(handle) => UnmapSpares(hv, caller, handle, x);
    case GrantAccess(_, _, _, _) => OfferSpares(hv, caller, call, x);
    case GrantEndAccess(_) => OfferSpares(hv, caller, call, x);
    case GrantCopy(_, _, _) => OfferSpares(hv, caller, call, x);
    case _ => VcpuCallSpares(hv, caller, call, x);
  }

  /** Creation needs the creation capability and a dead slot. */
  lemma CreatedIsDead(hv: Hv, caller: nat, target: nat, mayCreate: bool)
    requires Create(hv, caller, target, mayCreate).Success?
    ensures hv.DeadTarget(target) && caller < |hv.mayCreate| && hv.mayCreate[caller]
  {
  }

  /** The domain a transition destroys, if it is an accepted destroy. */
  function DyingIn(hv: Hv, t: Transition): Option<nat> {
    if t.Guest? && Apply(hv, t).Success? then Dying(t.call) else None
  }

  /** The event operation a transition performs, if it is accepted. */
  function SignalIn(hv: Hv, t: Transition): Option<(nat, E.Op)> {
    if Apply(hv, t).Failure? then None else
    match t
    case Guest(caller, call) => Signal(caller, call)
    case RaiseVcpuVirq(d, vcpu, virq) => Some((d, E.OpRaiseVirq(vcpu, virq)))
  }

  /** Whatever a domain calls, a live domain `x` it does not control keeps its life, its privilege,
      its frames with their pins, and its devices; of its vCPUs at most a sleeping one is woken. Its
      grants, its page-table entries, its mappings, its ports and the rights over it are exactly as
      before, except that an accepted destroy of another domain takes the grants to that domain, the
      entries onto its frames, the mappings of its grants, the ports linked to it or awaiting it, and
      the rights it had or passed on; and that a port linked to the caller or awaiting it hears the
      caller's send, close or bind. An interrupt from outside is heard on the port bound to it. */
  lemma NoControlNoEffect(hv: Hv, t: Transition, x: nat)
    requires Inv(hv) && hv.IsLive(x)
    requires t.Guest? ==> t.caller != x && !C.Controls(hv.controls, t.caller, x)
    ensures Spared(hv, After(hv, t), x, DyingIn(hv, t), SignalIn(hv, t))
  {
    Unchanged(hv, x);
    assert E.Inv(hv.evtchn);
    hide Inv, E.Inv, Route, EventStep, PagesSpared, GrantsSpared, DevicesSpared, RightsSpared, OnlyWoken, PortsSpared;
    if Apply(hv, t).Success? {
      match t
      case Guest(caller, call) => RouteSpares(hv, caller, call, x);
      case RaiseVcpuVirq(d, vcpu, virq) => EventSpares(hv, d, E.OpRaiseVirq(vcpu, virq), x);
    }
  }

  /** The creation capability is only ever handed down: a domain that holds it after a step held it
      before, or was created in that step by a domain that held it. */
  lemma PrivilegeIsHandedDown(hv: Hv, t: Transition, x: nat)
    requires Inv(hv) && x < |After(hv, t).mayCreate| && After(hv, t).mayCreate[x]
    ensures x < |hv.mayCreate|
    ensures hv.mayCreate[x]
            || exists c: nat :: c < |hv.mayCreate| && hv.mayCreate[c] && CreatorIn(hv, t, x) == Some(c)
  {
    hide E.Step, S.Step, P.Step, G.Map, P.Acquire, G.Teardown, E.Teardown, P.Teardown, S.OfflineAll, E.Inv, P.Inv,
      G.Inv, S.Inv;
    if t.Guest? && t.call.DomainCreate? && t.call.target == x && Apply(hv, t).Success? {
      assert t.caller < |hv.mayCreate| && hv.mayCreate[t.caller] && CreatorIn(hv, t, x) == Some(t.caller);
    }
  }
}
