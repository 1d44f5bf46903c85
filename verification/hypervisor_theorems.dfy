/** What holds over whole runs of the hypervisor. */
module HypervisorTheorems {
  import opened Basics
  import opened HypervisorModel
  import opened HypervisorSafety
  import E = EvtchnModel
  import G = GrantModel
  import S = SchedModel
  import P = P2mModel
  import D = DeviceModel
  import C = ControlModel

  // ----- safety -----

  lemma RouteKeepsInv(hv: Hv, caller: nat, call: Call)
    requires Inv(hv) && Route(hv, caller, call).Success?
    ensures Inv(Route(hv, caller, call).value.hv)
  {
    hide Inv, EventStep, Grant, EndGrant, MapGrant, UnmapGrant, MemoryStep, Create, Destroyed, Delegate, Revoke,
      AssignDevice, ReleaseDevice, Block, S.Step, E.Step;
    match call
    case Event(op) => EventKeepsInv(hv, caller, op);
    case GrantAccess(gref, grantee, frame, readonly) => GrantKeepsInv(hv, caller, gref, grantee, frame, readonly);
    case GrantEndAccess(gref) => EndGrantKeepsInv(hv, caller, gref);
    case GrantMap(grantor, gref, writable) => MapGrantKeepsInv(hv, caller, grantor, gref, writable);
    case GrantUnmap(handle) => UnmapGrantKeepsInv(hv, caller, handle);
    case GrantCopy(_, _, _) =>
    case Schedule(own) => SchedKeepsInv(hv, own.For(caller));
    case SchedBlock(vcpu, now) => BlockKeepsInv(hv, caller, vcpu, now);
    case SchedSetAffinity(target, vcpu, affinity) =>
      AffinityTargetIsLive(hv, caller, target);
      SchedKeepsInv(hv, S.Op.SetAffinity(S.Id(target, vcpu), affinity));
    case Memory(op) => MemoryKeepsInv(hv, caller, op);
    case DomainCreate(target, mayCreate) => CreateKeepsInv(hv, caller, target, mayCreate);
    case DomainDestroy(target, now) => DestroyKeepsInv(hv, target, now);
    case ControlGrant(target, to) => DelegateKeepsInv(hv, caller, target, to);
    case ControlRevoke(target, from) => RevokeKeepsInv(hv, caller, target, from);
    case DeviceAssign(dev, to) => DeviceStepKeepsInv(hv, caller, dev, to);
    case DeviceRelease(dev, from) => DeviceStepKeepsInv(hv, caller, dev, from);
  }

  /** Whoever may set a vCPU's affinity, its domain is live. */
  lemma AffinityTargetIsLive(hv: Hv, caller: nat, target: nat)
    requires Inv(hv) && hv.IsLive(caller) && (caller == target || C.Controls(hv.controls, caller, target))
    ensures hv.IsLive(target)
  {
  }

  /** A virtual interrupt is accepted only by a domain with a port bound to it, which is live. */
  lemma RaiseKeepsInv(hv: Hv, d: nat, vcpu: nat, virq: nat)
    requires Inv(hv) && RaiseVirq(hv, d, vcpu, virq).Success?
    ensures Inv(RaiseVirq(hv, d, vcpu, virq).value.hv)
  {
    if hv.DeadTarget(d) {
      CleanAt(hv, d);
      E.SilentAt(hv.evtchn, d, d, E.VirqPort(hv.evtchn.domains[d], vcpu, virq));
    }
    EventKeepsInv(hv, d, E.OpRaiseVirq(vcpu, virq));
  }

  lemma ApplyKeepsInv(hv: Hv, t: Transition)
    requires Inv(hv)
    ensures Inv(After(hv, t))
  {
    hide Inv, Route, RaiseVirq;
    if Apply(hv, t).Success? {
      match t
      case Guest(caller, call) => RouteKeepsInv(hv, caller, call);
      case RaiseVcpuVirq(d, vcpu, virq) => RaiseKeepsInv(hv, d, vcpu, virq);
    }
  }

  lemma {:induction false} RunKeepsInv(hv: Hv, ts: seq<Transition>)
    requires Inv(hv)
    ensures Inv(RunAll(hv, ts))
    decreases |ts|
  {
    hide Inv, After;
    if ts != [] {
      ApplyKeepsInv(hv, ts[0]);
      RunKeepsInv(After(hv, ts[0]), ts[1..]);
    }
  }

  /** From boot, for any number of domains, ports, grants, vCPUs, CPUs, frames and devices, every
      sequence of guest calls and interrupts, accepted or refused, keeps every invariant. */
  lemma WholeRunSafety(domains: nat, ports: nat, grefs: nat, vcpus: nat, pcpus: nat, frames: nat, devices: nat,
                       ts: seq<Transition>)
    ensures Inv(RunAll(New(domains, ports, grefs, vcpus, pcpus, frames, devices), ts))
  {
    hide Inv, New, RunAll;
    HypervisorSafety.NewInv(domains, ports, grefs, vcpus, pcpus, frames, devices);
    RunKeepsInv(New(domains, ports, grefs, vcpus, pcpus, frames, devices), ts);
  }

  // ----- what the invariants say of a frame -----

  /** All entries onto a frame, of whatever kind. */
  function EntriesInto(p: P.State, m: nat): set<P.Key> {
    set k | k in p.links && p.links[k].child == m
  }

  /** All mappings of a frame. */
  function MapsOf(g: G.State, m: nat): set<G.Handle> {
    set h | h in g.maps && G.FrameOf(g, g.maps[h]) == Some(m)
  }

  lemma EntriesByKind(p: P.State, m: nat)
    ensures |EntriesInto(p, m)|
            == |P.Into(p.links, m, P.Bare)| + |P.Into(p.links, m, P.Exec)|
               + |P.Into(p.links, m, P.Writable)| + |P.Into(p.links, m, P.Table)|
  {
    var b, x, w, t := P.Into(p.links, m, P.Bare), P.Into(p.links, m, P.Exec), P.Into(p.links, m, P.Writable),
      P.Into(p.links, m, P.Table);
    assert EntriesInto(p, m) == b + x + w + t;
    assert b !! x && (b + x) !! w && (b + x + w) !! t;
  }

  /** The references on a frame are exactly its entries, the entries of the table it is, its pin
      and the mappings of it, each counted under the one kind of page it needs. */
  lemma ExactAccounting(hv: Hv, m: nat)
    requires Inv(hv) && hv.p2m.Allocated(m)
    ensures P.Refs(hv.p2m, m)
            == |EntriesInto(hv.p2m, m)| + |P.From(hv.p2m.links, m)| + (if hv.p2m.pages[m].pinned then 1 else 0)
               + |MapsOf(hv.grant, m)|
    ensures P.Held(hv.p2m, m, P.Writable) == |P.Into(hv.p2m.links, m, P.Writable)| + |G.Reaching(hv.grant, m, true)|
    ensures P.Held(hv.p2m, m, P.Exec) == |P.Into(hv.p2m.links, m, P.Exec)|
    ensures P.Held(hv.p2m, m, P.Table)
            == |P.Into(hv.p2m.links, m, P.Table)| + |P.From(hv.p2m.links, m)|
               + (if hv.p2m.pages[m].pinned then 1 else 0)
    ensures P.Refs(hv.p2m, m) <= U32_MAX
  {
    LooseAt(hv.grant, hv.p2m, m);
    P.PageAt(hv.p2m, m);
    EntriesByKind(hv.p2m, m);
    var r, w := G.Reaching(hv.grant, m, false), G.Reaching(hv.grant, m, true);
    assert MapsOf(hv.grant, m) == r + w;
    assert r !! w;
  }

  /** Every walk ends within four entries, crosses into another domain's frames only under that
      domain's grant, and a page it may write is nobody's page table and nobody's code. */
  lemma WalkIsolation(hv: Hv, root: nat, path: seq<P.Key>, i: nat)
    requires Inv(hv) && P.Walk(hv.p2m, root, path) && i < |path|
    ensures |path| <= 4
    ensures var e, p := hv.p2m.links[path[i]], hv.p2m;
            && p.Allocated(path[i].parent) && p.Allocated(e.child)
            && var from, to := p.pages[path[i].parent].owner, p.pages[e.child].owner;
               (from != to ==> G.Authorizes(hv.grant, to, from, e.child, e.writable))
               && (e.Kind().Writable? ==>
                     p.pages[e.child].level == 0 && forall k | k in p.links && p.links[k].child == e.child ::
                       p.links[k].leaf && !p.links[k].execute)
  {
    hide P.Held, G.Authorizes;
    P.WalkDescends(hv.p2m, root, path);
    var k := path[i];
    assert LinkAuthorized(hv.grant, hv.p2m, k);
    if hv.p2m.links[k].Kind().Writable? {
      P.EdgeHolds(hv.p2m, k);
      P.PageAt(hv.p2m, hv.p2m.links[k].child);
      forall j | j in hv.p2m.links && hv.p2m.links[j].child == hv.p2m.links[k].child
        ensures hv.p2m.links[j].leaf && !hv.p2m.links[j].execute
      {
        P.WritableLeafIsData(hv.p2m, k, j);
      }
    }
  }

  // ----- the delegation forest -----

  /** Every right over a target traces, within as many steps as there are domains, to the target's
      one root, through live domains other than the target. */
  lemma RightsTraceToRoot(hv: Hv, holder: nat, target: nat)
    requires Inv(hv) && C.Controls(hv.controls, holder, target)
    ensures holder < |hv.live| && target < |hv.live| && holder != target && hv.live[holder] && hv.live[target]
    ensures C.Reaches(C.ColumnOf(hv.controls, target), holder, |hv.live|)
    ensures forall g: nat, h: nat | C.Cell(hv.controls, g, target).Root? && C.Cell(hv.controls, h, target).Root? ::
            g == h
  {
    C.ControlsAt(hv.controls, hv.live, holder, target);
    C.ColumnAt(hv.controls, hv.live, target);
    var col := C.ColumnOf(hv.controls, target);
    C.BoundedWalkExact(col, holder);
    forall g: nat, h: nat | C.Cell(hv.controls, g, target).Root? && C.Cell(hv.controls, h, target).Root?
      ensures g == h
    {
      assert col[g].Root? && col[h].Root?;
    }
  }

  /** The creator named by a transition, if it is an accepted creation of `target`. */
  function CreatorIn(hv: Hv, t: Transition, target: nat): Option<nat> {
    if t.Guest? && t.call.DomainCreate? && t.call.target == target && Apply(hv, t).Success? then Some(t.caller)
        else None
  }

  /** A root right appears by creating its target, and in no other way. */
  lemma RootOnlyByCreation(hv: Hv, t: Transition, holder: nat, target: nat)
    requires Inv(hv) && C.Cell(After(hv, t).controls, holder, target).Root?
    ensures C.Cell(hv.controls, holder, target).Root? || CreatorIn(hv, t, target) == Some(holder)
  {
    hide E.Step, S.Step, P.Step, G.Map, P.Acquire, G.Teardown, E.Teardown, P.Teardown, S.OfflineAll, E.Inv, P.Inv,
      G.Inv, S.Inv;
    if t.Guest? && Apply(hv, t).Success? {
      match t.call
      case ControlRevoke(u, from) => assert C.Cell(hv.controls, holder, target).Root?;
      case DomainDestroy(u, now) => assert C.Cell(hv.controls, holder, target).Root?;
      case _ =>
    }
  }

  /** Who created the current incarnation of `target`, given who did before the run. */
  function Creator(hv: Hv, ts: seq<Transition>, target: nat, known: Option<nat>): Option<nat>
    decreases |ts|
  {
    if ts == [] then known else
    var now := CreatorIn(hv, ts[0], target);
    Creator(After(hv, ts[0]), ts[1..], target, if now.Some? then now else known)
  }

  /** In every reachable state the root of a target's tree is the creator of the target's current
      incarnation. */
  lemma {:induction false} RootIsCreator(hv: Hv, ts: seq<Transition>, holder: nat, target: nat, known: Option<nat>)
    requires Inv(hv)
    requires forall h: nat | C.Cell(hv.controls, h, target).Root? :: known == Some(h)
    requires C.Cell(RunAll(hv, ts).controls, holder, target).Root?
    ensures Creator(hv, ts, target, known) == Some(holder)
    decreases |ts|
  {
    hide Inv, After;
    if ts != [] {
      var next, now := After(hv, ts[0]), CreatorIn(hv, ts[0], target);
      ApplyKeepsInv(hv, ts[0]);
      forall h: nat | C.Cell(next.controls, h, target).Root?
        ensures (if now.Some? then now else known) == Some(h)
      {
        RootOnlyByCreation(hv, ts[0], h, target);
        if now.Some? && now != Some(h) {
          CreatedColumn(hv, ts[0], target, h);
        }
      }
      RootIsCreator(next, ts[1..], holder, target, if now.Some? then now else known);
    }
  }

  /** Only a dead domain, which nobody controls, can be created. */
  lemma CreatedColumn(hv: Hv, t: Transition, target: nat, holder: nat)
    requires Inv(hv) && CreatorIn(hv, t, target).Some?
    ensures !C.Controls(hv.controls, holder, target)
  {
  }

  // ----- teardown, exactly -----

  ghost predicate OwnedBy(p: P.State, m: nat, d: nat) {
    p.OwnerOf(m) == Some(d)
  }

  /** Every port of the dead domain is idle, and so is every port linked to it or awaiting it; the
      others are as before. */
  ghost predicate PortsExact(e: E.State, e': E.State, t: nat) {
    forall d: nat, p: nat {:trigger e'.Has(d, p)} | e.Has(d, p) ::
      && e'.Has(d, p)
      && var c := e.At(d, p);
         e'.At(d, p)
         == if d == t || (c.state.Interdomain? && c.state.remote == t) || c.state == E.Unbound(t) then E.IDLE else c
  }

  /** Exactly the grants and mappings between two other domains are left, each as it was. */
  ghost predicate GrantsExact(g: G.State, g': G.State, t: nat) {
    && (forall d: nat, r: nat {:trigger g'.Granted(d, r)} ::
          (g'.Granted(d, r) <==> g.Granted(d, r) && d != t && g.entries[d][r].grantee != t)
          && (g'.Granted(d, r) ==> g'.entries[d][r] == g.entries[d][r]))
    && (forall h :: h in g'.maps <==> h in g.maps && h.grantee != t && g.maps[h].grantor != t)
    && (forall h | h in g'.maps :: g'.maps[h] == g.maps[h])
  }

  /** The dead domain's frames are free and the entries at either end of them gone; owners, pins and
      entries of the others are as before. */
  ghost predicate PagesExact(p: P.State, p': P.State, t: nat) {
    && (forall m: nat {:trigger p'.OwnerOf(m)} :: p'.OwnerOf(m) == if OwnedBy(p, m, t) then None else p.OwnerOf(m))
    && (forall m: nat {:trigger p'.Allocated(m)} | p'.Allocated(m) ::
          p.Allocated(m) && p'.pages[m].pinned == p.pages[m].pinned)
    && (forall k :: k in p'.links <==> k in p.links && !OwnedBy(p, k.parent, t) && !OwnedBy(p, p.links[k].child, t))
    && (forall k | k in p'.links :: p'.links[k] == p.links[k])
  }

  ghost predicate DevicesExact(d: D.State, d': D.State, t: nat) {
    && |d'.holders| == |d.holders|
    && forall i | 0 <= i < |d.holders| :: d'.holders[i] == if d.holders[i] == Some(t) then None else d.holders[i]
  }

  /** A destroy takes exactly what touches the target and leaves every other domain's ports,
      grants, mappings, frames, pins, entries and devices as they were. */
  lemma TeardownIsExact(hv: Hv, t: nat, now: nat)
    requires Inv(hv) && t < |hv.live|
    ensures var hv' := Destroyed(hv, t, now);
            && PortsExact(hv.evtchn, hv'.evtchn, t) && GrantsExact(hv.grant, hv'.grant, t)
            && PagesExact(hv.p2m, hv'.p2m, t) && DevicesExact(hv.device, hv'.device, t)
  {
    GrantPart(hv);
    hide Inv, PortsExact, GrantsExact, PagesExact, E.Teardown, G.Teardown, P.Teardown, S.OfflineAll, C.Remove;
    PortsTornDown(hv.evtchn, t);
    GrantsTornDown(hv.grant, t);
    PagesTornDown(hv.p2m, t, Backing(G.Teardown(hv.grant, t), |hv.p2m.pages|));
  }

  lemma PortsTornDown(e: E.State, t: nat)
    requires E.Inv(e)
    ensures PortsExact(e, E.Teardown(e, t), t)
  {
  }

  lemma GrantsTornDown(g: G.State, t: nat)
    requires G.Inv(g)
    ensures GrantsExact(g, G.Teardown(g, t), t)
  {
  }

  lemma PagesTornDown(p: P.State, t: nat, loose: seq<P.Counts>)
    requires |loose| == |p.pages|
    ensures PagesExact(p, P.Teardown(p, t, loose), t)
  {
  }

  lemma GrantPart(hv: Hv)
    requires Inv(hv)
    ensures G.Inv(hv.grant) && E.Inv(hv.evtchn)
  {
  }

  // ----- reuse of a domain's slot -----

  /** No domain is created in slot `t` along this run. */
  ghost predicate Unborn(hv: Hv, ts: seq<Transition>, t: nat)
    decreases |ts|
  {
    ts == [] || (CreatorIn(hv, ts[0], t).None? && Unborn(After(hv, ts[0]), ts[1..], t))
  }

  /** Nothing belongs to the slot or names it: no open port, no grant either way, no mapping, no
      frame, no device, no authority over anyone or by anyone, and no vCPU online. What its offline
      vCPUs carry is not said here. */
  ghost predicate Blank(hv: Hv, x: nat) {
    && (forall p: nat {:trigger hv.evtchn.Has(x, p)} | hv.evtchn.Has(x, p) :: hv.evtchn.At(x, p) == E.IDLE)
    && (forall d: nat, p: nat {:trigger hv.evtchn.Has(d, p)} | hv.evtchn.Has(d, p) ::
        hv.evtchn.At(d, p).state != E.Unbound(x)
         && !(hv.evtchn.At(d, p).state.Interdomain? && hv.evtchn.At(d, p).state.remote == x))
    && Ungranted(hv.grant, x)
    && (forall h | h in hv.grant.maps :: h.grantee != x && hv.grant.maps[h].grantor != x)
    && OwnsNothing(hv.p2m, x) && !D.Holds(hv.device, x) && !(x < |hv.mayCreate| && hv.mayCreate[x])
    && (forall h: nat {:trigger C.Controls(hv.controls, h, x)} :: !C.Controls(hv.controls, h, x))
    && (forall u: nat {:trigger C.Controls(hv.controls, x, u)} :: !C.Controls(hv.controls, x, u))
    && AllOffline(hv.sched, x)
  }

  lemma DeadIsBlank(hv: Hv, x: nat)
    requires Inv(hv) && hv.DeadTarget(x)
    ensures Blank(hv, x)
  {
  }

  lemma OwnKeepsRow(s: S.State, s': S.State, d: nat, blocked: Option<S.Id>, x: nat)
    requires OwnVcpusOnly(s, s', d, blocked) && x != d && x < |s.domains|
    ensures x < |s'.domains| && s'.domains[x] == s.domains[x]
  {
    assert s'.Has(S.Id(x, |s.domains[x]|)) <==> s.Has(S.Id(x, |s.domains[x]|));
    assert s'.Has(S.Id(x, |s'.domains[x]|)) <==> s.Has(S.Id(x, |s'.domains[x]|));
    forall v | 0 <= v < |s.domains[x]|
      ensures s.Has(S.Id(x, v)) && s'.Has(S.Id(x, v)) && s'.domains[x][v] == s.domains[x][v]
    {
      assert s'.Has(S.Id(x, v)) <==> s.Has(S.Id(x, v));
      assert s'.At(S.Id(x, v)) == s.At(S.Id(x, v));
    }
  }

  lemma WokenByKeepsRow(e: E.State, s: S.State, port: Option<(nat, nat)>, x: nat)
    requires S.Inv(s) && AllOffline(s, x) && x < |s.domains|
    ensures x < |WokenBy(e, s, port).domains| && WokenBy(e, s, port).domains[x] == s.domains[x]
  {
    var s' := WokenBy(e, s, port);
    WokenByIsOwn(e, s, port);
    if s' != s {
      if port.value.0 == x {
        assert s.Has(S.Id(x, e.At(x, port.value.1).Target().value));
        assert false;
      }
      OwnKeepsRow(s, s', port.value.0, None, x);
    }
  }

  /** The calls that neither move a vCPU nor end or begin a domain. */
  predicate Elsewhere(call: Call) {
    !(call.Event? || call.Schedule? || call.SchedBlock? || call.SchedSetAffinity? || call.DomainCreate?
      || call.DomainDestroy?)
  }

  lemma ElsewhereKeepsSched(hv: Hv, caller: nat, call: Call)
    requires Elsewhere(call)
    ensures After(hv, Guest(caller, call)).sched == hv.sched && After(hv, Guest(caller, call)).live == hv.live
  {
  }

  lemma DomainCallKeepsRow(hv: Hv, caller: nat, call: Call, x: nat)
    requires Inv(hv) && hv.DeadTarget(x) && CreatorIn(hv, Guest(caller, call), x).None?
    requires call.DomainCreate? || call.DomainDestroy?
    ensures After(hv, Guest(caller, call)).DeadTarget(x)
    ensures x < |hv.sched.domains| && x < |After(hv, Guest(caller, call)).sched.domains|
    ensures After(hv, Guest(caller, call)).sched.domains[x] == hv.sched.domains[x]
  {
  }

  lemma SchedCallKeepsRow(hv: Hv, caller: nat, call: Call, x: nat)
    requires Inv(hv) && hv.DeadTarget(x) && (call.Schedule? || call.SchedBlock? || call.SchedSetAffinity?)
    ensures After(hv, Guest(caller, call)).DeadTarget(x)
    ensures x < |hv.sched.domains| && x < |After(hv, Guest(caller, call)).sched.domains|
    ensures After(hv, Guest(caller, call)).sched.domains[x] == hv.sched.domains[x]
  {
  }

  lemma EventKeepsRow(hv: Hv, d: nat, op: E.Op, x: nat)
    requires Inv(hv) && hv.DeadTarget(x) && EventStep(hv, d, op).Success?
    ensures EventStep(hv, d, op).value.hv.live == hv.live
    ensures var hv' := EventStep(hv, d, op).value.hv;
            x < |hv.sched.domains| && x < |hv'.sched.domains| && hv'.sched.domains[x] == hv.sched.domains[x]
  {
    DeadRow(hv, x);
    hide Inv, WokenBy, E.Step, S.Inv;
    WokenByKeepsRow(EventStep(hv, d, op).value.hv.evtchn, hv.sched, E.Notified(hv.evtchn, d, op), x);
  }

  /** A dead slot stays dead until it is created again, and its vCPUs stay as death left them. */
  lemma StaysDead(hv: Hv, t: Transition, x: nat)
    requires Inv(hv) && hv.DeadTarget(x) && CreatorIn(hv, t, x).None?
    ensures After(hv, t).DeadTarget(x)
    ensures x < |hv.sched.domains| && x < |After(hv, t).sched.domains|
            && After(hv, t).sched.domains[x] == hv.sched.domains[x]
  {
    DeadRow(hv, x);
    hide Inv, EventStep, AllOffline, S.Inv;
    match t
    case RaiseVcpuVirq(d, vcpu, virq) =>
      if Apply(hv, t).Success? {
        EventKeepsRow(hv, d, E.OpRaiseVirq(vcpu, virq), x);
      }
    case Guest(caller, call) =>
      hide RaiseVirq;
      if call.Event? {
        if Apply(hv, t).Success? {
          EventKeepsRow(hv, caller, call.op, x);
        }
      } else {
        hide Route;
        if Elsewhere(call) {
          ElsewhereKeepsSched(hv, caller, call);
        } else if call.DomainCreate? || call.DomainDestroy? {
          DomainCallKeepsRow(hv, caller, call, x);
        } else {
          SchedCallKeepsRow(hv, caller, call, x);
        }
      }
  }

  lemma DeadRow(hv: Hv, x: nat)
    requires Inv(hv) && hv.DeadTarget(x)
    ensures x < |hv.sched.domains| && AllOffline(hv.sched, x) && S.Inv(hv.sched)
  {
  }

  lemma {:induction false} StaysDeadThroughout(hv: Hv, ts: seq<Transition>, x: nat)
    requires Inv(hv) && hv.DeadTarget(x) && Unborn(hv, ts, x)
    ensures var end := RunAll(hv, ts);
            && end.DeadTarget(x) && Blank(end, x)
            && x < |hv.sched.domains| && x < |end.sched.domains| && end.sched.domains[x] == hv.sched.domains[x]
    decreases |ts|
  {
    hide Inv, After, Blank;
    DeadRow(hv, x);
    if ts == [] {
      DeadIsBlank(hv, x);
    } else {
      ApplyKeepsInv(hv, ts[0]);
      StaysDead(hv, ts[0], x);
      StaysDeadThroughout(After(hv, ts[0]), ts[1..], x);
    }
  }

  /** Between a domain's death and the next creation in its slot, in every state of every run,
      nothing belongs to the slot or names it. What outlives the tenant is what its offline vCPUs
      carry, and the next tenant finds it: the run time at the death, with an interval still open
      closed at `now`, the stamp of the last dispatch, and, of a vCPU that was already offline, the
      affinity mask. Only a vCPU that was online is back at the default mask. */
  lemma RebornInherits(hv: Hv, x: nat, now: nat, ts: seq<Transition>, creator: nat, mayCreate: bool, vcpu: nat)
    requires Inv(hv) && x < |hv.live| && Unborn(Destroyed(hv, x, now), ts, x) && hv.sched.Has(S.Id(x, vcpu))
    ensures var end := RunAll(Destroyed(hv, x, now), ts);
            var born := After(end, Guest(creator, DomainCreate(x, mayCreate)));
            var id := S.Id(x, vcpu);
            && end.DeadTarget(x) && Blank(end, x) && born.sched.Has(id)
            && var before, after := hv.sched.At(id), born.sched.At(id);
               && after.state.Offline?
               && after.runtime == (if before.state.Running?
                                    then Min(U64_MAX, before.runtime + SatSub(now, before.dispatchedAt))
                                    else before.runtime)
               && after.dispatchedAt == before.dispatchedAt
               && after.affinity == (if before.state.Offline? then before.affinity else S.FullMask(|hv.sched.pcpus|))
  {
    hide Inv, RunAll, Unborn, Blank, After, S.FullMask;
    DestroyKeepsInv(hv, x, now);
    DestroyedIsDead(hv, x, now);
    var dead := Destroyed(hv, x, now);
    StaysDeadThroughout(dead, ts, x);
    CreateKeepsSched(RunAll(dead, ts), creator, x, mayCreate);
    assert dead.sched.domains[x][vcpu] == S.OfflineAll(hv.sched, x, now).domains[x][vcpu];
  }

  lemma CreateKeepsSched(hv: Hv, creator: nat, x: nat, mayCreate: bool)
    ensures After(hv, Guest(creator, DomainCreate(x, mayCreate))).sched == hv.sched
  {
  }

  lemma DestroyedIsDead(hv: Hv, x: nat, now: nat)
    requires x < |hv.live|
    ensures Destroyed(hv, x, now).DeadTarget(x) && Destroyed(hv, x, now).sched == S.OfflineAll(hv.sched, x, now)
  {
  }

  lemma AffinityAccepted(hv: Hv, caller: nat, x: nat, vcpu: nat, mask: nat)
    requires hv.IsLive(caller) && hv.IsLive(x) && C.Controls(hv.controls, caller, x)
             && hv.sched.IsIn(S.Id(x, vcpu), S.Offline)
    ensures After(hv, Guest(caller, SchedSetAffinity(x, vcpu, mask)))
            == var id, kept := S.Id(x, vcpu), S.And(mask, S.FullMask(|hv.sched.pcpus|), 64);
               hv.(sched := hv.sched.With(id, hv.sched.At(id).(affinity := kept)))
  {
    hide S.And, S.FullMask;
  }

  lemma DestroyAccepted(hv: Hv, caller: nat, x: nat, now: nat)
    requires hv.IsLive(caller) && hv.IsLive(x) && C.Controls(hv.controls, caller, x)
    ensures After(hv, Guest(caller, DomainDestroy(x, now))) == Destroyed(hv, x, now)
  {
  }

  lemma CreateAccepted(hv: Hv, caller: nat, x: nat, mayCreate: bool)
    requires hv.IsLive(caller) && caller < |hv.mayCreate| && hv.mayCreate[caller] && hv.DeadTarget(x)
    ensures After(hv, Guest(caller, DomainCreate(x, mayCreate))).IsLive(x)
    ensures After(hv, Guest(caller, DomainCreate(x, mayCreate))).sched == hv.sched
  {
  }

  /** So a tenant can inherit a mask, and always when its creator plants one: narrow the mask of an
      offline vCPU, destroy the domain and create it again, and the newborn's vCPU carries it. */
  lemma PlantedMask(hv: Hv, caller: nat, x: nat, vcpu: nat, mask: nat, now: nat)
    requires Inv(hv) && hv.IsLive(caller) && caller < |hv.mayCreate| && hv.mayCreate[caller]
             && C.Controls(hv.controls, caller, x)
    requires hv.sched.IsIn(S.Id(x, vcpu), S.Offline)
    ensures var planted := After(hv, Guest(caller, SchedSetAffinity(x, vcpu, mask)));
            var dead := After(planted, Guest(caller, DomainDestroy(x, now)));
            var reborn := After(dead, Guest(caller, DomainCreate(x, false)));
            && dead.DeadTarget(x) && reborn.IsLive(x) && reborn.sched.Has(S.Id(x, vcpu))
            && reborn.sched.At(S.Id(x, vcpu)).affinity == S.And(mask, S.FullMask(|hv.sched.pcpus|), 64)
  {
    hide Inv, After, Destroyed, S.And, S.FullMask;
    var id := S.Id(x, vcpu);
    RightsTraceToRoot(hv, caller, x);
    AffinityAccepted(hv, caller, x, vcpu, mask);
    var planted := After(hv, Guest(caller, SchedSetAffinity(x, vcpu, mask)));
    DestroyAccepted(planted, caller, x, now);
    DestroyedKeeps(planted, caller, id, now);
    CreateAccepted(Destroyed(planted, x, now), caller, x, false);
  }

  lemma DestroyedKeeps(hv: Hv, caller: nat, id: S.Id, now: nat)
    requires hv.IsLive(caller) && caller < |hv.mayCreate| && hv.mayCreate[caller] && caller != id.dom
             && hv.IsLive(id.dom)
    requires hv.sched.IsIn(id, S.Offline)
    ensures var hv' := Destroyed(hv, id.dom, now);
            && hv'.IsLive(caller) && caller < |hv'.mayCreate| && hv'.mayCreate[caller] && hv'.DeadTarget(id.dom)
            && hv'.sched.Has(id) && hv'.sched.At(id) == hv.sched.At(id)
  {
  }

  // ----- creation undone -----

  lemma SilentTeardown(e: E.State, x: nat)
    requires E.Inv(e) && E.Silent(e, x)
    ensures E.Teardown(e, x) == e
  {
    hide E.Teardown;
    E.TeardownShape(e, x);
    forall d: nat | d < |e.domains|
      ensures E.Teardown(e, x).domains[d] == e.domains[d]
    {
      forall p: nat | p < |e.domains[d]|
        ensures E.Teardown(e, x).domains[d][p] == e.domains[d][p]
      {
        assert e.Has(d, p);
        E.SilentAt(e, x, d, p);
        E.PortAt(e, d, p);
        if e.At(d, p).state.Interdomain? && e.At(d, p).state.remote == x {
          E.SilentAt(e, x, x, e.At(d, p).state.remotePort);
        }
        E.TeardownExact(e, x, d, p);
        assert E.Teardown(e, x).At(d, p) == E.Teardown(e, x).domains[d][p];
      }
    }
    assert E.Teardown(e, x).domains == e.domains;
  }

  lemma UngrantedTeardown(g: G.State, x: nat)
    requires G.Inv(g) && Ungranted(g, x)
    ensures G.Teardown(g, x) == g
  {
    forall h | h in g.maps
      ensures h.grantee != x && g.maps[h].grantor != x
    {
      G.BackedAt(g, h);
    }
    var g' := G.Teardown(g, x);
    assert G.HeldBy(g, x) == {} && G.ForeignOver(g, x) == {};
    assert g'.maps == g.maps;
    forall d: nat | d < |g.entries|
      ensures g'.entries[d] == g.entries[d]
    {
      forall r: nat | r < |g.entries[d]|
        ensures g'.entries[d][r] == g.entries[d][r]
      {
        assert g.entries[d][r].Access? ==> g.Granted(d, r);
      }
    }
    assert g'.entries == g.entries;
  }

  lemma OfflineTeardown(s: S.State, x: nat, now: nat)
    requires S.Inv(s) && AllOffline(s, x)
    ensures S.OfflineAll(s, x, now) == s
  {
    if x < |s.domains| {
      var s' := S.OfflineAll(s, x, now);
      forall v: nat | v < |s.domains[x]|
        ensures s'.domains[x][v] == s.domains[x][v]
      {
        assert s.Has(S.Id(x, v)) && s.At(S.Id(x, v)) == s.domains[x][v];
      }
      assert s'.domains[x] == s.domains[x];
      assert s'.domains == s.domains;
      forall p: nat | p < |s.pcpus|
        ensures s'.pcpus[p] == s.pcpus[p]
      {
        assert s.pcpus[p].Some? ==> s.Has(s.pcpus[p].value) && s.At(s.pcpus[p].value).state == S.Running(p);
      }
      assert s'.pcpus == s.pcpus;
    }
  }

  lemma OwnlessTeardown(g: G.State, p: P.State, x: nat)
    requires P.Inv(p) && Backed(g, p) && OwnsNothing(p, x)
    ensures P.Teardown(p, x, Backing(g, |p.pages|)) == p
  {
    hide P.Held, P.Teardown, LooseOf, Backed;
    var loose := Backing(g, |p.pages|);
    forall k | k in p.links
      ensures k !in P.Touching(p, x)
    {
      assert p.OwnerOf(k.parent) != Some(x) && p.OwnerOf(p.links[k].child) != Some(x);
    }
    forall m: nat | p.Allocated(m)
      ensures p.pages[m].loose == loose[m]
    {
      LooseAt(g, p, m);
    }
    assert P.Touching(p, x) == {};
    assert p.links - {} == p.links;
    forall m: nat
      ensures p.OwnerOf(m) != Some(x)
    {
    }
    assert P.Shrunk(p, p, x);
    P.TeardownUnique(p, p, x, loose);
  }

  /** The column of a domain just created holds its root alone; taking the domain away again takes
      that and nothing else. */
  lemma ControlsUndone(c: C.Matrix, live: seq<bool>, caller: nat, x: nat)
    requires C.Inv(c, live) && caller < |live| && x < |live| && live[caller] && !live[x]
    ensures C.Remove(C.Put(c, caller, x, C.Root), x) == c
  {
    var n, c' := |live|, C.Put(c, caller, x, C.Root);
    C.CreateKeepsInv(c, live, caller, x);
    assert c == C.Strip(c', x) by {
      forall h: nat, t: nat | h < n && t < n
        ensures C.Strip(c', x)[h][t] == c[h][t]
      {
        if C.Controls(c, h, t) {
          C.ControlsAt(c, live, h, t);
        }
      }
      forall h: nat | h < n
        ensures C.Strip(c', x)[h] == c[h]
      {
      }
    }
    hide C.Inv, C.Sweep, C.Strip;
    forall h: nat, t: nat | h < n && t < n
      ensures C.Sweep(c)[h][t] == c[h][t] && |C.Sweep(c)| == n && |C.Sweep(c)[h]| == n
    {
      SweptCell(c, live, h, t);
    }
    SweptShape(c, live);
    forall h: nat | h < n
      ensures C.Sweep(c)[h] == c[h]
    {
    }
    assert C.Sweep(c) == c;
  }

  lemma SweptShape(c: C.Matrix, live: seq<bool>)
    requires C.Inv(c, live)
    ensures C.Square(C.Sweep(c), |live|) && C.Square(c, |live|)
  {
  }

  lemma SweptCell(c: C.Matrix, live: seq<bool>, h: nat, t: nat)
    requires C.Inv(c, live) && h < |live| && t < |live|
    ensures C.Square(C.Sweep(c), |live|) && C.Square(c, |live|) && C.Sweep(c)[h][t] == c[h][t]
  {
    C.ColumnAt(c, live, t);
    C.BoundedWalkExact(C.ColumnOf(c, t), h);
    C.ColumnCell(c, |live|, h, t);
  }

  /** Destroying a domain that has just been created restores the whole hypervisor, exactly. */
  lemma CreateThenDestroy(hv: Hv, caller: nat, x: nat, mayCreate: bool, now: nat)
    requires Inv(hv) && hv.IsLive(caller) && caller < |hv.mayCreate| && hv.mayCreate[caller] && hv.DeadTarget(x)
    ensures After(After(hv, Guest(caller, DomainCreate(x, mayCreate))), Guest(caller, DomainDestroy(x, now))) == hv
  {
    CleanAt(hv, x);
    SilentTeardown(hv.evtchn, x);
    UngrantedTeardown(hv.grant, x);
    OfflineTeardown(hv.sched, x, now);
    OwnlessTeardown(hv.grant, hv.p2m, x);
    ControlsUndone(hv.controls, hv.live, caller, x);
    HoldsNone(hv.device, x);
    hide E.Teardown, G.Teardown, S.OfflineAll, P.Teardown, C.Remove, D.ReleaseAllOf, Backing;
    var created := After(hv, Guest(caller, DomainCreate(x, mayCreate)));
    CreatedState(hv, caller, x, mayCreate);
    DestroyAccepted(created, caller, x, now);
    assert Set(created.live, x, false) == hv.live;
    assert Set(created.mayCreate, x, false) == hv.mayCreate;
  }

  lemma HoldsNone(d: D.State, x: nat)
    requires !D.Holds(d, x)
    ensures D.ReleaseAllOf(d, x) == d
  {
  }

  lemma CreatedState(hv: Hv, caller: nat, x: nat, mayCreate: bool)
    requires Inv(hv) && hv.IsLive(caller) && caller < |hv.mayCreate| && hv.mayCreate[caller] && hv.DeadTarget(x)
    ensures var created := After(hv, Guest(caller, DomainCreate(x, mayCreate)));
            && created == hv.(live := Set(hv.live, x, true), mayCreate := Set(hv.mayCreate, x, mayCreate),
                              controls := C.Put(hv.controls, caller, x, C.Root))
            && created.IsLive(caller) && created.IsLive(x) && C.Controls(created.controls, caller, x)
  {
  }
}
