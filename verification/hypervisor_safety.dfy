/** Whole-run safety: what every reachable hypervisor state satisfies. */
module HypervisorSafety {
  import opened Basics
  import opened HypervisorModel
  import E = EvtchnModel
  import G = GrantModel
  import S = SchedModel
  import P = P2mModel
  import D = DeviceModel
  import C = ControlModel

  // ----- the invariants that join the subsystems -----

  ghost predicate Sized(hv: Hv) {
    var n := |hv.live|;
    && |hv.evtchn.domains| == n && |hv.grant.entries| == n && |hv.sched.domains| == n
    && hv.p2m.numDomains == n && hv.device.numDomains == n && |hv.mayCreate| == n
  }

  /** Every mapping is over a frame its grantor owns, and the references no page-table entry or
      pin accounts for are exactly the mappings. */
  ghost predicate Backed(g: G.State, p: P.State) {
    && (forall h | h in g.maps :: MapOwned(g, p, h))
    && (forall m: nat {:trigger p.Allocated(m)} | p.Allocated(m) :: p.pages[m].loose == LooseOf(g, m))
  }

  ghost predicate MapOwned(g: G.State, p: P.State, h: G.Handle)
    requires h in g.maps
  {
    var frame := G.FrameOf(g, g.maps[h]);
    frame.Some? && p.OwnerOf(frame.value) == Some(g.maps[h].grantor)
  }

  /** No deliverable event is for a blocked vCPU. */
  ghost predicate NoLostWakeup(e: E.State, s: S.State) {
    forall d: nat, p: nat {:trigger e.Has(d, p)} | e.Has(d, p) && e.At(d, p).Deliverable()
        && e.At(d, p).Target().Some? ::
      !s.IsIn(S.Id(d, e.At(d, p).Target().value), S.Blocked)
  }

  /** Every entry onto another domain's frame is covered by that domain's grant to the domain
      whose table it is, at matching permission. */
  ghost predicate LinksAuthorized(g: G.State, p: P.State) {
    forall k | k in p.links :: LinkAuthorized(g, p, k)
  }

  ghost predicate LinkAuthorized(g: G.State, p: P.State, k: P.Key)
    requires k in p.links
  {
    var child := p.links[k].child;
    p.OwnerOf(child).Some? && p.OwnerOf(k.parent).Some?
    && (p.OwnerOf(child) != p.OwnerOf(k.parent) ==>
          G.Authorizes(g, p.OwnerOf(child).value, p.OwnerOf(k.parent).value, child, p.links[k].writable))
  }

  ghost predicate AllOffline(s: S.State, d: nat) {
    forall v: nat {:trigger s.Has(S.Id(d, v))} | s.Has(S.Id(d, v)) :: s.At(S.Id(d, v)).state.Offline?
  }

  ghost predicate OwnsNothing(p: P.State, d: nat) {
    forall m: nat {:trigger p.OwnerOf(m)} :: p.OwnerOf(m) != Some(d)
  }

  /** Nothing is offered by `d` or to it. */
  ghost predicate Ungranted(g: G.State, d: nat) {
    forall x: nat, r: nat {:trigger g.entries[x][r]} | g.Granted(x, r) :: x != d && g.entries[x][r].grantee != d
  }

  /** A dead domain holds nothing, and nothing anywhere names it. */
  ghost predicate Clean(hv: Hv, d: nat) {
    && E.Silent(hv.evtchn, d)
    && AllOffline(hv.sched, d)
    && Ungranted(hv.grant, d)
    && OwnsNothing(hv.p2m, d)
    && !D.Holds(hv.device, d)
    && !(d < |hv.mayCreate| && hv.mayCreate[d])
  }

  ghost predicate DeadAreClean(hv: Hv) {
    forall d: nat {:trigger hv.DeadTarget(d)} | hv.DeadTarget(d) :: Clean(hv, d)
  }

  ghost predicate Inv(hv: Hv) {
    && Sized(hv)
    && E.Inv(hv.evtchn) && G.Inv(hv.grant) && S.Inv(hv.sched) && P.Inv(hv.p2m) && C.Inv(hv.controls, hv.live)
    && Backed(hv.grant, hv.p2m)
    && NoLostWakeup(hv.evtchn, hv.sched)
    && LinksAuthorized(hv.grant, hv.p2m)
    && DeadAreClean(hv)
  }

  lemma CleanAt(hv: Hv, d: nat)
    requires DeadAreClean(hv) && hv.DeadTarget(d)
    ensures Clean(hv, d)
  {
  }

  lemma NewInv(domains: nat, ports: nat, grefs: nat, vcpus: nat, pcpus: nat, frames: nat, devices: nat)
    ensures Inv(New(domains, ports, grefs, vcpus, pcpus, frames, devices))
  {
    var hv := New(domains, ports, grefs, vcpus, pcpus, frames, devices);
    E.NewInv(domains, ports);
    G.NewInv(domains, grefs);
    S.NewInv(domains, vcpus, pcpus);
    P.NewInv(domains, frames);
    C.NewInv(domains, hv.live);
    forall d: nat | hv.DeadTarget(d)
      ensures Clean(hv, d)
    {
      BootIsClean(hv, d, domains, ports, grefs, vcpus, pcpus, frames, devices);
    }
  }

  lemma BootIsClean(hv: Hv, d: nat, domains: nat, ports: nat, grefs: nat, vcpus: nat, pcpus: nat, frames: nat,
                    devices: nat)
    requires hv == New(domains, ports, grefs, vcpus, pcpus, frames, devices) && 0 < d
    ensures Clean(hv, d)
  {
    assert E.Silent(hv.evtchn, d);
    assert AllOffline(hv.sched, d);
    assert Ungranted(hv.grant, d) by {
      assert forall x: nat, r: nat :: !hv.grant.Granted(x, r);
    }
    assert OwnsNothing(hv.p2m, d);
  }

  // ----- events and vCPUs -----

  /** One scheduler transition: other domains' vCPUs are untouched, and only `Block` blocks. */
  ghost predicate OwnVcpusOnly(s: S.State, s': S.State, d: nat, newlyBlocked: Option<S.Id>) {
    && |s'.domains| == |s.domains|
    && (forall id: S.Id {:trigger s'.Has(id)} :: s'.Has(id) <==> s.Has(id))
    && (forall id: S.Id {:trigger s'.At(id)} | s'.Has(id) && s.Has(id) ::
          && (id.dom != d ==> s'.At(id) == s.At(id))
          && (s'.At(id).state.Blocked? ==> s.At(id).state.Blocked? || newlyBlocked == Some(id)))
  }

  lemma SchedIsOwn(s: S.State, op: S.Op)
    requires S.Inv(s) && S.Step(s, op).Success?
    ensures S.Inv(S.Step(s, op).value)
    ensures OwnVcpusOnly(s, S.Step(s, op).value, op.id.dom, if op.Block? then Some(op.id) else None)
  {
    var s' := S.Step(s, op).value;
    S.StepKeepsInv(s, op);
    forall id: S.Id
      ensures s'.Has(id) <==> s.Has(id)
      ensures s.Has(id) && id.dom != op.id.dom ==> s'.At(id) == s.At(id)
      ensures s.Has(id) && s'.At(id).state.Blocked? ==> s.At(id).state.Blocked? || (op.Block? && id == op.id)
    {
      S.StepTouchesOne(s, op, id);
      assert s.Has(op.id) && s'.At(op.id) == s'.domains[op.id.dom][op.id.vcpu];
    }
  }

  lemma WakeIsOwn(s: S.State, d: nat, vcpu: nat)
    requires S.Inv(s)
    ensures S.Inv(Woken(s, d, vcpu)) && OwnVcpusOnly(s, Woken(s, d, vcpu), d, None)
    ensures !Woken(s, d, vcpu).IsIn(S.Id(d, vcpu), S.Blocked)
  {
    var op := S.Op.Wake(S.Id(d, vcpu));
    if S.Step(s, op).Success? {
      SchedIsOwn(s, op);
    }
  }

  /** Whose vCPUs a woken port belongs to. */
  lemma WokenByIsOwn(e: E.State, s: S.State, port: Option<(nat, nat)>)
    requires S.Inv(s)
    ensures S.Inv(WokenBy(e, s, port))
    ensures WokenBy(e, s, port) == s || (port.Some? && OwnVcpusOnly(s, WokenBy(e, s, port), port.value.0, None))
    ensures port.Some? && e.Has(port.value.0, port.value.1) && e.At(port.value.0, port.value.1).Deliverable()
            && e.At(port.value.0, port.value.1).Target().Some?
            ==> !WokenBy(e, s, port).IsIn(S.Id(port.value.0, e.At(port.value.0, port.value.1).Target().value),
                                          S.Blocked)
  {
    if port.Some? && e.Has(port.value.0, port.value.1) && e.At(port.value.0, port.value.1).Target().Some? {
      WakeIsOwn(s, port.value.0, e.At(port.value.0, port.value.1).Target().value);
    }
  }

  lemma NotBlocked(e: E.State, s: S.State, d: nat, p: nat)
    requires NoLostWakeup(e, s) && e.Has(d, p) && e.At(d, p).Deliverable() && e.At(d, p).Target().Some?
    ensures !s.IsIn(S.Id(d, e.At(d, p).Target().value), S.Blocked)
  {
  }

  /** Waking whoever a newly deliverable event is for keeps every event heard. */
  lemma EventKeepsWakeups(e: E.State, e': E.State, s: S.State, port: Option<(nat, nat)>)
    requires NoLostWakeup(e, s) && S.Inv(s) && E.NoLouder(e, e', port)
    ensures NoLostWakeup(e', WokenBy(e', s, port))
  {
  }

  lemma SchedKeepsWakeups(e: E.State, s: S.State, s': S.State, d: nat)
    requires NoLostWakeup(e, s) && OwnVcpusOnly(s, s', d, None)
    ensures NoLostWakeup(e, s')
  {
  }

  lemma OwnKeepsOffline(s: S.State, s': S.State, d: nat, blocked: Option<S.Id>, x: nat)
    requires OwnVcpusOnly(s, s', d, blocked) && x != d && AllOffline(s, x)
    ensures AllOffline(s', x)
  {
  }

  lemma WakeKeepsOffline(e: E.State, s: S.State, port: Option<(nat, nat)>, x: nat)
    requires S.Inv(s) && AllOffline(s, x)
    ensures AllOffline(WokenBy(e, s, port), x)
  {
    WokenByIsOwn(e, s, port);
    if port.Some? && port.value.0 != x && WokenBy(e, s, port) != s {
      OwnKeepsOffline(s, WokenBy(e, s, port), port.value.0, None, x);
    } else if port.Some? && port.value.0 == x && WokenBy(e, s, port) != s {
      assert s.Has(S.Id(x, e.At(x, port.value.1).Target().value));
    }
  }

  lemma EventKeepsInv(hv: Hv, d: nat, op: E.Op)
    requires Inv(hv) && EventStep(hv, d, op).Success? && !hv.DeadTarget(d)
    requires op.OpAllocUnbound? ==> !hv.DeadTarget(op.remote)
    ensures Inv(EventStep(hv, d, op).value.hv)
  {
    hide E.Step, E.Inv, E.Discreet, E.NoLouder, E.Silent, S.Inv, WokenBy, NoLostWakeup, AllOffline, OwnVcpusOnly;
    hide P.Inv, G.Inv, C.Inv, Backed, LinksAuthorized, Ungranted, OwnsNothing, D.Holds;
    var hv', e', notified := EventStep(hv, d, op).value.hv, E.Step(hv.evtchn, d, op).value.state,
      E.Notified(hv.evtchn, d, op);
    E.StepKeepsInv(hv.evtchn, d, op);
    DiscreetParts(hv.evtchn, e', d, op);
    WokenByIsOwn(e', hv.sched, notified);
    EventKeepsWakeups(hv.evtchn, e', hv.sched, notified);
    WokenSize(e', hv.sched, notified);
    forall x: nat | hv'.DeadTarget(x)
      ensures Clean(hv', x)
    {
      CleanAt(hv, x);
      WakeKeepsOffline(e', hv.sched, notified, x);
    }
  }

  lemma WokenSize(e: E.State, s: S.State, port: Option<(nat, nat)>)
    requires S.Inv(s)
    ensures |WokenBy(e, s, port).domains| == |s.domains|
  {
  }

  lemma DiscreetParts(e: E.State, e': E.State, d: nat, op: E.Op)
    requires E.Inv(e) && E.Step(e, d, op).Success? && e' == E.Step(e, d, op).value.state
    ensures E.NoLouder(e, e', E.Notified(e, d, op)) && |e'.domains| == |e.domains|
    ensures forall x: nat {:trigger E.Silent(e', x)} | x != d && !(op == E.OpAllocUnbound(x)) && E.Silent(e, x) ::
            E.Silent(e', x)
  {
    hide E.Step;
    E.StepIsDiscreet(e, d, op);
    E.StepKeepsInv(e, d, op);
  }

  /** A scheduler transition of a live domain's vCPU, other than putting it to sleep. */
  lemma SchedKeepsInv(hv: Hv, op: S.Op)
    requires Inv(hv) && SchedStep(hv, op).Success? && !hv.DeadTarget(op.id.dom) && !op.Block?
    ensures Inv(SchedStep(hv, op).value.hv)
  {
    var s' := S.Step(hv.sched, op).value;
    SchedIsOwn(hv.sched, op);
    hide S.Step, S.Inv, OwnVcpusOnly, NoLostWakeup, AllOffline, E.Silent, Ungranted, OwnsNothing, D.Holds;
    hide E.Inv, P.Inv, G.Inv, C.Inv, Backed, LinksAuthorized;
    SchedKeepsWakeups(hv.evtchn, hv.sched, s', op.id.dom);
    OwnSize(hv.sched, s', op.id.dom, None);
    SchedKeepsClean(hv, SchedStep(hv, op).value.hv, op.id.dom, None);
  }

  lemma OwnSize(s: S.State, s': S.State, d: nat, blocked: Option<S.Id>)
    requires OwnVcpusOnly(s, s', d, blocked)
    ensures |s'.domains| == |s.domains|
  {
  }

  lemma SchedKeepsClean(hv: Hv, hv': Hv, d: nat, blocked: Option<S.Id>)
    requires DeadAreClean(hv) && !hv.DeadTarget(d) && hv' == hv.(sched := hv'.sched)
    requires OwnVcpusOnly(hv.sched, hv'.sched, d, blocked)
    ensures DeadAreClean(hv')
  {
    hide OwnVcpusOnly, AllOffline, E.Silent, Ungranted, OwnsNothing, D.Holds;
    forall x: nat | hv'.DeadTarget(x)
      ensures Clean(hv', x)
    {
      CleanAt(hv, x);
      OwnKeepsOffline(hv.sched, hv'.sched, d, blocked, x);
    }
  }

  /** A vCPU that goes to sleep has no event waiting: the block that would sleep through one is
      turned into a no-op. */
  lemma BlockKeepsInv(hv: Hv, caller: nat, vcpu: nat, now: nat)
    requires Inv(hv) && Block(hv, caller, vcpu, now).Success? && !hv.DeadTarget(caller)
    ensures Inv(Block(hv, caller, vcpu, now).value.hv)
  {
    var hv', id := Block(hv, caller, vcpu, now).value.hv, S.Id(caller, vcpu);
    if hv' != hv {
      var op := S.Op.Block(id, now);
      SchedIsOwn(hv.sched, op);
      BlockOnlyQuiet(hv, caller, vcpu, now);
      hide S.Step, S.Inv, AllOffline, E.Silent, Ungranted, OwnsNothing, D.Holds;
      hide E.Inv, P.Inv, G.Inv, C.Inv, Backed, LinksAuthorized;
      SchedKeepsClean(hv, hv', caller, Some(id));
      forall d: nat, p: nat | hv.evtchn.Has(d, p) && hv.evtchn.At(d, p).Deliverable()
          && hv.evtchn.At(d, p).Target().Some?
        ensures !hv'.sched.IsIn(S.Id(d, hv.evtchn.At(d, p).Target().value), S.Blocked)
      {
        NotBlocked(hv.evtchn, hv.sched, d, p);
        NobodyWaits(hv.evtchn, caller, vcpu, d, p);
      }
    }
  }

  lemma NobodyWaits(e: E.State, d: nat, vcpu: nat, x: nat, p: nat)
    requires !e.Waiting(d, vcpu) && e.Has(x, p) && e.At(x, p).Deliverable()
    ensures x == d ==> e.At(x, p).Target() != Some(vcpu)
  {
  }

  lemma BlockOnlyQuiet(hv: Hv, caller: nat, vcpu: nat, now: nat)
    requires Block(hv, caller, vcpu, now).Success? && Block(hv, caller, vcpu, now).value.hv != hv
    ensures S.Step(hv.sched, S.Op.Block(S.Id(caller, vcpu), now)).Success?
    ensures Block(hv, caller, vcpu, now).value.hv
            == hv.(sched := S.Step(hv.sched, S.Op.Block(S.Id(caller, vcpu), now)).value)
    ensures !hv.evtchn.Waiting(caller, vcpu)
  {
  }

  // ----- grants and the pages behind them -----

  lemma MapOwnedAt(g: G.State, p: P.State, h: G.Handle)
    requires Backed(g, p) && h in g.maps
    ensures MapOwned(g, p, h)
  {
  }

  lemma LooseAt(g: G.State, p: P.State, m: nat)
    requires Backed(g, p) && p.Allocated(m)
    ensures p.pages[m].loose == LooseOf(g, m)
  {
  }

  /** Issuing or ending a grant leaves the live mappings and what they reach as they were. */
  lemma EntriesKeepBacked(g: G.State, g': G.State, p: P.State)
    requires Backed(g, p) && G.Inv(g) && G.Inv(g') && g'.maps == g.maps
    requires forall d: nat, r: nat | g.Granted(d, r) && g'.Granted(d, r) :: g'.entries[d][r] == g.entries[d][r]
    ensures Backed(g', p)
  {
    forall h | h in g'.maps
      ensures MapOwned(g', p, h)
    {
      MapOwnedAt(g, p, h);
      assert G.Backs(g, h) && G.Backs(g', h);
    }
    forall m: nat | p.Allocated(m)
      ensures p.pages[m].loose == LooseOf(g', m)
    {
      LooseAt(g, p, m);
      G.EntryChangeKeepsFrames(g, g', m, false);
      G.EntryChangeKeepsFrames(g, g', m, true);
    }
  }

  lemma GrantKeepsInv(hv: Hv, caller: nat, gref: nat, grantee: nat, frame: nat, readonly: bool)
    requires Inv(hv) && Grant(hv, caller, gref, grantee, frame, readonly).Success? && !hv.DeadTarget(caller)
    ensures Inv(Grant(hv, caller, gref, grantee, frame, readonly).value.hv)
  {
    var hv' := Grant(hv, caller, gref, grantee, frame, readonly).value.hv;
    G.GrantAccessKeepsInv(hv.grant, caller, gref, grantee, frame, readonly);
    hide E.Inv, P.Inv, G.Inv, S.Inv, C.Inv, Backed, NoLostWakeup, E.Silent, AllOffline, OwnsNothing, D.Holds;
    EntriesKeepBacked(hv.grant, hv'.grant, hv.p2m);
    forall k | k in hv.p2m.links
      ensures LinkAuthorized(hv'.grant, hv.p2m, k)
    {
      assert LinkAuthorized(hv.grant, hv.p2m, k);
      MoreGrants(hv.grant, caller, gref, G.Access(grantee, frame, readonly));
    }
    forall x: nat | hv'.DeadTarget(x)
      ensures Clean(hv', x)
    {
      CleanAt(hv, x);
      EntryKeepsUngranted(hv.grant, caller, gref, G.Access(grantee, frame, readonly), x);
    }
  }

  lemma EntryKeepsUngranted(g: G.State, d: nat, r: nat, entry: G.Entry, x: nat)
    requires Ungranted(g, x) && g.Has(d, r) && (entry.Access? ==> d != x && entry.grantee != x)
    ensures Ungranted(g.With(d, r, entry), x)
  {
    var g' := g.With(d, r, entry);
    forall a: nat, b: nat | g'.Granted(a, b)
      ensures a != x && g'.entries[a][b].grantee != x
    {
      if (a, b) != (d, r) {
        assert g'.entries[a][b] == g.entries[a][b] && g.Granted(a, b);
      }
    }
  }

  /** A grant in a free slot withdraws no permission. */
  lemma MoreGrants(g: G.State, d: nat, r: nat, entry: G.Entry)
    requires g.Has(d, r) && g.entries[d][r].Free?
    ensures forall x: nat, y: nat, m: nat, w: bool | G.Authorizes(g, x, y, m, w) ::
            G.Authorizes(g.With(d, r, entry), x, y, m, w)
  {
    forall x: nat, y: nat, m: nat, w: bool | G.Authorizes(g, x, y, m, w)
      ensures G.Authorizes(g.With(d, r, entry), x, y, m, w)
    {
      var i :| 0 <= i < G.Width(g, x) && G.Offers(g, x, i, y, m, w);
      assert G.Offers(g.With(d, r, entry), x, i, y, m, w);
    }
  }

  lemma EndGrantKeepsInv(hv: Hv, caller: nat, gref: nat)
    requires Inv(hv) && EndGrant(hv, caller, gref).Success?
    ensures Inv(EndGrant(hv, caller, gref).value.hv)
  {
    var hv' := EndGrant(hv, caller, gref).value.hv;
    G.EndAccessKeepsInv(hv.grant, caller, gref);
    hide E.Inv, P.Inv, G.Inv, S.Inv, C.Inv, Backed, NoLostWakeup, E.Silent, AllOffline, OwnsNothing, D.Holds;
    EntriesKeepBacked(hv.grant, hv'.grant, hv.p2m);
    forall k | k in hv.p2m.links
      ensures LinkAuthorized(hv'.grant, hv.p2m, k)
    {
      EndGrantKeepsLink(hv, caller, gref, k);
    }
    forall x: nat | hv'.DeadTarget(x)
      ensures Clean(hv', x)
    {
      CleanAt(hv, x);
      EntryKeepsUngranted(hv.grant, caller, gref, G.Free, x);
    }
  }

  /** A grant that a standing foreign entry may rest on cannot be ended. */
  lemma EndGrantKeepsLink(hv: Hv, caller: nat, gref: nat, k: P.Key)
    requires LinksAuthorized(hv.grant, hv.p2m) && EndGrant(hv, caller, gref).Success? && k in hv.p2m.links
    ensures LinkAuthorized(EndGrant(hv, caller, gref).value.hv.grant, hv.p2m, k)
  {
    var g, g', p := hv.grant, EndGrant(hv, caller, gref).value.hv.grant, hv.p2m;
    assert LinkAuthorized(g, p, k);
    var e := p.links[k];
    if p.OwnerOf(e.child) != p.OwnerOf(k.parent) {
      var x, y := p.OwnerOf(e.child).value, p.OwnerOf(k.parent).value;
      var i :| 0 <= i < G.Width(g, x) && G.Offers(g, x, i, y, e.child, e.writable);
      assert !(x == caller && i == gref);
      assert G.Offers(g', x, i, y, e.child, e.writable);
    }
  }

  /** The same frames, owners and entries. */
  ghost predicate SameHands(p: P.State, p': P.State) {
    && p'.numDomains == p.numDomains && p'.links == p.links
    && forall m: nat {:trigger p'.OwnerOf(m)} :: p'.OwnerOf(m) == p.OwnerOf(m)
  }

  lemma HandsKeepLinks(g: G.State, g': G.State, p: P.State, p': P.State)
    requires LinksAuthorized(g, p) && g'.entries == g.entries && SameHands(p, p')
    ensures LinksAuthorized(g', p')
  {
    forall k | k in p'.links
      ensures LinkAuthorized(g', p', k)
    {
      assert LinkAuthorized(g, p, k);
      if p'.OwnerOf(p'.links[k].child) != p'.OwnerOf(k.parent) {
        SameOffers(g, g', p.OwnerOf(p.links[k].child).value, p.OwnerOf(k.parent).value, p.links[k].child,
                   p.links[k].writable);
      }
    }
  }

  lemma SameOffers(g: G.State, g': G.State, x: nat, y: nat, m: nat, w: bool)
    requires g'.entries == g.entries && G.Authorizes(g, x, y, m, w)
    ensures G.Authorizes(g', x, y, m, w)
  {
    var i :| 0 <= i < G.Width(g, x) && G.Offers(g, x, i, y, m, w);
    assert G.Offers(g', x, i, y, m, w);
  }

  lemma HandsKeepClean(hv: Hv, hv': Hv)
    requires DeadAreClean(hv) && SameHands(hv.p2m, hv'.p2m) && hv'.grant.entries == hv.grant.entries
    requires hv' == hv.(grant := hv'.grant, p2m := hv'.p2m)
    ensures DeadAreClean(hv')
  {
    hide E.Silent, AllOffline, D.Holds;
    forall x: nat | hv'.DeadTarget(x)
      ensures Clean(hv', x)
    {
      CleanAt(hv, x);
      assert Ungranted(hv'.grant, x) by {
        forall a: nat, b: nat | hv'.grant.Granted(a, b)
          ensures a != x && hv'.grant.entries[a][b].grantee != x
        {
          assert hv.grant.Granted(a, b);
        }
      }
    }
  }

  /** Acquiring or releasing what a mapping needs moves one loose reference and nothing else. */
  lemma AcquireLoosens(p: P.State, m: nat, writable: bool)
    requires P.Inv(p) && P.Acquire(p, m, MapKind(writable), 0).Success?
    ensures p.Allocated(m)
    ensures P.Acquire(p, m, MapKind(writable), 0).value == p.With(m, P.Loosened(p.pages[m], MapKind(writable), 1))
    ensures P.Inv(P.Acquire(p, m, MapKind(writable), 0).value)
            && SameHands(p, P.Acquire(p, m, MapKind(writable), 0).value)
  {
    P.AcquireKeepsInv(p, m, MapKind(writable), 0);
  }

  lemma ReleaseLoosens(p: P.State, m: nat, writable: bool)
    requires P.Inv(p) && p.Allocated(m) && p.pages[m].loose.Of(MapKind(writable)) > 0
    ensures P.Release(p, m, MapKind(writable), 0) == Success(p.With(m, P.Loosened(p.pages[m], MapKind(writable), -1)))
    ensures P.Inv(P.Release(p, m, MapKind(writable), 0).value)
            && SameHands(p, P.Release(p, m, MapKind(writable), 0).value)
  {
    P.ReleaseKeepsInv(p, m, MapKind(writable), 0);
  }

  /** `more` is `less` with one more mapping, which reaches `frame`. */
  ghost predicate OneMore(less: G.State, more: G.State, h: G.Handle, frame: nat) {
    && h in more.maps && h !in less.maps
    && more.entries == less.entries && less.maps == more.maps - {h}
    && G.FrameOf(more, more.maps[h]) == Some(frame)
  }

  lemma SameFrame(less: G.State, more: G.State, mapping: G.Mapping)
    requires more.entries == less.entries
    ensures G.FrameOf(less, mapping) == G.FrameOf(more, mapping)
  {
  }

  lemma OneMoreReaches(less: G.State, more: G.State, h: G.Handle, frame: nat, m: nat, w: bool)
    requires OneMore(less, more, h, frame)
    ensures G.Reaching(more, m, w)
            == G.Reaching(less, m, w) + if m == frame && w == more.maps[h].writable then {h} else {}
  {
  }

  lemma OneMoreLoose(less: G.State, more: G.State, h: G.Handle, frame: nat, m: nat)
    requires OneMore(less, more, h, frame)
    ensures LooseOf(more, m)
            == if m == frame
               then LooseOf(less, m).With(MapKind(more.maps[h].writable),
                                          LooseOf(less, m).Of(MapKind(more.maps[h].writable)) + 1)
               else LooseOf(less, m)
  {
    OneMoreReaches(less, more, h, frame, m, false);
    OneMoreReaches(less, more, h, frame, m, true);
    assert forall w {:trigger G.Reaching(less, m, w)} :: h !in G.Reaching(less, m, w);
    hide G.Reaching, OneMore;
  }

  /** A mapping added together with its reference is backed, and so are all the others. */
  lemma AddKeepsBacked(less: G.State, more: G.State, h: G.Handle, frame: nat, p: P.State)
    requires OneMore(less, more, h, frame) && Backed(less, p) && p.OwnerOf(frame) == Some(more.maps[h].grantor)
    ensures Backed(more, p.With(frame, P.Loosened(p.pages[frame], MapKind(more.maps[h].writable), 1)))
  {
    hide LooseOf, G.FrameOf, P.Inv;
    var p' := p.With(frame, P.Loosened(p.pages[frame], MapKind(more.maps[h].writable), 1));
    forall k | k in more.maps
      ensures MapOwned(more, p', k)
    {
      if k != h {
        MapOwnedAt(less, p, k);
      }
      SameFrame(less, more, more.maps[k]);
    }
    forall m: nat | p'.Allocated(m)
      ensures p'.pages[m].loose == LooseOf(more, m)
    {
      LooseAt(less, p, m);
      OneMoreLoose(less, more, h, frame, m);
    }
  }

  /** A mapping dropped together with its reference leaves every other mapping backed. */
  lemma DropKeepsBacked(less: G.State, more: G.State, h: G.Handle, frame: nat, p: P.State)
    requires OneMore(less, more, h, frame) && Backed(more, p)
    ensures p.Allocated(frame) && p.pages[frame].loose.Of(MapKind(more.maps[h].writable)) > 0
    ensures Backed(less, p.With(frame, P.Loosened(p.pages[frame], MapKind(more.maps[h].writable), -1)))
  {
    hide LooseOf, G.FrameOf, P.Inv;
    MapOwnedAt(more, p, h);
    LooseAt(more, p, frame);
    OneMoreLoose(less, more, h, frame, frame);
    var p' := p.With(frame, P.Loosened(p.pages[frame], MapKind(more.maps[h].writable), -1));
    forall k | k in less.maps
      ensures MapOwned(less, p', k)
    {
      MapOwnedAt(more, p, k);
      SameFrame(less, more, less.maps[k]);
    }
    forall m: nat | p'.Allocated(m)
      ensures p'.pages[m].loose == LooseOf(less, m)
    {
      LooseAt(more, p, m);
      OneMoreLoose(less, more, h, frame, m);
    }
  }

  lemma MapIsOneMore(g: G.State, caller: nat, grantor: nat, gref: nat, writable: bool)
    requires G.Map(g, caller, grantor, gref, writable).Success? && g.GrantedFrame(grantor, gref).Some?
    ensures var placed := G.Map(g, caller, grantor, gref, writable).value;
            var h := G.Handle(caller, placed.handle);
            OneMore(g, placed.state, h, g.GrantedFrame(grantor, gref).value)
            && placed.state.maps[h] == G.Mapping(grantor, gref, writable)
  {
  }

  lemma MapGrantKeepsInv(hv: Hv, caller: nat, grantor: nat, gref: nat, writable: bool)
    requires Inv(hv) && MapGrant(hv, caller, grantor, gref, writable).Success?
    ensures Inv(MapGrant(hv, caller, grantor, gref, writable).value.hv)
  {
    var hv' := MapGrant(hv, caller, grantor, gref, writable).value.hv;
    var frame := hv.grant.GrantedFrame(grantor, gref).value;
    MapIsOneMore(hv.grant, caller, grantor, gref, writable);
    AcquireLoosens(hv.p2m, frame, writable);
    AddKeepsBacked(hv.grant, hv'.grant,
                   G.Handle(caller, MapGrant(hv, caller, grantor, gref, writable).value.outcome.handle),
                   frame, hv.p2m);
    assert SameHands(hv.p2m, hv'.p2m);
    G.MapKeepsInv(hv.grant, caller, grantor, gref, writable);
    hide P.Acquire, P.Inv, G.Inv, E.Inv, S.Inv, C.Inv, Backed, NoLostWakeup, LinksAuthorized;
    HandsKeepLinks(hv.grant, hv'.grant, hv.p2m, hv'.p2m);
    HandsKeepClean(hv, hv');
  }

  /** A live mapping holds the reference its unmapping gives back: the mirrored release is never
      refused, and leaves every other mapping backed. */
  lemma MirrorNeverRefused(g: G.State, p: P.State, h: G.Handle)
    requires G.Inv(g) && P.Inv(p) && Backed(g, p) && h in g.maps
    ensures G.Unmap(g, h.grantee, h.number).Success?
    ensures var dropped := G.Unmap(g, h.grantee, h.number).value;
            && P.Release(p, dropped.released.frame, MapKind(dropped.released.writable), 0).Success?
            && dropped.state == G.Discard(g, {h})
            && G.Inv(dropped.state) && P.Inv(Mirrored(p, dropped.released))
               && SameHands(p, Mirrored(p, dropped.released))
            && Backed(dropped.state, Mirrored(p, dropped.released))
  {
    hide P.Inv, G.Inv, Backed, P.Release;
    var dropped := G.Unmap(g, h.grantee, h.number).value;
    MapOwnedAt(g, p, h);
    DropKeepsBacked(dropped.state, g, h, dropped.released.frame, p);
    ReleaseLoosens(p, dropped.released.frame, dropped.released.writable);
    G.DiscardKeepsInv(g, {h});
  }

  lemma UnmapGrantKeepsInv(hv: Hv, caller: nat, handle: nat)
    requires Inv(hv) && UnmapGrant(hv, caller, handle).Success?
    ensures Inv(UnmapGrant(hv, caller, handle).value.hv)
  {
    var hv' := UnmapGrant(hv, caller, handle).value.hv;
    MirrorNeverRefused(hv.grant, hv.p2m, G.Handle(caller, handle));
    hide Mirrored, P.Inv, G.Inv, E.Inv, S.Inv, C.Inv, Backed, NoLostWakeup, LinksAuthorized;
    HandsKeepLinks(hv.grant, hv'.grant, hv.p2m, hv'.p2m);
    HandsKeepClean(hv, hv');
  }

  // ----- a guest's own pages -----

  lemma FrameAt(p: P.State, p': P.State, caller: nat, op: P.Op, m: nat)
    requires P.Confined(p, p', caller, op)
    ensures |p'.pages| == |p.pages|
            && (m < |p.pages| ==> P.FrameConfined(p.pages[m], p'.pages[m], caller, P.Reached(p, op, m)))
  {
  }

  lemma UnreachedIsNone(g: G.State, p: P.State, m: nat)
    requires Backed(g, p) && !p.Allocated(m)
    ensures LooseOf(g, m) == P.NONE_LOOSE
    ensures forall h | h in g.maps :: G.FrameOf(g, g.maps[h]) != Some(m)
  {
  }

  /** A guest cannot free a frame somebody maps, so its own operations keep every mapping backed. */
  lemma ConfinedKeepsBacked(g: G.State, p: P.State, p': P.State, caller: nat, op: P.Op)
    requires Backed(g, p) && P.Confined(p, p', caller, op)
    ensures Backed(g, p')
  {
    hide LooseOf, G.FrameOf, P.Confined;
    forall h | h in g.maps
      ensures MapOwned(g, p', h)
    {
      MapOwnedAt(g, p, h);
      var frame := G.FrameOf(g, g.maps[h]).value;
      LooseAt(g, p, frame);
      HeldReference(g, h, frame);
      FrameAt(p, p', caller, op, frame);
    }
    forall m: nat | p'.Allocated(m)
      ensures p'.pages[m].loose == LooseOf(g, m)
    {
      FrameAt(p, p', caller, op, m);
      if p.Allocated(m) {
        LooseAt(g, p, m);
      } else {
        UnreachedIsNone(g, p, m);
      }
    }
  }

  lemma HeldReference(g: G.State, h: G.Handle, frame: nat)
    requires h in g.maps && G.FrameOf(g, g.maps[h]) == Some(frame)
    ensures LooseOf(g, frame) != P.NONE_LOOSE
  {
    assert h in G.Reaching(g, frame, g.maps[h].writable);
  }

  lemma ConfinedKeepsLinks(hv: Hv, caller: nat, op: P.Op, p': P.State)
    requires LinksAuthorized(hv.grant, hv.p2m) && P.Inv(p') && !LinkRefused(hv, caller, op)
    requires P.Confined(hv.p2m, p', caller, op)
    ensures LinksAuthorized(hv.grant, p')
  {
    var p := hv.p2m;
    hide G.Authorizes, P.Held, P.Reached;
    forall k | k in p'.links
      ensures LinkAuthorized(hv.grant, p', k)
    {
      assert P.EdgeInv(p', k);
      FrameAt(p, p', caller, op, k.parent);
      FrameAt(p, p', caller, op, p'.links[k].child);
      if k in p.links {
        assert LinkAuthorized(hv.grant, p, k);
      }
    }
  }

  lemma MemoryKeepsInv(hv: Hv, caller: nat, op: P.Op)
    requires Inv(hv) && MemoryStep(hv, caller, op).Success? && !hv.DeadTarget(caller)
    ensures Inv(MemoryStep(hv, caller, op).value.hv)
  {
    hide P.Step, P.Inv, P.Confined, LinkRefused, G.Inv, E.Inv, S.Inv, C.Inv, Backed, NoLostWakeup, LinksAuthorized;
    hide E.Silent, AllOffline, D.Holds, Ungranted, OwnsNothing;
    var hv' := MemoryStep(hv, caller, op).value.hv;
    P.StepKeepsInv(hv.p2m, caller, op);
    P.StepIsConfined(hv.p2m, caller, op);
    ConfinedKeepsBacked(hv.grant, hv.p2m, hv'.p2m, caller, op);
    ConfinedKeepsLinks(hv, caller, op, hv'.p2m);
    ConfinedKeepsOwners(hv.p2m, hv'.p2m, caller, op);
    forall x: nat | hv'.DeadTarget(x)
      ensures Clean(hv', x)
    {
      CleanAt(hv, x);
    }
  }

  lemma ConfinedKeepsOwners(p: P.State, p': P.State, caller: nat, op: P.Op)
    requires P.Confined(p, p', caller, op)
    ensures p'.numDomains == p.numDomains
    ensures forall x: nat {:trigger OwnsNothing(p', x)} | x != caller && OwnsNothing(p, x) :: OwnsNothing(p', x)
  {
    forall x: nat, m: nat | x != caller && OwnsNothing(p, x)
      ensures p'.OwnerOf(m) != Some(x)
    {
      FrameAt(p, p', caller, op, m);
      assert p.OwnerOf(m) != Some(x);
    }
  }

  // ----- authority and devices -----

  lemma ControlKeepsInv(hv: Hv, controls: C.Matrix)
    requires Inv(hv) && C.Inv(controls, hv.live)
    ensures Inv(hv.(controls := controls))
  {
    hide E.Inv, G.Inv, S.Inv, P.Inv, C.Inv, Backed, NoLostWakeup, LinksAuthorized, Clean;
    var hv' := hv.(controls := controls);
    forall x: nat | hv'.DeadTarget(x)
      ensures Clean(hv', x)
    {
      CleanAt(hv, x);
      assert Clean(hv', x) by { SameClean(hv, hv', x); }
    }
  }

  lemma SameClean(hv: Hv, hv': Hv, x: nat)
    requires Clean(hv, x) && hv' == hv.(controls := hv'.controls, live := hv'.live)
    ensures Clean(hv', x)
  {
  }

  lemma DelegateKeepsInv(hv: Hv, caller: nat, target: nat, to: nat)
    requires Inv(hv) && Delegate(hv, caller, target, to).Success?
    ensures Inv(Delegate(hv, caller, target, to).value.hv)
  {
    hide Inv, C.Inv;
    if !C.Controls(hv.controls, to, target) {
      assert C.Inv(hv.controls, hv.live) by { ControlOf(hv); }
      C.DelegateMatrixKeepsInv(hv.controls, hv.live, caller, target, to);
      ControlKeepsInv(hv, C.Put(hv.controls, to, target, C.Via(caller)));
    }
  }

  lemma ControlOf(hv: Hv)
    requires Inv(hv)
    ensures C.Inv(hv.controls, hv.live)
  {
  }

  lemma RevokeKeepsInv(hv: Hv, caller: nat, target: nat, from: nat)
    requires Inv(hv) && Revoke(hv, caller, target, from).Success?
    ensures Inv(Revoke(hv, caller, target, from).value.hv)
  {
    hide Inv, C.Inv;
    ControlOf(hv);
    C.RevokeKeepsInv(hv.controls, hv.live, target, from);
    ControlKeepsInv(hv, C.Revoke(hv.controls, target, from));
  }

  lemma CreateKeepsInv(hv: Hv, caller: nat, target: nat, mayCreate: bool)
    requires Inv(hv) && Create(hv, caller, target, mayCreate).Success? && hv.IsLive(caller)
    ensures Inv(Create(hv, caller, target, mayCreate).value.hv)
  {
    hide E.Inv, G.Inv, S.Inv, P.Inv, C.Inv, Backed, NoLostWakeup, LinksAuthorized, E.Silent, AllOffline, Ungranted,
      OwnsNothing, D.Holds;
    var hv' := Create(hv, caller, target, mayCreate).value.hv;
    C.CreateKeepsInv(hv.controls, hv.live, caller, target);
    forall x: nat | hv'.DeadTarget(x)
      ensures Clean(hv', x)
    {
      CleanAt(hv, x);
    }
  }

  lemma DeviceKeepsInv(hv: Hv, device: D.State)
    requires Inv(hv) && device.numDomains == hv.device.numDomains
    requires forall x: nat | hv.DeadTarget(x) && D.Holds(device, x) :: D.Holds(hv.device, x)
    ensures Inv(hv.(device := device))
  {
    hide E.Inv, G.Inv, S.Inv, P.Inv, C.Inv, Backed, NoLostWakeup, LinksAuthorized, E.Silent, AllOffline, Ungranted,
      OwnsNothing, D.Holds;
    var hv' := hv.(device := device);
    forall x: nat | hv'.DeadTarget(x)
      ensures Clean(hv', x)
    {
      CleanAt(hv, x);
    }
  }

  lemma DeviceStepKeepsInv(hv: Hv, caller: nat, dev: nat, d: nat)
    requires Inv(hv)
    ensures AssignDevice(hv, caller, dev, d).Success? ==> Inv(AssignDevice(hv, caller, dev, d).value.hv)
    ensures ReleaseDevice(hv, caller, dev, d).Success? ==> Inv(ReleaseDevice(hv, caller, dev, d).value.hv)
  {
    hide Inv;
    if AssignDevice(hv, caller, dev, d).Success? {
      DeviceKeepsInv(hv, AssignDevice(hv, caller, dev, d).value.hv.device);
    }
    if ReleaseDevice(hv, caller, dev, d).Success? {
      DeviceKeepsInv(hv, ReleaseDevice(hv, caller, dev, d).value.hv.device);
    }
  }

  // ----- death -----

  /** Past the authority gate the target is live: a dead domain has no controller. */
  lemma DestroyTargetIsLive(hv: Hv, caller: nat, target: nat, now: nat)
    requires Inv(hv) && hv.IsLive(caller) && Destroy(hv, caller, target, now).Success?
    ensures hv.IsLive(target)
  {
  }

  lemma OfflineAllIsOwn(s: S.State, d: nat, now: nat)
    requires S.Inv(s)
    ensures S.Inv(S.OfflineAll(s, d, now)) && AllOffline(S.OfflineAll(s, d, now), d)
    ensures OwnVcpusOnly(s, S.OfflineAll(s, d, now), d, None)
  {
    S.OfflineAllKeepsInv(s, d, now);
    var s' := S.OfflineAll(s, d, now);
    forall id: S.Id
      ensures s'.Has(id) <==> s.Has(id)
      ensures s.Has(id) ==> if id.dom == d then s'.At(id).state.Offline? else s'.At(id) == s.At(id)
    {
    }
  }

  lemma TeardownShrinksReach(g: G.State, dom: nat, m: nat)
    requires G.Inv(g)
    ensures forall w :: |G.Reaching(G.Teardown(g, dom), m, w)| <= |G.Reaching(g, m, w)|
  {
    var g' := G.Teardown(g, dom);
    G.TeardownSurvivors(g, dom);
    forall w
      ensures |G.Reaching(g', m, w)| <= |G.Reaching(g, m, w)|
    {
      SubsetSize(G.Reaching(g', m, w), G.Reaching(g, m, w)) by {
        assert forall h | h in g'.maps :: h in g.maps && G.FrameOf(g', g'.maps[h]) == G.FrameOf(g, g.maps[h]);
      }
    }
  }

  lemma BackingShrinks(g: G.State, p: P.State, dom: nat, m: nat)
    requires G.Inv(g) && Backed(g, p) && p.Allocated(m)
    ensures forall kind: P.Kind :: LooseOf(G.Teardown(g, dom), m).Of(kind) <= p.pages[m].loose.Of(kind)
  {
    hide G.Teardown, G.Inv, G.Reaching;
    LooseAt(g, p, m);
    TeardownShrinksReach(g, dom, m);
  }

  /** A mapping that survives a teardown is over a frame that survives it. */
  lemma SurvivorOwned(g: G.State, p: P.State, dom: nat, loose: seq<P.Counts>, h: G.Handle)
    requires G.Inv(g) && Backed(g, p) && |loose| == |p.pages| && h in G.Teardown(g, dom).maps
    ensures MapOwned(G.Teardown(g, dom), P.Teardown(p, dom, loose), h)
  {
    hide P.Teardown, G.Teardown, G.Inv, G.FrameOf;
    G.TeardownSurvivors(g, dom);
    MapOwnedAt(g, p, h);
    P.TeardownExact(p, dom, loose, G.FrameOf(g, g.maps[h]).value);
  }

  lemma TeardownKeepsBacked(g: G.State, p: P.State, dom: nat)
    requires G.Inv(g) && P.Inv(p) && Backed(g, p)
    ensures var p' := P.Teardown(p, dom, Backing(G.Teardown(g, dom), |p.pages|));
            P.Inv(p') && Backed(G.Teardown(g, dom), p')
  {
    var g' := G.Teardown(g, dom);
    var loose := Backing(g', |p.pages|);
    var p' := P.Teardown(p, dom, loose);
    hide P.Teardown, G.Teardown, P.Inv, G.Inv, LooseOf, MapOwned;
    forall m: nat, kind: P.Kind | m < |p.pages| && p.pages[m].Page?
      ensures loose[m].Of(kind) <= p.pages[m].loose.Of(kind)
    {
      BackingShrinks(g, p, dom, m);
    }
    P.TeardownKeepsInv(p, dom, loose);
    forall h | h in g'.maps
      ensures MapOwned(g', p', h)
    {
      SurvivorOwned(g, p, dom, loose, h);
    }
    forall m: nat | p'.Allocated(m)
      ensures p'.pages[m].loose == LooseOf(g', m)
    {
      P.TeardownExact(p, dom, loose, m);
    }
  }

  /** A permission between two other domains survives. */
  lemma TeardownKeepsGrant(g: G.State, dom: nat, x: nat, y: nat, m: nat, w: bool)
    requires G.Authorizes(g, x, y, m, w) && x != dom && y != dom
    ensures G.Authorizes(G.Teardown(g, dom), x, y, m, w)
  {
    var i :| 0 <= i < G.Width(g, x) && G.Offers(g, x, i, y, m, w);
    assert G.Offers(G.Teardown(g, dom), x, i, y, m, w);
  }

  lemma TeardownKeepsLinks(g: G.State, p: P.State, dom: nat, loose: seq<P.Counts>)
    requires LinksAuthorized(g, p) && |loose| == |p.pages|
    ensures LinksAuthorized(G.Teardown(g, dom), P.Teardown(p, dom, loose))
  {
    var g', p' := G.Teardown(g, dom), P.Teardown(p, dom, loose);
    hide P.Teardown, G.Teardown, G.Authorizes;
    P.TeardownExact(p, dom, loose, 0);
    forall k | k in p'.links
      ensures LinkAuthorized(g', p', k)
    {
      assert LinkAuthorized(g, p, k) && k !in P.Touching(p, dom);
      P.TeardownExact(p, dom, loose, k.parent);
      P.TeardownExact(p, dom, loose, p.links[k].child);
      if p.OwnerOf(p.links[k].child) != p.OwnerOf(k.parent) {
        TeardownKeepsGrant(g, dom, p.OwnerOf(p.links[k].child).value, p.OwnerOf(k.parent).value,
                           p.links[k].child, p.links[k].writable);
      }
    }
  }

  lemma TeardownUngrants(g: G.State, dom: nat, x: nat)
    ensures Ungranted(G.Teardown(g, dom), dom)
    ensures Ungranted(g, x) ==> Ungranted(G.Teardown(g, dom), x)
  {
    var g' := G.Teardown(g, dom);
    forall a: nat, b: nat | g'.Granted(a, b)
      ensures a != dom && g'.entries[a][b].grantee != dom
      ensures g.Granted(a, b) && g'.entries[a][b] == g.entries[a][b]
    {
    }
  }

  lemma TeardownDisowns(p: P.State, dom: nat, loose: seq<P.Counts>, x: nat)
    requires |loose| == |p.pages|
    ensures P.Teardown(p, dom, loose).numDomains == p.numDomains
    ensures OwnsNothing(P.Teardown(p, dom, loose), dom)
    ensures OwnsNothing(p, x) ==> OwnsNothing(P.Teardown(p, dom, loose), x)
  {
    hide P.Teardown;
    P.TeardownExact(p, dom, loose, 0);
    forall m: nat
      ensures P.Teardown(p, dom, loose).OwnerOf(m) == if p.OwnerOf(m) == Some(dom) then None else p.OwnerOf(m)
    {
      P.TeardownExact(p, dom, loose, m);
    }
    assert OwnsNothing(p, x) ==> forall m: nat :: p.OwnerOf(m) != Some(x);
  }

  lemma ReleaseAllReleases(s: D.State, dom: nat, x: nat)
    ensures !D.Holds(D.ReleaseAllOf(s, dom), dom)
    ensures D.Holds(D.ReleaseAllOf(s, dom), x) ==> D.Holds(s, x)
  {
  }

  lemma DestroyedIsClean(hv: Hv, target: nat, now: nat, x: nat)
    requires Inv(hv) && target < |hv.live| && Destroyed(hv, target, now).DeadTarget(x)
    ensures Clean(Destroyed(hv, target, now), x)
  {
    var loose := Backing(G.Teardown(hv.grant, target), |hv.p2m.pages|);
    E.TeardownKeepsInv(hv.evtchn, target);
    OfflineAllIsOwn(hv.sched, target, now);
    TeardownUngrants(hv.grant, target, x);
    TeardownDisowns(hv.p2m, target, loose, x);
    ReleaseAllReleases(hv.device, target, x);
    hide E.Teardown, E.Silent, S.OfflineAll, AllOffline, G.Teardown, Ungranted, P.Teardown, OwnsNothing,
      D.ReleaseAllOf, D.Holds, OwnVcpusOnly;
    if x != target {
      CleanAt(hv, x);
      E.TeardownKeepsSilent(hv.evtchn, target, x);
      OwnKeepsOffline(hv.sched, S.OfflineAll(hv.sched, target, now), target, None, x);
    }
  }

  lemma DestroyKeepsInv(hv: Hv, target: nat, now: nat)
    requires Inv(hv) && target < |hv.live|
    ensures Inv(Destroyed(hv, target, now))
  {
    var hv' := Destroyed(hv, target, now);
    E.TeardownKeepsInv(hv.evtchn, target);
    E.TeardownShape(hv.evtchn, target);
    G.TeardownKeepsInv(hv.grant, target);
    OfflineAllIsOwn(hv.sched, target, now);
    OwnSize(hv.sched, hv'.sched, target, None);
    C.RemoveKeepsInv(hv.controls, hv.live, target);
    TeardownKeepsBacked(hv.grant, hv.p2m, target);
    hide E.Teardown, E.Inv, S.OfflineAll, S.Inv, G.Teardown, G.Inv, P.Teardown, P.Inv, C.Remove, C.Inv, Backing, Backed;
    hide LinksAuthorized, Clean, OwnVcpusOnly, E.NoLouder, NoLostWakeup;
    BackingSize(hv, target);
    TeardownKeepsLinks(hv.grant, hv.p2m, target, Backing(G.Teardown(hv.grant, target), |hv.p2m.pages|));
    TeardownDisowns(hv.p2m, target, Backing(G.Teardown(hv.grant, target), |hv.p2m.pages|), target);
    EventKeepsWakeups(hv.evtchn, hv'.evtchn, hv.sched, None);
    SchedKeepsWakeups(hv'.evtchn, hv.sched, hv'.sched, target);
    forall x: nat | hv'.DeadTarget(x)
      ensures Clean(hv', x)
    {
      DestroyedIsClean(hv, target, now, x);
    }
  }

  lemma BackingSize(hv: Hv, target: nat)
    ensures |Backing(G.Teardown(hv.grant, target), |hv.p2m.pages|)| == |hv.p2m.pages|
  {
  }
}
