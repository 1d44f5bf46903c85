/** The hypervisor as it runs: five subsystem objects, the lifecycle flags and the control matrix,
    all updated in place behind one dispatcher. Every call is proved to enact its transition of
    `HypervisorModel`; a refused call leaves the abstract state as it was. */
module Hypervisors {
  import opened Basics
  import opened HypervisorModel
  import opened HypervisorSafety
  import TeardownModel
  import Theorems = HypervisorTheorems
  import E = EvtchnModel
  import G = GrantModel
  import S = SchedModel
  import P = P2mModel
  import C = ControlModel
  import Evtchn
  import Grants = Grant
  import Sched
  import P2m
  import Device

  /** The call did what `spec` says: its new state and answer, or its error and nothing else. */
  ghost predicate Follows(before: Hv, after: Hv, spec: Answer, r: Result<Outcome, Error>) {
    match spec
    case Success(next) => r == Success(next.outcome) && after == next.hv
    case Failure(e) => r == Failure(e) && after == before
  }

  lemma RefusalFollows(hv: Hv, e: Error)
    ensures Follows(hv, hv, Failure(e), Failure(e))
  {
  }

  class Hypervisor {
    const evtchn: Evtchn.System
    const grant: Grants.System
    const sched: Sched.System
    const p2m: P2m.System
    const device: Device.System
    var life: seq<bool>
    var mayCreate: seq<bool>
    var controls: C.Matrix

    ghost function Abs(): Hv
      reads this, evtchn, grant, sched, p2m, device
    {
      Hv(evtchn.Abs(), grant.abs, sched.Abs(), p2m.abs, device.Abs(), life, mayCreate, controls)
    }

    /** Every subsystem's counts and vectors are in order. */
    ghost predicate Parts()
      reads this, evtchn, grant, sched, p2m, device
    {
      evtchn.Valid() && grant.Valid() && sched.Valid() && p2m.Valid()
    }

    ghost predicate Valid()
      reads this, evtchn, grant, sched, p2m, device
    {
      Parts() && Inv(Abs())
    }

    /** The four counters of every allocated frame, between calls, against the entries, pins and
        mappings that stand. */
    lemma CountersAreExact(m: nat)
      requires Valid() && m < |p2m.frames| && p2m.frames[m].Allocated?
      ensures p2m.abs.Allocated(m)
      ensures var f, pages, maps := p2m.frames[m], p2m.abs, grant.abs;
              var pin := if f.pinned then 1 else 0;
              && f.refs == |Theorems.EntriesInto(pages, m)| + |P.From(pages.links, m)| + pin
                           + |Theorems.MapsOf(maps, m)|
              && f.refs <= U32_MAX
              && f.writableRefs == |P.Into(pages.links, m, P.Writable)| + |G.Reaching(maps, m, true)|
              && f.executableRefs == |P.Into(pages.links, m, P.Exec)|
              && f.pagetableRefs == |P.Into(pages.links, m, P.Table)| + |P.From(pages.links, m)| + pin
    {
      P2m.CountsAt(p2m.frames, p2m.abs, m);
      Theorems.ExactAccounting(Abs(), m);
    }

    constructor (domains: nat, ports: nat, grefs: nat, vcpus: nat, pcpus: nat, frames: nat, devices: nat)
      ensures Valid() && fresh(evtchn) && fresh(grant) && fresh(sched) && fresh(p2m) && fresh(device)
      ensures Abs() == New(domains, ports, grefs, vcpus, pcpus, frames, devices)
    {
      evtchn := new Evtchn.System(domains, ports);
      grant := new Grants.System(domains, grefs);
      sched := new Sched.System(domains, vcpus, pcpus);
      p2m := new P2m.System(domains, frames);
      device := new Device.System(domains, devices);
      life := seq(domains, d => d == 0);
      mayCreate := seq(domains, d => d == 0);
      controls := seq(domains, _ => seq(domains, _ => C.Absent));
      new;
      NewInv(domains, ports, grefs, vcpus, pcpus, frames, devices);
    }

    // ----- events and the scheduler -----

    /** Wake whoever a deliverable event on this port is for. */
    method WakeIfDeliverable(d: nat, p: nat)
      requires Parts()
      modifies sched
      ensures Parts() && sched.Abs() == WokenBy(evtchn.Abs(), old(sched.Abs()), Some((d, p)))
    {
      if evtchn.Abs().Has(d, p) && evtchn.domains[d][p].Deliverable() {
        var vcpu := evtchn.domains[d][p].Target();
        if vcpu.Some? {
          var _ := sched.Wake(S.Id(d, vcpu.value));
        }
      }
    }

    /** Perform an event operation, then wake whoever it made an event deliverable to. */
    method Event(d: nat, op: E.Op) returns (r: Result<Outcome, Error>)
      requires Parts()
      modifies evtchn, sched
      ensures Parts() && Follows(old(Abs()), Abs(), EventStep(old(Abs()), d, op), r)
    {
      ghost var e := evtchn.Abs();
      var done := evtchn.Do(d, op);
      if done.Failure? {
        return Failure(EvtchnError(done.error));
      }
      match op {
        case OpSend(p) =>
          E.SendTargetStays(e, d, p);
          var target := E.SendTarget(evtchn.Abs(), d, p);
          if target.Some? {
            WakeIfDeliverable(target.value.0, target.value.1);
          }
        case OpSetMasked(p, masked) =>
          if !masked {
            WakeIfDeliverable(d, p);
          }
        case OpRaiseVirq(_, _) => WakeIfDeliverable(d, done.value.port);
        case _ =>
      }
      return Success(Answered(done.value));
    }

    method GuestEvent(caller: nat, op: GuestEvent) returns (r: Result<Outcome, Error>)
      requires Valid() && Abs().IsLive(caller)
      modifies evtchn, sched
      ensures Valid() && Follows(old(Abs()), Abs(), GuestEventStep(old(Abs()), caller, op), r)
    {
      hide Inv, E.Step;
      ghost var hv := Abs();
      if op.OpAllocUnbound? {
        if op.remote < |life| && !life[op.remote] {
          return Failure(NotAlive);
        }
      }
      if op.OpBindVirq? || op.OpBindIpi? {
        if caller < |sched.domains| && op.vcpu >= |sched.domains[caller]| {
          return Failure(SchedError(S.BadVcpu));
        }
      }
      r := Event(caller, op);
      if r.Success? {
        EventKeepsInv(hv, caller, op);
      }
    }

    method RaiseVcpuVirq(d: nat, vcpu: nat, virq: nat) returns (r: Result<Outcome, Error>)
      requires Valid()
      modifies evtchn, sched
      ensures Valid() && Follows(old(Abs()), Abs(), RaiseVirq(old(Abs()), d, vcpu, virq), r)
    {
      hide Inv;
      ghost var hv := Abs();
      r := Event(d, E.OpRaiseVirq(vcpu, virq));
      if r.Success? {
        Theorems.RaiseKeepsInv(hv, d, vcpu, virq);
        var p := r.value.answer.port;
        return Success(Raised(evtchn.Abs().Has(d, p) && evtchn.domains[d][p].Deliverable()));
      }
    }

    method Schedule(op: S.Op) returns (r: Result<Outcome, Error>)
      requires Parts()
      modifies sched
      ensures Parts() && Follows(old(Abs()), Abs(), SchedStep(old(Abs()), op), r)
    {
      var refused := sched.Do(op);
      return if refused.Some? then Failure(SchedError(refused.value)) else Success(Done);
    }

    /** A vCPU with an event waiting is not put to sleep. */
    method SchedBlock(caller: nat, vcpu: nat, now: nat) returns (r: Result<Outcome, Error>)
      requires Valid() && Abs().IsLive(caller)
      modifies sched
      ensures Valid() && Follows(old(Abs()), Abs(), Block(old(Abs()), caller, vcpu, now), r)
    {
      hide Inv, S.Step;
      ghost var hv := Abs();
      var id := S.Id(caller, vcpu);
      var found := sched.Abs().Find(id);
      if found.Success? && (found.value.state.Running? || found.value.state.Runnable?) {
        var waiting := evtchn.HasDeliverableFor(caller, vcpu);
        if waiting {
          return Success(Done);
        }
      }
      r := Schedule(S.Op.Block(id, now));
      if r.Success? {
        BlockKeepsInv(hv, caller, vcpu, now);
      }
    }

    method SchedOwn(caller: nat, own: OwnOp) returns (r: Result<Outcome, Error>)
      requires Valid() && Abs().IsLive(caller)
      modifies sched
      ensures Valid() && Follows(old(Abs()), Abs(), SchedStep(old(Abs()), own.For(caller)), r)
    {
      hide Inv, S.Step;
      ghost var hv := Abs();
      r := Schedule(own.For(caller));
      if r.Success? {
        SchedKeepsInv(hv, own.For(caller));
      }
    }

    method SchedSetAffinity(caller: nat, target: nat, vcpu: nat, affinity: nat) returns (r: Result<Outcome, Error>)
      requires Valid() && Abs().IsLive(caller)
      modifies sched
      ensures Valid() && Follows(old(Abs()), Abs(), SetAffinity(old(Abs()), caller, target, vcpu, affinity), r)
    {
      hide Inv, S.Step;
      ghost var hv := Abs();
      if target >= |life| {
        return Failure(BadDomain);
      }
      if caller != target && !C.Controls(controls, caller, target) {
        return Failure(Denied);
      }
      Theorems.AffinityTargetIsLive(hv, caller, target);
      r := Schedule(S.Op.SetAffinity(S.Id(target, vcpu), affinity));
      if r.Success? {
        SchedKeepsInv(hv, S.Op.SetAffinity(S.Id(target, vcpu), affinity));
      }
    }

    // ----- grants and pages -----

    /** Map a grant. The mapping is recorded first and rolled back if the frame refuses the
        reference, so a refused call leaves no trace. */
    method MapGranted(caller: nat, grantor: nat, gref: nat, writable: bool) returns (r: Result<Outcome, Error>)
      requires Valid()
      modifies grant, p2m
      ensures Valid() && Follows(old(Abs()), Abs(), MapGrant(old(Abs()), caller, grantor, gref, writable), r)
    {
      hide Inv, P.Acquire, G.Unmap, G.Map;
      ghost var hv := Abs();
      grant.GrantedAgrees(grantor, gref);
      var frame := grant.GrantedFrame(grantor, gref);
      if frame.None? {
        return Failure(GrantError(G.WrongState));
      }
      p2m.OwnerAgrees(frame.value);
      if p2m.OwnerOf(frame.value) != Some(grantor) {
        return Failure(StaleGrant);
      }
      var mapped := grant.Map(caller, grantor, gref, writable);
      if mapped.Failure? {
        return Failure(GrantError(mapped.error));
      }
      var refused;
      if writable {
        refused := p2m.GetType(frame.value, P2m.Writable);
      } else {
        refused := p2m.Get(frame.value);
      }
      if refused.Some? {
        G.MapThenUnmap(hv.grant, caller, grantor, gref, writable);
        var _ := grant.Unmap(caller, mapped.value);
        return Failure(P2mError(refused.value));
      }
      MapGrantKeepsInv(hv, caller, grantor, gref, writable);
      return Success(MapHandle(mapped.value));
    }

    /** Give back the page reference of one released mapping; it is never refused. */
    method Mirror(released: G.Unmapped, ghost g: G.State, ghost h: G.Handle)
      requires p2m.Valid() && G.Inv(g) && Backed(g, p2m.abs) && h in g.maps
      requires G.FrameOf(g, g.maps[h]) == Some(released.frame) && released.writable == g.maps[h].writable
      modifies p2m
      ensures p2m.Valid() && p2m.abs == Mirrored(old(p2m.abs), released)
      ensures G.Inv(G.Discard(g, {h})) && Backed(G.Discard(g, {h}), p2m.abs)
      ensures SameHands(old(p2m.abs), p2m.abs)
      ensures forall owner: nat :: P.Shrunk(old(p2m.abs), p2m.abs, owner)
    {
      hide G.Inv, Backed, P.Inv, P.Release, P.Shrunk;
      ghost var p := p2m.abs;
      MirrorNeverRefused(g, p, h);
      forall owner: nat
        ensures P.Shrunk(p, Mirrored(p, released), owner)
      {
        TeardownModel.MirrorShrinks(g, p, h, owner);
      }
      MirrorIsReturn(p, released);
      var refused;
      if released.writable {
        refused := p2m.PutType(released.frame, P2m.Writable);
      } else {
        refused := p2m.Put(released.frame);
      }
      assert refused.None?;
    }

    lemma MirrorIsReturn(p: P.State, released: G.Unmapped)
      requires P.Release(p, released.frame, MapKind(released.writable), 0).Success?
      ensures P.Returnable(p, released.frame, MapKind(released.writable))
    {
    }

    lemma PageParts(hv: Hv)
      requires Inv(hv)
      ensures G.Inv(hv.grant) && P.Inv(hv.p2m) && Backed(hv.grant, hv.p2m)
    {
    }

    method UnmapGranted(caller: nat, handle: nat) returns (r: Result<Outcome, Error>)
      requires Valid()
      modifies grant, p2m
      ensures Valid() && Follows(old(Abs()), Abs(), UnmapGrant(old(Abs()), caller, handle), r)
    {
      hide Inv, G.Inv, G.FrameOf, P.Inv, Backed, Mirrored;
      ghost var hv := Abs();
      PageParts(hv);
      var unmapped := grant.Unmap(caller, handle);
      if unmapped.Failure? {
        return Failure(GrantError(unmapped.error));
      }
      ghost var h := G.Handle(caller, handle);
      MapOwnedAt(hv.grant, hv.p2m, h);
      Mirror(unmapped.value, hv.grant, h);
      UnmapGrantKeepsInv(hv, caller, handle);
      return Success(Done);
    }

    method CopyGranted(caller: nat, grantor: nat, gref: nat, write: bool) returns (r: Result<Outcome, Error>)
      requires Valid()
      ensures Follows(Abs(), Abs(), CopyGrant(Abs(), caller, grantor, gref, write), r)
    {
      hide Inv;
      grant.GrantedAgrees(grantor, gref);
      var frame := grant.GrantedFrame(grantor, gref);
      if frame.Some? {
        p2m.OwnerAgrees(frame.value);
        if p2m.OwnerOf(frame.value) != Some(grantor) {
          return Failure(StaleGrant);
        }
      }
      var refused := grant.Copy(caller, grantor, gref, write);
      return if refused.Some? then Failure(GrantError(refused.value)) else Success(Done);
    }

    method OfferGrant(caller: nat, gref: nat, grantee: nat, frame: nat, readonly: bool)
      returns (r: Result<Outcome, Error>)
      requires Valid() && Abs().IsLive(caller)
      modifies grant
      ensures Valid() && Follows(old(Abs()), Abs(), Grant(old(Abs()), caller, gref, grantee, frame, readonly), r)
    {
      hide Inv, G.GrantAccess;
      ghost var hv := Abs();
      if grantee < |life| && !life[grantee] {
        return Failure(NotAlive);
      }
      var refused := grant.GrantAccess(caller, gref, grantee, frame, readonly);
      if refused.Some? {
        return Failure(GrantError(refused.value));
      }
      GrantKeepsInv(hv, caller, gref, grantee, frame, readonly);
      return Success(Done);
    }

    method EndGranted(caller: nat, gref: nat) returns (r: Result<Outcome, Error>)
      requires Valid()
      modifies grant
      ensures Valid() && Follows(old(Abs()), Abs(), EndGrant(old(Abs()), caller, gref), r)
    {
      hide Inv, G.EndAccess, P.ForeignLinkedBy;
      ghost var hv := Abs();
      grant.GrantedAgrees(caller, gref);
      var frame := grant.GrantedFrame(caller, gref);
      if frame.Some? {
        var linked := p2m.IsForeignLinkedBy(frame.value, grant.entries[caller][gref].grantee);
        if linked {
          return Failure(GrantError(G.InUse));
        }
      }
      var refused := grant.EndAccess(caller, gref);
      if refused.Some? {
        return Failure(GrantError(refused.value));
      }
      EndGrantKeepsInv(hv, caller, gref);
      return Success(Done);
    }

    /** A guest's operation on its own pages; an entry onto another domain's frame needs a grant. */
    method Memory(caller: nat, op: P.Op) returns (r: Result<Outcome, Error>)
      requires Valid() && Abs().IsLive(caller)
      modifies p2m
      ensures Valid() && Follows(old(Abs()), Abs(), MemoryStep(old(Abs()), caller, op), r)
    {
      hide Inv, P.Step, G.Authorizes;
      ghost var hv := Abs();
      if op.OpLink? {
        p2m.OwnerAgrees(op.edge.child);
        var owner := p2m.OwnerOf(op.edge.child);
        if owner.Some? && owner.value != caller {
          var offered := grant.Authorizes(owner.value, caller, op.edge.child, op.edge.writable);
          if !offered {
            return Failure(Unauthorized);
          }
        }
      }
      var refused := p2m.Do(caller, op);
      if refused.Some? {
        return Failure(P2mError(refused.value));
      }
      MemoryKeepsInv(hv, caller, op);
      return Success(Done);
    }

    // ----- lifecycle -----

    /** Give back the references of drained mappings, in the order they were drained. The drain
        finished first, so between the two the counts run ahead of the mappings that are left;
        each release is still covered by a mapping not yet mirrored. */
    method MirrorAll(released: seq<G.Unmapped>, ghost g: G.State, ghost handles: seq<G.Handle>, ghost owner: nat)
      requires p2m.Valid() && G.Inv(g) && Backed(g, p2m.abs) && Grants.Released(g, handles, released)
      modifies p2m
      ensures p2m.Valid() && SameHands(old(p2m.abs), p2m.abs) && P.Shrunk(old(p2m.abs), p2m.abs, owner)
      ensures Backed(G.Discard(g, G.SetOf(handles)), p2m.abs)
    {
      hide G.Inv, G.FrameOf, Backed, P.Inv, P.Shrunk, Mirrored;
      ghost var p := p2m.abs;
      TeardownModel.ShrunkReflexive(p, owner);
      G.SetOfEnds(g, handles);
      for n := 0 to |released|
        invariant p2m.Valid() && SameHands(p, p2m.abs) && P.Shrunk(p, p2m.abs, owner)
        invariant G.Inv(G.Discard(g, G.SetOf(handles[..n]))) && Backed(G.Discard(g, G.SetOf(handles[..n])), p2m.abs)
      {
        ghost var left, before := G.Discard(g, G.SetOf(handles[..n])), p2m.abs;
        assert handles[n] in left.maps;
        SameFrame(g, left, left.maps[handles[n]]);
        Mirror(released[n], left, handles[n]);
        P.ShrunkTransitive(p, before, p2m.abs, owner);
        G.SetOfNext(g, handles, n);
      }
    }

    /** Reclaim the target's memory: break every foreign reference into it, return every reference
        it holds, and only then take its grants, entries, pins and frames. */
    method Reclaim(target: nat)
      requires grant.Valid() && p2m.Valid() && Backed(grant.abs, p2m.abs)
      modifies grant, p2m
      ensures grant.Valid() && p2m.Valid()
      ensures grant.abs == G.Teardown(old(grant.abs), target)
      ensures p2m.abs == P.Teardown(old(p2m.abs), target, Backing(grant.abs, |old(p2m.abs).pages|))
    {
      hide G.Inv, G.FrameOf, Backed, P.Inv, P.Shrunk, P.Cut, P.UnpinUpTo, P.FreeUpTo, G.RevokeAll, G.RevokeTo,
        G.Teardown, P.Teardown, P.Refs, SameHands, Grants.EntriesCount, Grants.MapsHold, P2m.FramesCount,
        P2m.LinksHold;
      ghost var g, start := grant.abs, p2m.abs;
      TeardownModel.GrantSteps(g, target);
      var foreign, foreignHandles := grant.DrainForeignMapsOf(target);
      ghost var g1 := grant.abs;
      MirrorAll(foreign, g, foreignHandles, target);
      ghost var drained := p2m.abs;
      p2m.UnlinkAllInto(target);
      TeardownModel.CutKeepsBacked(g1, drained, P.ForeignInto(drained, target));
      var own, ownHandles := grant.DrainMapsOf(target);
      ghost var g2 := grant.abs;
      MirrorAll(own, g1, ownHandles, target);
      ghost var s := TeardownModel.Stages(start, drained, p2m.abs);
      grant.RevokeAll(target);
      p2m.UnlinkAll(target);
      p2m.UnpinAll(target);
      p2m.FreeAll(target);
      TeardownModel.PageSteps(g, s, target, g2);
      TeardownModel.RevokeKeepsMaps(g2, target);
      grant.RevokeGrantsTo(target);
    }

    /** Clear every right over the target and every right it holds. */
    method StripControls(target: nat)
      requires C.Square(controls, |life|) && target < |life|
      modifies this`controls
      ensures controls == C.Strip(old(controls), target)
    {
      ghost var c := controls;
      for h := 0 to |life|
        invariant C.Square(controls, |life|)
        invariant forall x, y | 0 <= x < |life| && 0 <= y < |life| ::
                    controls[x][y] == if (y == target && x < h) || (x == target && y < h) then C.Absent else c[x][y]
      {
        controls := C.Put(controls, h, target, C.Absent);
        controls := C.Put(controls, target, h, C.Absent);
      }
      forall x | 0 <= x < |life|
        ensures controls[x] == C.Strip(c, target)[x]
      {
      }
      assert controls == C.Strip(c, target);
    }

    /** Clear every right whose delegator has lost his, and again until a pass clears none. `good`
        is the matrix before the loss, in which every right was rooted. */
    method SweepOrphanedControlEdges(ghost good: C.Matrix, ghost live: seq<bool>)
      requires C.Inv(good, live) && |life| == |live| && C.Within(controls, good, |live|)
      modifies this`controls
      ensures controls == C.Sweep(old(controls))
    {
      hide C.Inv, C.Orphan, C.IsRooted;
      ghost var start, n := controls, |life|;
      C.WithinReflexive(start, good, n);
      var changed := true;
      while changed
        invariant C.Sweeping(controls, start, n) && C.Within(controls, good, n) && C.Square(controls, n)
        invariant !changed ==> forall h: nat, t: nat | h < n && t < n :: !C.Orphan(controls, h, t)
        decreases |C.Standing(controls)|, changed
      {
        changed := false;
        ghost var before := controls;
        for t := 0 to |life|
          invariant C.Sweeping(controls, start, n) && C.Within(controls, good, n) && C.Square(controls, n)
          invariant if changed then |C.Standing(controls)| < |C.Standing(before)| else controls == before
          invariant !changed ==> forall h: nat, u: nat | h < n && u < t :: !C.Orphan(controls, h, u)
        {
          for h := 0 to |life|
            invariant C.Sweeping(controls, start, n) && C.Within(controls, good, n) && C.Square(controls, n)
            invariant if changed then |C.Standing(controls)| < |C.Standing(before)| else controls == before
            invariant !changed ==> forall g: nat, u: nat | g < n && (u < t || (u == t && g < h)) ::
                      !C.Orphan(controls, g, u)
          {
            C.OrphanIs(controls, n, h, t);
            if controls[h][t].Via? {
              C.DelegatorInRange(controls, good, live, h, t);
              if controls[controls[h][t].delegator][t].Absent? {
                C.ClearOrphan(controls, start, n, h, t);
                C.ClearShrinks(controls, h, t);
                C.ClearedWithin(controls, good, n, h, t);
                controls := C.Put(controls, h, t, C.Absent);
                changed := true;
              }
            }
          }
        }
      }
      C.NoOrphanBeyond(controls, n);
      C.SweepDone(controls, start, good, live);
    }

    /** No right over the target, held by it or obtained through it is left. */
    method RemoveControls(target: nat, ghost live: seq<bool>)
      requires C.Inv(controls, live) && |life| == |live| && target < |life|
      modifies this`controls
      ensures controls == C.Remove(old(controls), target)
    {
      hide C.Strip, C.Sweep;
      StripControls(target);
      C.StripWithin(old(controls), |life|, target);
      SweepOrphanedControlEdges(old(controls), live);
    }

    method DomainCreate(caller: nat, target: nat, mayCreateToo: bool) returns (r: Result<Outcome, Error>)
      requires Valid() && Abs().IsLive(caller)
      modifies this
      ensures Valid() && Follows(old(Abs()), Abs(), Create(old(Abs()), caller, target, mayCreateToo), r)
    {
      hide Inv;
      ghost var hv := Abs();
      Sizes(hv);
      if target >= |life| {
        return Failure(BadDomain);
      }
      if !mayCreate[caller] {
        return Failure(Denied);
      }
      if life[target] {
        return Failure(AlreadyAlive);
      }
      life := life[target := true];
      mayCreate := mayCreate[target := mayCreateToo];
      controls := C.Put(controls, caller, target, C.Root);
      CreateKeepsInv(hv, caller, target, mayCreateToo);
      return Success(Done);
    }

    lemma Sizes(hv: Hv)
      requires Inv(hv)
      ensures |hv.mayCreate| == |hv.live| && C.Inv(hv.controls, hv.live) && C.Square(hv.controls, |hv.live|)
    {
    }

    /** Destroy a domain. Past the authority gate nothing can fail, and the result is the one-shot
        teardown of everything that touches the target. */
    method DomainDestroy(caller: nat, target: nat, now: nat) returns (r: Result<Outcome, Error>)
      requires Valid() && Abs().IsLive(caller)
      modifies this, evtchn, grant, sched, p2m, device
      ensures Valid() && Follows(old(Abs()), Abs(), Destroy(old(Abs()), caller, target, now), r)
      ensures r.Success? <==> target < |old(life)| && (caller == target || C.Controls(old(controls), caller, target))
    {
      hide Inv, E.Inv, S.Inv, G.Teardown, P.Teardown, S.OfflineAll, E.CloseAll, E.ClearUnboundInto, C.Inv, C.Remove,
        Backed;
      ghost var hv := Abs();
      Sizes(hv);
      PageParts(hv);
      if target >= |life| {
        return Failure(BadDomain);
      }
      if caller != target && !C.Controls(controls, caller, target) {
        return Failure(Denied);
      }
      evtchn.CloseAll(target);
      sched.TakeAllOffline(target, now);
      Reclaim(target);
      evtchn.ClearUnboundInto(target);
      device.ReleaseAllOf(target);
      life := life[target := false];
      mayCreate := mayCreate[target := false];
      RemoveControls(target, hv.live);
      DestroyKeepsInv(hv, target, now);
      return Success(Done);
    }

    // ----- delegated control -----

    method ControlGrant(caller: nat, target: nat, to: nat) returns (r: Result<Outcome, Error>)
      requires Valid()
      modifies this`controls
      ensures Valid() && Follows(old(Abs()), Abs(), Delegate(old(Abs()), caller, target, to), r)
    {
      hide Inv;
      ghost var hv := Abs();
      if target >= |life| || to >= |life| {
        return Failure(BadDomain);
      }
      if !C.Controls(controls, caller, target) {
        return Failure(Denied);
      }
      if to == target {
        return Failure(Denied);
      }
      if !life[to] {
        return Failure(NotAlive);
      }
      if C.Controls(controls, to, target) {
        return Success(Done);
      }
      controls := C.Put(controls, to, target, C.Via(caller));
      DelegateKeepsInv(hv, caller, target, to);
      return Success(Done);
    }

    /** Whether the node's right over the target came, step by step, from the caller's. The walk is
        cut off after as many steps as there are domains, and that is never too soon. */
    method ControlSubtreeContains(caller: nat, node: nat, target: nat) returns (contained: bool)
      requires C.Inv(controls, life) && node < |life| && target < |life|
      ensures contained == C.Passes(C.ColumnOf(controls, target), caller, node, |life|)
      ensures contained <==> C.Under(C.ColumnOf(controls, target), caller, node)
    {
      ghost var col, n := C.ColumnOf(controls, target), |life|;
      C.ColumnAt(controls, life, target);
      C.BoundedSubtreeExact(col, caller, node);
      var cur: nat := node;
      for i := 0 to |life| + 1
        invariant cur < n
        invariant i <= n ==> C.Passes(col, caller, node, n) == C.Passes(col, caller, cur, n - i)
        invariant i == n + 1 ==> !C.Passes(col, caller, node, n)
      {
        if cur == caller {
          return true;
        }
        C.ColumnCell(controls, n, cur, target);
        match controls[cur][target] {
          case Via(parent) =>
            C.DelegatorInColumn(col, cur);
            cur := parent;
          case _ => return false;
        }
      }
      return false;
    }

    method ControlRevoke(caller: nat, target: nat, from: nat) returns (r: Result<Outcome, Error>)
      requires Valid()
      modifies this`controls
      ensures Valid() && Follows(old(Abs()), Abs(), Revoke(old(Abs()), caller, target, from), r)
    {
      hide Inv, C.Inv, C.Sweep;
      ghost var hv := Abs();
      Sizes(hv);
      if target >= |life| || from >= |life| {
        return Failure(BadDomain);
      }
      if !C.Controls(controls, caller, target) {
        return Failure(Denied);
      }
      var contained := ControlSubtreeContains(caller, from, target);
      if !contained {
        return Failure(Denied);
      }
      C.WithinReflexive(controls, controls, |life|);
      C.ClearedWithin(controls, controls, |life|, from, target);
      controls := C.Put(controls, from, target, C.Absent);
      SweepOrphanedControlEdges(hv.controls, hv.live);
      RevokeKeepsInv(hv, caller, target, from);
      return Success(Done);
    }

    // ----- devices -----

    method DeviceAssign(caller: nat, dev: nat, to: nat) returns (r: Result<Outcome, Error>)
      requires Valid()
      modifies device
      ensures Valid() && Follows(old(Abs()), Abs(), AssignDevice(old(Abs()), caller, dev, to), r)
    {
      hide Inv;
      ghost var hv := Abs();
      DeviceStepKeepsInv(hv, caller, dev, to);
      if to >= |life| {
        return Failure(BadDomain);
      }
      if !C.Controls(controls, caller, to) {
        return Failure(Denied);
      }
      if !life[to] {
        return Failure(NotAlive);
      }
      var refused := device.Assign(dev, to);
      return if refused.Some? then Failure(DeviceError(refused.value)) else Success(Done);
    }

    method DeviceRelease(caller: nat, dev: nat, from: nat) returns (r: Result<Outcome, Error>)
      requires Valid()
      modifies device
      ensures Valid() && Follows(old(Abs()), Abs(), ReleaseDevice(old(Abs()), caller, dev, from), r)
    {
      hide Inv;
      ghost var hv := Abs();
      DeviceStepKeepsInv(hv, caller, dev, from);
      if from >= |life| {
        return Failure(BadDomain);
      }
      if caller != from && !C.Controls(controls, caller, from) {
        return Failure(Denied);
      }
      var refused := device.Release(dev, from);
      return if refused.Some? then Failure(DeviceError(refused.value)) else Success(Done);
    }

    // ----- the dispatcher -----

    /** Only a live domain may call; everything past that gate is the subsystem's verdict. */
    method Dispatch(caller: nat, call: Call) returns (r: Result<Outcome, Error>)
      requires Valid()
      modifies this, evtchn, grant, sched, p2m, device
      ensures Valid() && Follows(old(Abs()), Abs(), Route(old(Abs()), caller, call), r)
    {
      hide Inv, Valid, Parts, GuestEventStep, HypervisorModel.Grant, EndGrant, MapGrant, UnmapGrant, CopyGrant,
        SchedStep, Block, SetAffinity, MemoryStep, Create, Destroy, Delegate, Revoke, AssignDevice, ReleaseDevice,
        Follows;
      if caller >= |life| {
        RefusalFollows(Abs(), BadDomain);
        return Failure(BadDomain);
      }
      if !life[caller] {
        RefusalFollows(Abs(), NotAlive);
        return Failure(NotAlive);
      }
      match call
      case Event(op) => r := GuestEvent(caller, op);
      case GrantAccess(gref, grantee, frame, readonly) => r := OfferGrant(caller, gref, grantee, frame, readonly);
      case GrantEndAccess(gref) => r := EndGranted(caller, gref);
      case GrantMap(grantor, gref, writable) => r := MapGranted(caller, grantor, gref, writable);
      case GrantUnmap(handle) => r := UnmapGranted(caller, handle);
      case GrantCopy(grantor, gref, writable) => r := CopyGranted(caller, grantor, gref, writable);
      case Schedule(own) => r := SchedOwn(caller, own);
      case SchedBlock(vcpu, now) => r := this.SchedBlock(caller, vcpu, now);
      case SchedSetAffinity(target, vcpu, affinity) => r := this.SchedSetAffinity(caller, target, vcpu, affinity);
      case Memory(op) => r := this.Memory(caller, op);
      case DomainCreate(target, mayCreateToo) => r := this.DomainCreate(caller, target, mayCreateToo);
      case DomainDestroy(target, now) => r := this.DomainDestroy(caller, target, now);
      case ControlGrant(target, to) => r := this.ControlGrant(caller, target, to);
      case ControlRevoke(target, from) => r := this.ControlRevoke(caller, target, from);
      case DeviceAssign(dev, to) => r := this.DeviceAssign(caller, dev, to);
      case DeviceRelease(dev, from) => r := this.DeviceRelease(caller, dev, from);
    }

    /** Take one transition. Whatever it was and whatever came of it, the abstract state moves as
        `After` says, and every invariant still holds. */
    method Apply(t: Transition) returns (r: Result<Outcome, Error>)
      requires Valid()
      modifies this, evtchn, grant, sched, p2m, device
      ensures Valid() && Follows(old(Abs()), Abs(), HypervisorModel.Apply(old(Abs()), t), r)
      ensures Abs() == After(old(Abs()), t)
    {
      hide Inv, Route, RaiseVirq;
      match t
      case Guest(caller, call) => r := Dispatch(caller, call);
      case RaiseVcpuVirq(d, vcpu, virq) => r := RaiseVcpuVirq(d, vcpu, virq);
    }
  }
}
