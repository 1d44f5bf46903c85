/** The scheduler mechanism as a transition system: where each vCPU is and how long it has run.

    The state keeps the two records the hypervisor keeps of one fact, each vCPU's run state
    and the table of who occupies each physical CPU. Every transition keeps them in
    bijection and inside the affinity masks, and never credits more CPU time than the
    physical CPUs supplied. */
module SchedModel {
  import opened Basics

  // ----- affinity masks: 64-bit words, bit p admits physical CPU p -----

  predicate Bit(mask: nat, p: nat) {
    if p == 0 then mask % 2 == 1 else Bit(mask / 2, p - 1)
  }

  /** Bitwise conjunction of the low `width` bits. */
  function And(a: nat, b: nat, width: nat): nat {
    if width == 0 then 0
    else (if a % 2 == 1 && b % 2 == 1 then 1 else 0) + 2 * And(a / 2, b / 2, width - 1)
  }

  function Pow2(n: nat): (r: nat)
    ensures r > 0
  {
    if n == 0 then 1 else 2 * Pow2(n - 1)
  }

  /** All physical CPUs admitted; all ones from 64 CPUs up. */
  function FullMask(pcpus: nat): nat {
    Pow2(Min(pcpus, 64)) - 1
  }

  predicate Permits(mask: nat, p: nat) {
    p < 64 && Bit(mask, p)
  }

  lemma {:induction false} AndBit(a: nat, b: nat, width: nat, p: nat)
    ensures Bit(And(a, b, width), p) == (p < width && Bit(a, p) && Bit(b, p))
  {
    if width == 0 {
      ZeroBit(p);
    } else if p > 0 {
      AndBit(a / 2, b / 2, width - 1, p - 1);
    }
  }

  lemma {:induction false} ZeroBit(p: nat)
    ensures !Bit(0, p)
  {
    if p > 0 {
      ZeroBit(p - 1);
    }
  }

  lemma {:induction false} OnesBit(n: nat, p: nat)
    ensures Bit(Pow2(n) - 1, p) == (p < n)
  {
    if n == 0 {
      ZeroBit(p);
    } else if p > 0 {
      assert (Pow2(n) - 1) / 2 == Pow2(n - 1) - 1;
      OnesBit(n - 1, p - 1);
    }
  }

  // ----- state -----

  datatype RunState = Offline | Runnable | Running(pcpu: nat) | Blocked

  datatype VirtualCpu = VirtualCpu(state: RunState, runtime: nat, dispatchedAt: nat, affinity: nat) {
    /** Close the current on-CPU interval at `now`; both steps saturate. */
    function Accounted(now: nat): VirtualCpu {
      this.(runtime := Min(U64_MAX, runtime + SatSub(now, dispatchedAt)))
    }
  }

  datatype Id = Id(dom: nat, vcpu: nat)

  datatype Error = BadDomain | BadVcpu | BadPcpu | WrongState | PcpuBusy | NotAffine

  datatype State = State(domains: seq<seq<VirtualCpu>>, pcpus: seq<Option<Id>>) {
    predicate Has(id: Id) {
      id.dom < |domains| && id.vcpu < |domains[id.dom]|
    }

    function At(id: Id): VirtualCpu
      requires Has(id)
    {
      domains[id.dom][id.vcpu]
    }

    function With(id: Id, v: VirtualCpu): State
      requires Has(id)
    {
      this.(domains := domains[id.dom := domains[id.dom][id.vcpu := v]])
    }

    function Find(id: Id): Result<VirtualCpu, Error> {
      if id.dom >= |domains| then Failure(BadDomain)
      else if id.vcpu >= |domains[id.dom]| then Failure(BadVcpu)
      else Success(domains[id.dom][id.vcpu])
    }

    predicate IsIn(id: Id, state: RunState) {
      Has(id) && At(id).state == state
    }

    predicate IsRunning(id: Id) {
      Has(id) && At(id).state.Running?
    }

    predicate AffinityPermits(id: Id, p: nat) {
      Has(id) && Permits(At(id).affinity, p)
    }

    /** The occupancy table once `v` has left the physical CPU it held, if it held one. */
    function Without(v: VirtualCpu): seq<Option<Id>> {
      if v.state.Running? && v.state.pcpu < |pcpus| then pcpus[v.state.pcpu := None] else pcpus
    }
  }

  lemma WithTwice(s: State, id: Id, v: VirtualCpu, w: VirtualCpu)
    requires s.Has(id)
    ensures s.With(id, v).Has(id) && s.With(id, v).With(id, w) == s.With(id, w)
  {
    var row := s.domains[id.dom];
    assert row[id.vcpu := v][id.vcpu := w] == row[id.vcpu := w];
    assert s.With(id, v).With(id, w).domains == s.With(id, w).domains;
  }

  function New(domains: nat, vcpus: nat, pcpus: nat): State {
    State(seq(domains, _ => seq(vcpus, _ => VirtualCpu(Offline, 0, 0, FullMask(pcpus)))),
          seq(pcpus, _ => None))
  }

  // ----- transitions -----

  datatype Op =
    | Admit(id: Id)
    | Run(id: Id, pcpu: nat, now: nat)
    | Preempt(id: Id, now: nat)
    | Block(id: Id, now: nat)
    | Wake(id: Id)
    | SetAffinity(id: Id, affinity: nat)
    | TakeOffline(id: Id, now: nat)

  function Step(s: State, op: Op): Result<State, Error> {
    match op
    case Admit(id) =>
      var v :- s.Find(id);
      if !v.state.Offline? then Failure(WrongState)
      else Success(s.With(id, v.(state := Runnable)))
    case Run(id, p, now) =>
      if p >= |s.pcpus| then Failure(BadPcpu) else
      var v :- s.Find(id);
      if !v.state.Runnable? then Failure(WrongState)
      else if !Permits(v.affinity, p) then Failure(NotAffine)
      else if s.pcpus[p].Some? then Failure(PcpuBusy)
      else Success(s.With(id, v.(state := Running(p), dispatchedAt := now)).(pcpus := s.pcpus[p := Some(id)]))
    case Preempt(id, now) =>
      var v :- s.Find(id);
      if !v.state.Running? then Failure(WrongState)
      else Success(s.With(id, v.Accounted(now).(state := Runnable)).(pcpus := s.Without(v)))
    case Block(id, now) =>
      var v :- s.Find(id);
      if v.state.Offline? || v.state.Blocked? then Failure(WrongState)
      else
        var closed := if v.state.Running? then v.Accounted(now) else v;
        Success(s.With(id, closed.(state := Blocked)).(pcpus := s.Without(v)))
    case Wake(id) =>
      var v :- s.Find(id);
      if !v.state.Blocked? then Failure(WrongState)
      else Success(s.With(id, v.(state := Runnable)))
    case SetAffinity(id, affinity) =>
      var v :- s.Find(id);
      var mask := And(affinity, FullMask(|s.pcpus|), 64);
      if v.state.Running? && !Permits(mask, v.state.pcpu) then Failure(NotAffine)
      else Success(s.With(id, v.(affinity := mask)))
    case TakeOffline(id, now) =>
      var v :- s.Find(id);
      if v.state.Offline? then Failure(WrongState)
      else Success(s.With(id, Offlined(s, v, now)).(pcpus := s.Without(v)))
  }

  function Offlined(s: State, v: VirtualCpu, now: nat): VirtualCpu {
    (if v.state.Running? then v.Accounted(now) else v).(state := Offline, affinity := FullMask(|s.pcpus|))
  }

  /** Teardown in one shot: every vCPU of `dom` is offline, and every physical CPU one of them
      occupied is idle. */
  function OfflineAll(s: State, dom: nat, now: nat): State {
    if dom >= |s.domains| then s else
    State(s.domains[dom := seq(|s.domains[dom]|, i requires 0 <= i < |s.domains[dom]| =>
            if s.domains[dom][i].state.Offline? then s.domains[dom][i] else Offlined(s, s.domains[dom][i], now))],
          seq(|s.pcpus|, p requires 0 <= p < |s.pcpus| =>
            if s.pcpus[p].Some? && s.pcpus[p].value.dom == dom then None else s.pcpus[p]))
  }

  // ----- the invariant -----

  /** Running vCPUs and occupied physical CPUs are in bijection, inside the masks. */
  ghost predicate Inv(s: State) {
    && (forall id: Id {:trigger s.At(id)} | s.Has(id) && s.At(id).state.Running? ::
          && s.At(id).state.pcpu < |s.pcpus|
          && s.pcpus[s.At(id).state.pcpu] == Some(id)
          && Permits(s.At(id).affinity, s.At(id).state.pcpu))
    && (forall p | 0 <= p < |s.pcpus| && s.pcpus[p].Some? ::
          s.Has(s.pcpus[p].value) && s.At(s.pcpus[p].value).state == Running(p))
  }

  lemma NewInv(domains: nat, vcpus: nat, pcpus: nat)
    ensures Inv(New(domains, vcpus, pcpus))
  {
  }

  /** A transition touches one vCPU. */
  lemma StepTouchesOne(s: State, op: Op, id: Id)
    requires Step(s, op).Success?
    ensures s.Has(op.id) && |Step(s, op).value.pcpus| == |s.pcpus|
    ensures s.Has(id) <==> Step(s, op).value.Has(id)
    ensures s.Has(id) && id != op.id ==> Step(s, op).value.At(id) == s.At(id)
  {
  }

  /** Every accepted transition keeps the bijection and the masks. */
  lemma StepKeepsInv(s: State, op: Op)
    requires Inv(s)
    ensures Step(s, op).Success? ==> Inv(Step(s, op).value)
  {
    if Step(s, op).Success? {
      var s' := Step(s, op).value;
      forall id: Id | s'.Has(id) && s'.At(id).state.Running?
        ensures var p := s'.At(id).state.pcpu;
                p < |s'.pcpus| && s'.pcpus[p] == Some(id) && Permits(s'.At(id).affinity, p)
      {
        StepTouchesOne(s, op, id);
        var v, w := s.At(op.id), s.At(id);
        assert w.state.Running? || id == op.id;
        assert v.state.Running? ==> s.pcpus[v.state.pcpu] == Some(op.id);
      }
      forall p | 0 <= p < |s'.pcpus| && s'.pcpus[p].Some?
        ensures s'.Has(s'.pcpus[p].value) && s'.At(s'.pcpus[p].value).state == Running(p)
      {
        StepTouchesOne(s, op, s'.pcpus[p].value);
      }
    }
  }

  lemma OfflineAllKeepsInv(s: State, dom: nat, now: nat)
    requires Inv(s)
    ensures Inv(OfflineAll(s, dom, now))
  {
    var s' := OfflineAll(s, dom, now);
    forall id: Id | s'.Has(id)
      ensures s.Has(id) && (id.dom != dom ==> s'.At(id) == s.At(id))
      ensures id.dom == dom ==> s'.At(id).state.Offline?
    {
      assert s.Has(id);
      assert s.At(id) == s.domains[id.dom][id.vcpu];
    }
  }

  /** The default mask admits exactly the physical CPUs that exist, up to the word's width. */
  lemma FullMaskPermits(pcpus: nat, p: nat)
    ensures Permits(FullMask(pcpus), p) <==> p < pcpus && p < 64
  {
    OnesBit(Min(pcpus, 64), p);
  }

  /** A mask set through the interface admits just the requested physical CPUs that exist. */
  lemma SetAffinityExact(s: State, id: Id, affinity: nat, p: nat)
    requires Step(s, SetAffinity(id, affinity)).Success?
    ensures Step(s, SetAffinity(id, affinity)).value.AffinityPermits(id, p)
            <==> Permits(affinity, p) && p < |s.pcpus|
  {
    AndBit(affinity, FullMask(|s.pcpus|), 64, p);
    FullMaskPermits(|s.pcpus|, p);
  }

  /** Taking a domain offline part way: its first `i` vCPUs are off and the CPUs they held idle. */
  ghost predicate OfflinedUpTo(s: State, t: State, dom: nat, now: nat, i: nat) {
    && dom < |s.domains| && |t.domains| == |s.domains| && |t.pcpus| == |s.pcpus|
    && i <= |s.domains[dom]| && |t.domains[dom]| == |s.domains[dom]|
    && (forall d | 0 <= d < |s.domains| && d != dom :: t.domains[d] == s.domains[d])
    && (forall j | 0 <= j < |s.domains[dom]| ::
          t.domains[dom][j] == if j < i then OfflineAll(s, dom, now).domains[dom][j] else s.domains[dom][j])
    && (forall p | 0 <= p < |s.pcpus| ::
          t.pcpus[p] == if s.pcpus[p].Some? && s.pcpus[p].value.dom == dom && s.pcpus[p].value.vcpu < i
                        then None else s.pcpus[p])
  }

  /** Taking the next vCPU offline, unless it is already, goes one further. */
  lemma OfflineNext(s: State, t: State, dom: nat, now: nat, i: nat)
    requires Inv(s) && Inv(t) && OfflinedUpTo(s, t, dom, now, i) && i < |s.domains[dom]|
    ensures t.Has(Id(dom, i)) && t.At(Id(dom, i)) == s.At(Id(dom, i))
    ensures var t' := Attempt(t, TakeOffline(Id(dom, i), now)); Inv(t') && OfflinedUpTo(s, t', dom, now, i + 1)
  {
    var t' := Attempt(t, TakeOffline(Id(dom, i), now));
    StepKeepsInv(t, TakeOffline(Id(dom, i), now));
    assert t.At(Id(dom, i)) == s.At(Id(dom, i));
    forall p | 0 <= p < |s.pcpus|
      ensures t'.pcpus[p] == if s.pcpus[p].Some? && s.pcpus[p].value.dom == dom && s.pcpus[p].value.vcpu < i + 1
                             then None else s.pcpus[p]
    {
      if s.pcpus[p].Some? {
        assert s.pcpus[p].value == Id(dom, i) ==> s.At(Id(dom, i)).state == Running(p);
      }
    }
  }

  lemma OfflineDone(s: State, t: State, dom: nat, now: nat)
    requires Inv(s) && OfflinedUpTo(s, t, dom, now, if dom < |s.domains| then |s.domains[dom]| else 0)
    ensures t == OfflineAll(s, dom, now)
  {
    var goal := OfflineAll(s, dom, now);
    assert t.domains[dom] == goal.domains[dom];
    assert t.domains == goal.domains && t.pcpus == goal.pcpus;
  }

  // ----- the default mask of an offline vCPU -----

  /** The documented claim that an offline vCPU always carries the default mask. */
  ghost predicate OfflineMeansDefault(s: State) {
    forall id: Id {:trigger s.At(id)} | s.Has(id) && s.At(id).state.Offline? ::
      s.At(id).affinity == FullMask(|s.pcpus|)
  }

  /** The one call that breaks it: narrowing the mask of a vCPU that is offline. */
  predicate NarrowsOffline(s: State, op: Op) {
    && op.SetAffinity?
    && s.IsIn(op.id, Offline)
    && And(op.affinity, FullMask(|s.pcpus|), 64) != FullMask(|s.pcpus|)
  }

  /** The claim is kept by exactly the transitions that do not narrow an offline vCPU's mask. */
  lemma OfflineDefaultExactlyWhen(s: State, op: Op)
    requires OfflineMeansDefault(s) && Step(s, op).Success?
    ensures OfflineMeansDefault(Step(s, op).value) <==> !NarrowsOffline(s, op)
  {
    var s' := Step(s, op).value;
    forall id: Id
      ensures s.Has(id) && id != op.id ==> s'.At(id) == s.At(id)
      ensures s.Has(id) <==> s'.Has(id)
    {
      StepTouchesOne(s, op, id);
    }
    assert s'.At(op.id) == s'.domains[op.id.dom][op.id.vcpu];
  }

  /** So the claim is false of the code: from boot, one accepted call refutes it. */
  lemma OfflineDefaultFails()
    ensures var s := New(1, 1, 1);
            var r := Step(s, SetAffinity(Id(0, 0), 0));
            OfflineMeansDefault(s) && r.Success? && !OfflineMeansDefault(r.value)
  {
    var s := New(1, 1, 1);
    assert And(0, FullMask(1), 64) % 2 == 0;
    assert FullMask(1) % 2 == 1;
    OfflineDefaultExactlyWhen(s, SetAffinity(Id(0, 0), 0));
  }

  /** Teardown leaves a vCPU at the default mask exactly when the vCPU was online or already
      carried it: offline vCPUs are skipped, so a narrowed mask outlives the domain. */
  lemma OfflineAllMaskExactlyWhen(s: State, id: Id, now: nat)
    requires s.Has(id)
    ensures OfflineAll(s, id.dom, now).Has(id)
    ensures OfflineAll(s, id.dom, now).At(id).state.Offline?
    ensures OfflineAll(s, id.dom, now).At(id).affinity == FullMask(|s.pcpus|)
            <==> !s.At(id).state.Offline? || s.At(id).affinity == FullMask(|s.pcpus|)
  {
  }

  // ----- conservation of CPU time -----

  function RowTime(vs: seq<VirtualCpu>): nat {
    if vs == [] then 0 else RowTime(vs[..|vs| - 1]) + vs[|vs| - 1].runtime
  }

  /** The closed on-CPU time of every vCPU together. */
  function ClosedTime(domains: seq<seq<VirtualCpu>>): nat {
    if domains == [] then 0
    else ClosedTime(domains[..|domains| - 1]) + RowTime(domains[|domains| - 1])
  }

  /** The open on-CPU interval, at `now`, of the occupant of physical CPU `p`. */
  function OpenOn(s: State, now: nat, p: nat): nat
    requires p < |s.pcpus|
  {
    match s.pcpus[p]
    case None => 0
    case Some(id) => if s.Has(id) then SatSub(now, s.At(id).dispatchedAt) else 0
  }

  function OpenTime(s: State, now: nat, n: nat): nat
    requires n <= |s.pcpus|
  {
    if n == 0 then 0 else OpenTime(s, now, n - 1) + OpenOn(s, now, n - 1)
  }

  function TotalTime(s: State, now: nat): nat {
    ClosedTime(s.domains) + OpenTime(s, now, |s.pcpus|)
  }

  lemma {:induction false} RowTimeUpdate(vs: seq<VirtualCpu>, i: nat, v: VirtualCpu)
    requires i < |vs|
    ensures RowTime(vs[i := v]) == RowTime(vs) - vs[i].runtime + v.runtime
  {
    var n := |vs| - 1;
    if i < n {
      assert vs[i := v][..n] == vs[..n][i := v];
      RowTimeUpdate(vs[..n], i, v);
    } else {
      assert vs[i := v][..n] == vs[..n];
    }
  }

  lemma {:induction false} ClosedTimeUpdate(ds: seq<seq<VirtualCpu>>, id: Id, v: VirtualCpu)
    requires id.dom < |ds| && id.vcpu < |ds[id.dom]|
    ensures ClosedTime(ds[id.dom := ds[id.dom][id.vcpu := v]])
            == ClosedTime(ds) - ds[id.dom][id.vcpu].runtime + v.runtime
  {
    var n := |ds| - 1;
    var ds' := ds[id.dom := ds[id.dom][id.vcpu := v]];
    if id.dom < n {
      assert ds'[..n] == ds[..n][id.dom := ds[..n][id.dom][id.vcpu := v]];
      ClosedTimeUpdate(ds[..n], id, v);
    } else {
      assert ds'[..n] == ds[..n];
      RowTimeUpdate(ds[n], id.vcpu, v);
    }
  }

  lemma {:induction false} OpenTimeChange(s: State, s': State, now: nat, n: nat, q: nat)
    requires n <= |s.pcpus| == |s'.pcpus|
    requires forall p | 0 <= p < n && p != q :: OpenOn(s', now, p) == OpenOn(s, now, p)
    ensures OpenTime(s', now, n) - OpenTime(s, now, n)
            == if q < n then OpenOn(s', now, q) - OpenOn(s, now, q) else 0
  {
    if n > 0 {
      OpenTimeChange(s, s', now, n - 1, q);
    }
  }

  lemma {:induction false} OpenTimeGrows(s: State, now: nat, later: nat, n: nat)
    requires n <= |s.pcpus| && now <= later
    ensures OpenTime(s, later, n) <= OpenTime(s, now, n) + n * (later - now)
  {
    if n > 0 {
      OpenTimeGrows(s, now, later, n - 1);
      assert n * (later - now) == (n - 1) * (later - now) + (later - now);
    }
  }

  /** The physical CPU a transition occupies or vacates; past the end when there is none. */
  function Affected(s: State, op: Op): nat
    requires s.Has(op.id)
  {
    if op.Run? then op.pcpu
    else if s.At(op.id).state.Running? then s.At(op.id).state.pcpu
    else |s.pcpus|
  }

  predicate StampedAt(op: Op, now: nat) {
    (op.Run? || op.Preempt? || op.Block? || op.TakeOffline?) ==> op.now == now
  }

  /** No transition creates CPU time: closing an interval moves it from open to closed. */
  lemma StepKeepsTotal(s: State, op: Op, now: nat)
    requires Inv(s) && Step(s, op).Success? && StampedAt(op, now)
    ensures TotalTime(Step(s, op).value, now) <= TotalTime(s, now)
  {
    var s' := Step(s, op).value;
    var v, q := s.At(op.id), Affected(s, op);
    StepTouchesOne(s, op, op.id);
    ClosedTimeUpdate(s.domains, op.id, s'.At(op.id));
    forall p | 0 <= p < |s.pcpus| && p != q
      ensures OpenOn(s', now, p) == OpenOn(s, now, p)
    {
      assert s'.pcpus[p] == s.pcpus[p];
      if s.pcpus[p].Some? {
        StepTouchesOne(s, op, s.pcpus[p].value);
        assert s.At(s.pcpus[p].value).state == Running(p);
      }
    }
    OpenTimeChange(s, s', now, |s.pcpus|, q);
    if v.state.Running? {
      assert s.pcpus[q] == Some(op.id);
    }
  }

  /** What happens to the scheduler: one transition, or a domain taken offline as it dies. */
  datatype Deed = One(op: Op) | Death(dom: nat, at: nat)

  datatype Event = Event(deed: Deed, now: nat)

  /** One transition, accepted or refused; a refused one changes nothing. */
  function Attempt(s: State, op: Op): State {
    match Step(s, op)
    case Success(after) => after
    case Failure(_) => s
  }

  function Perform(s: State, deed: Deed): State {
    match deed
    case One(op) => Attempt(s, op)
    case Death(dom, at) => OfflineAll(s, dom, at)
  }

  predicate DoneAt(deed: Deed, now: nat) {
    match deed
    case One(op) => StampedAt(op, now)
    case Death(_, at) => at == now
  }

  lemma AttemptKeepsTotal(s: State, op: Op, now: nat)
    requires Inv(s) && StampedAt(op, now)
    ensures Inv(Attempt(s, op)) && |Attempt(s, op).pcpus| == |s.pcpus|
            && TotalTime(Attempt(s, op), now) <= TotalTime(s, now)
  {
    if Step(s, op).Success? {
      StepKeepsInv(s, op);
      StepTouchesOne(s, op, op.id);
      StepKeepsTotal(s, op, now);
    }
  }

  /** Nor does a death: it closes every interval of the domain, one after the other. */
  lemma {:induction false} OfflineWalk(s: State, dom: nat, now: nat, i: nat) returns (t: State)
    requires Inv(s) && dom < |s.domains| && i <= |s.domains[dom]|
    ensures OfflinedUpTo(s, t, dom, now, i) && Inv(t) && TotalTime(t, now) <= TotalTime(s, now)
  {
    if i == 0 {
      t := s;
    } else {
      hide Inv, TotalTime, Step;
      var before := OfflineWalk(s, dom, now, i - 1);
      OfflineNext(s, before, dom, now, i - 1);
      AttemptKeepsTotal(before, TakeOffline(Id(dom, i - 1), now), now);
      t := Attempt(before, TakeOffline(Id(dom, i - 1), now));
    }
  }

  lemma PerformKeepsTotal(s: State, deed: Deed, now: nat)
    requires Inv(s) && DoneAt(deed, now)
    ensures Inv(Perform(s, deed)) && |Perform(s, deed).pcpus| == |s.pcpus|
    ensures TotalTime(Perform(s, deed), now) <= TotalTime(s, now)
  {
    match deed
    case One(op) => AttemptKeepsTotal(s, op, now);
    case Death(dom, _) =>
      OfflineAllKeepsInv(s, dom, now);
      if dom < |s.domains| {
        var t := OfflineWalk(s, dom, now, |s.domains[dom]|);
        OfflineDone(s, t, dom, now);
      }
  }

  function Replay(s: State, history: seq<Event>): State {
    if history == [] then s
    else Perform(Replay(s, history[..|history| - 1]), history[|history| - 1].deed)
  }

  /** The clock reading of each event is its call's stamp, and readings never go back. */
  ghost predicate Monotone(history: seq<Event>, start: nat) {
    forall i | 0 <= i < |history| ::
      && DoneAt(history[i].deed, history[i].now)
      && start <= history[i].now
      && (i > 0 ==> history[i - 1].now <= history[i].now)
  }

  /** Run time, open intervals included, is covered by what the physical CPUs supplied. */
  ghost predicate Covered(s: State, start: nat, now: nat)
    requires start <= now
  {
    TotalTime(s, now) <= |s.pcpus| * (now - start)
  }

  lemma PerformKeepsCovered(s: State, event: Event, start: nat, now: nat)
    requires Inv(s) && DoneAt(event.deed, event.now) && start <= event.now <= now
    requires Covered(s, start, event.now)
    ensures var s' := Perform(s, event.deed);
            Inv(s') && |s'.pcpus| == |s.pcpus| && Covered(s', start, now)
  {
    hide Perform, Inv;
    PerformKeepsTotal(s, event.deed, event.now);
    StaysCovered(Perform(s, event.deed), start, event.now, now);
  }

  /** As time passes open intervals grow no faster than the physical CPUs supply time. */
  lemma StaysCovered(s: State, start: nat, now: nat, later: nat)
    requires start <= now <= later && Covered(s, start, now)
    ensures Covered(s, start, later)
  {
    OpenTimeGrows(s, now, later, |s.pcpus|);
    Distribute(|s.pcpus|, now - start, later - now);
  }

  lemma Distribute(n: nat, x: nat, y: nat)
    ensures n * (x + y) == n * x + n * y
  {
  }

  /** Over every history of transitions, accepted or refused, and deaths, of any shape of machine: the bijection
      and the masks hold, and the run time of all vCPUs together, open intervals included,
      never exceeds what the physical CPUs supplied since boot. */
  lemma {:induction false} ConservationOfTime(domains: nat, vcpus: nat, pcpus: nat, start: nat,
                                              history: seq<Event>, now: nat)
    requires Monotone(history, start) && start <= now
    requires history != [] ==> history[|history| - 1].now <= now
    ensures var s := Replay(New(domains, vcpus, pcpus), history);
            Inv(s) && |s.pcpus| == pcpus && Covered(s, start, now)
  {
    hide Inv, Covered, Perform, New;
    if history == [] {
      BootCovered(domains, vcpus, pcpus, start, now);
    } else {
      var n := |history| - 1;
      ConservationOfTime(domains, vcpus, pcpus, start, history[..n], history[n].now);
      PerformKeepsCovered(Replay(New(domains, vcpus, pcpus), history[..n]), history[n], start, now);
    }
  }

  lemma BootCovered(domains: nat, vcpus: nat, pcpus: nat, start: nat, now: nat)
    requires start <= now
    ensures var s := New(domains, vcpus, pcpus);
            Inv(s) && |s.pcpus| == pcpus && Covered(s, start, now)
  {
    BootTotal(domains, vcpus, pcpus, now);
  }

  lemma BootTotal(domains: nat, vcpus: nat, pcpus: nat, now: nat)
    ensures Inv(New(domains, vcpus, pcpus)) && TotalTime(New(domains, vcpus, pcpus), now) == 0
  {
    var row := seq(vcpus, _ => VirtualCpu(Offline, 0, 0, FullMask(pcpus)));
    NoRowTime(row);
    NoClosedTime(New(domains, vcpus, pcpus).domains, row);
    NoOpenTime(New(domains, vcpus, pcpus), now, pcpus);
  }

  lemma {:induction false} NoRowTime(vs: seq<VirtualCpu>)
    requires forall i | 0 <= i < |vs| :: vs[i].runtime == 0
    ensures RowTime(vs) == 0
  {
    if vs != [] {
      NoRowTime(vs[..|vs| - 1]);
    }
  }

  lemma {:induction false} NoClosedTime(ds: seq<seq<VirtualCpu>>, row: seq<VirtualCpu>)
    requires RowTime(row) == 0 && forall d | 0 <= d < |ds| :: ds[d] == row
    ensures ClosedTime(ds) == 0
  {
    if ds != [] {
      NoClosedTime(ds[..|ds| - 1], row);
    }
  }

  lemma {:induction false} NoOpenTime(s: State, now: nat, n: nat)
    requires n <= |s.pcpus| && forall p | 0 <= p < |s.pcpus| :: s.pcpus[p] == None
    ensures OpenTime(s, now, n) == 0
  {
    if n > 0 {
      NoOpenTime(s, now, n - 1);
    }
  }
}
