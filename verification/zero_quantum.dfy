/** With a quantum of zero the loop of a scheduling pass need not settle. A vCPU dispatched at `now`
    is then at once preemptible, so a physical CPU can be refilled and evicted again and again in
    one pass; where the affinity masks tell CPUs apart this outruns the loop's iteration cap. Nine
    vCPUs on five CPUs are enough: the pass spends its twenty decisions, stops between an eviction
    and the dispatch it was for, and leaves a CPU idle with a vCPU waiting that may use it. */
module ZeroQuantum {
  import opened Basics
  import opened SchedModel
  import opened PolicyModel

  const VCPUS: nat := 9
  const CPUS: nat := 5

  /** When the pass happens: the ticks the vCPUs have run by then, one after the other. */
  const NOW: nat := 36

  /** Whether vCPU `v` may use CPU `p`; `v` has also run for `v` ticks, so a smaller index is more
      deserving. */
  predicate May(v: nat, p: nat) {
    match v
    case 0 => p == 3
    case 1 => p == 3 || p == 4
    case 2 => p == 0 || p == 4
    case 3 => p == 0
    case 4 => p == 0 || p == 1
    case 5 => p == 1 || p == 2 || p == 4
    case 6 => p == 2
    case 7 => p == 1 || p == 2
    case _ => p == 1
  }

  function MaskOf(v: nat): nat {
    match v
    case 0 => 8
    case 1 => 24
    case 2 => 17
    case 3 => 1
    case 4 => 3
    case 5 => 22
    case 6 => 4
    case 7 => 6
    case _ => 2
  }

  lemma FiveBits(m: nat)
    ensures Bit(m, 0) == (m % 2 == 1) && Bit(m, 1) == ((m / 2) % 2 == 1) && Bit(m, 2) == (((m / 2) / 2) % 2 == 1)
    ensures Bit(m, 3) == ((((m / 2) / 2) / 2) % 2 == 1) && Bit(m, 4) == (((((m / 2) / 2) / 2) / 2) % 2 == 1)
  {
  }

  lemma MasksPermit(v: nat, p: nat)
    requires v < VCPUS && p < CPUS
    ensures Permits(MaskOf(v), p) <==> May(v, p)
  {
    FiveBits(MaskOf(v));
  }

  /** Who occupies each CPU. */
  type Seats = seq<Option<nat>>

  function SeatOf(on: Seats, v: nat): RunState
    requires |on| == CPUS
  {
    if on[0] == Some(v) then Running(0)
    else if on[1] == Some(v) then Running(1)
    else if on[2] == Some(v) then Running(2)
    else if on[3] == Some(v) then Running(3)
    else if on[4] == Some(v) then Running(4)
    else Runnable
  }

  predicate Waits(on: Seats, v: nat)
    requires |on| == CPUS
  {
    v < VCPUS && SeatOf(on, v).Runnable?
  }

  /** Nobody sits twice, and everyone sits where he may. */
  ghost predicate Seated(on: Seats) {
    && |on| == CPUS
    && (forall p | 0 <= p < CPUS && on[p].Some? :: on[p].value < VCPUS && May(on[p].value, p))
    && (forall p, q | 0 <= p < CPUS && 0 <= q < CPUS && on[p].Some? && on[p] == on[q] :: p == q)
  }

  function Lay(on: Seats): State
    requires |on| == CPUS
  {
    State([seq(VCPUS, v requires 0 <= v < VCPUS => VirtualCpu(SeatOf(on, v), v, NOW, MaskOf(v)))],
          seq(CPUS, p requires 0 <= p < CPUS => if on[p].Some? then Some(Id(0, on[p].value)) else None))
  }

  /** The policy as it is made, with a quantum of zero, and once it has seen everyone schedulable. */
  const FRESH: Policy := Policy([seq(VCPUS, _ => 1)], 0, [seq(VCPUS, _ => 0)], [seq(VCPUS, _ => false)], true)
  const POLICY: Policy := FRESH.(wasSchedulable := [seq(VCPUS, _ => true)])

  /** Where `v` sits is where the seats say. */
  lemma SeatIs(on: Seats, v: nat)
    requires Seated(on)
    ensures SeatOf(on, v).Runnable? <==> forall p | 0 <= p < CPUS :: on[p] != Some(v)
    ensures SeatOf(on, v).Runnable? || (SeatOf(on, v).Running? && SeatOf(on, v).pcpu < CPUS)
    ensures forall p: nat | p < CPUS :: on[p] == Some(v) <==> SeatOf(on, v) == Running(p)
  {
  }

  lemma SeatRange(on: Seats, p: nat)
    requires Seated(on) && p < CPUS && on[p].Some?
    ensures on[p].value < VCPUS && May(on[p].value, p)
  {
  }

  lemma LayOut(on: Seats, v: nat)
    requires |on| == CPUS && v < VCPUS
    ensures Lay(on).Has(Id(0, v)) && Lay(on).At(Id(0, v)) == VirtualCpu(SeatOf(on, v), v, NOW, MaskOf(v))
    ensures POLICY.ShareOf(Lay(on), Id(0, v), NOW) == Share(v, 1)
    ensures forall p: nat | p < CPUS :: Lay(on).AffinityPermits(Id(0, v), p) <==> May(v, p)
  {
    forall p: nat | p < CPUS
      ensures Lay(on).AffinityPermits(Id(0, v), p) <==> May(v, p)
    {
      MasksPermit(v, p);
    }
  }

  lemma LayShape(on: Seats)
    requires |on| == CPUS
    ensures |Lay(on).pcpus| == CPUS && |Lay(on).domains| == 1 && |Lay(on).domains[0]| == VCPUS
    ensures forall p: nat | p < CPUS :: Lay(on).pcpus[p] == if on[p].Some? then Some(Id(0, on[p].value)) else None
    ensures forall id: Id :: Lay(on).Has(id) <==> id.dom == 0 && id.vcpu < VCPUS
  {
  }

  lemma LayIsExact(on: Seats)
    requires |on| == CPUS
    ensures Exact(POLICY, Lay(on), NOW)
  {
    hide Lay, SeatOf, MaskOf;
    LayShape(on);
    forall id: Id | Lay(on).Has(id)
      ensures RunTimeOf(Lay(on), id, NOW) <= U64_MAX && POLICY.ServiceOf(Lay(on), id, NOW) <= EXACT_SERVICE
    {
      LayOut(on, id.vcpu);
    }
  }

  lemma Ranked(a: nat, b: nat)
    requires a < VCPUS && b < VCPUS
    ensures MoreDeserving(Share(a, 1), Share(b, 1)) <==> a < b
  {
  }

  // ----- the two kinds of decision -----

  predicate Full(on: Seats) {
    |on| == CPUS && forall p | 0 <= p < CPUS :: on[p].Some?
  }

  /** The most deserving vCPU from `x` up that waits and may use CPU `p`. */
  function BestFor(on: Seats, p: nat, x: nat): (r: nat)
    requires |on| == CPUS && x <= VCPUS
    ensures x <= r <= VCPUS
    ensures r < VCPUS ==> Waits(on, r) && May(r, p)
    ensures forall y | x <= y < r :: !(Waits(on, y) && May(y, p))
    decreases VCPUS - x
  {
    if x == VCPUS || (Waits(on, x) && May(x, p)) then x else BestFor(on, p, x + 1)
  }

  /** `w` is the most deserving waiter that may use the one idle CPU. */
  predicate CanFill(on: Seats, w: nat, p: nat) {
    && |on| == CPUS && p < CPUS && on[p].None?
    && (forall q | 0 <= q < CPUS && q != p :: on[q].Some?)
    && w < VCPUS && BestFor(on, p, 0) == w
  }

  /** Nobody waiting could replace the runner of CPU `q`, or he is no less deserving than `v`. */
  predicate Safe(on: Seats, q: nat, v: nat)
    requires |on| == CPUS && q < CPUS && on[q].Some?
  {
    on[q].value <= v || on[q].value <= BestFor(on, q, 0)
  }

  /** `v` is the least deserving runner that some waiter, `w`, could replace. */
  predicate CanEvict(on: Seats, v: nat, p: nat, w: nat) {
    && Full(on) && p < CPUS && on[p] == Some(v) && w < v && BestFor(on, p, 0) == w
    && Safe(on, 0, v) && Safe(on, 1, v) && Safe(on, 2, v) && Safe(on, 3, v) && Safe(on, 4, v)
  }

  lemma Fills(on: Seats, w: nat, p: nat)
    requires Seated(on) && CanFill(on, w, p)
    ensures Next(POLICY, Lay(on), NOW) == Decision.Run(Id(0, w), p)
  {
    hide Lay, SeatOf, May, MaskOf, Seated, BestUpTo, MoreDeserving, Policy.ShareOf, Exact;
    var s := Lay(on);
    LayShape(on);
    LayIsExact(on);
    LayOut(on, w);
    assert Candidate(Place, POLICY, s, NOW, Id(0, w)) == Some(p);
    assert Seen(s, |s.domains|, 0, Id(0, w));
    BestUpToIsExtremal(Place, POLICY, s, NOW, |s.domains|, 0, Id(0, w));
    BestUpToIsCandidate(Place, POLICY, s, NOW, |s.domains|, 0);
    var best := Best(Place, POLICY, s, NOW).value;
    LayOut(on, best.id.vcpu);
    Ranked(w, best.id.vcpu);
    assert Waits(on, best.id.vcpu) && best.pcpu == p;
  }

  lemma SameLay(s: State, on: Seats)
    requires |on| == CPUS && |s.domains| == 1 && |s.domains[0]| == VCPUS && |s.pcpus| == CPUS
    requires forall v: nat | v < VCPUS :: s.domains[0][v] == VirtualCpu(SeatOf(on, v), v, NOW, MaskOf(v))
    requires forall p: nat | p < CPUS :: s.pcpus[p] == if on[p].Some? then Some(Id(0, on[p].value)) else None
    ensures s == Lay(on)
  {
    assert s.domains[0] == Lay(on).domains[0];
    assert s.pcpus == Lay(on).pcpus;
  }

  lemma EnactRunLay(on: Seats, on': Seats, w: nat, p: nat)
    requires |on| == CPUS && p < CPUS && on[p].None? && Waits(on, w) && May(w, p) && on' == on[p := Some(w)]
    requires forall v: nat | v < VCPUS :: SeatOf(on', v) == if v == w then Running(p) else SeatOf(on, v)
    ensures Enact(Lay(on), Decision.Run(Id(0, w), p), NOW) == Success(Lay(on'))
  {
    hide SeatOf, May, MaskOf, Lay;
    LayShape(on);
    LayOut(on, w);
    var s' := Enact(Lay(on), Decision.Run(Id(0, w), p), NOW).value;
    forall v: nat | v < VCPUS
      ensures s'.domains[0][v] == VirtualCpu(SeatOf(on', v), v, NOW, MaskOf(v))
    {
      LayOut(on, v);
    }
    SameLay(s', on');
  }

  lemma EnactPreemptLay(on: Seats, on': Seats, w: nat, p: nat)
    requires |on| == CPUS && p < CPUS && on[p] == Some(w) && w < VCPUS && SeatOf(on, w) == Running(p)
             && on' == on[p := None]
    requires forall v: nat | v < VCPUS :: SeatOf(on', v) == if v == w then Runnable else SeatOf(on, v)
    ensures Enact(Lay(on), Decision.Preempt(Id(0, w), p), NOW) == Success(Lay(on'))
  {
    hide SeatOf, May, MaskOf, Lay;
    LayShape(on);
    LayOut(on, w);
    var s' := Enact(Lay(on), Decision.Preempt(Id(0, w), p), NOW).value;
    forall v: nat | v < VCPUS
      ensures s'.domains[0][v] == VirtualCpu(SeatOf(on', v), v, NOW, MaskOf(v))
    {
      LayOut(on, v);
    }
    SameLay(s', on');
  }

  lemma FillsLay(on: Seats, w: nat, p: nat)
    requires Seated(on) && p < CPUS && on[p].None? && Waits(on, w) && May(w, p)
    ensures Seated(on[p := Some(w)])
    ensures Enact(Lay(on), Decision.Run(Id(0, w), p), NOW) == Success(Lay(on[p := Some(w)]))
  {
    SeatIs(on, w);
    var on' := on[p := Some(w)];
    assert Seated(on');
    forall v: nat | v < VCPUS
      ensures SeatOf(on', v) == if v == w then Running(p) else SeatOf(on, v)
    {
      hide SeatOf, May;
      SeatIs(on, v);
      SeatIs(on', v);
    }
    EnactRunLay(on, on', w, p);
  }

  lemma Evicts(on: Seats, v: nat, p: nat, w: nat)
    requires Seated(on) && CanEvict(on, v, p, w)
    ensures Next(POLICY, Lay(on), NOW) == Decision.Preempt(Id(0, v), p)
  {
    hide Lay, SeatOf, May, MaskOf, Seated, BestUpTo, MoreDeserving, Policy.ShareOf, Exact;
    var s := Lay(on);
    LayShape(on);
    LayIsExact(on);
    SeatRange(on, p);
    LayOut(on, v);
    LayOut(on, w);
    SeatIs(on, v);
    Ranked(w, v);
    BestUpToIsCandidate(Place, POLICY, s, NOW, |s.domains|, 0);
    assert WaiterBeats(POLICY, s, NOW, p, POLICY.ShareOf(s, Id(0, v), NOW), Id(0, w));
    assert Candidate(Evict, POLICY, s, NOW, Id(0, v)) == Some(p);
    assert Seen(s, |s.domains|, 0, Id(0, v));
    BestUpToIsExtremal(Evict, POLICY, s, NOW, |s.domains|, 0, Id(0, v));
    BestUpToIsCandidate(Evict, POLICY, s, NOW, |s.domains|, 0);
    var best := Best(Evict, POLICY, s, NOW).value;
    LayOut(on, best.id.vcpu);
    Ranked(best.id.vcpu, v);
    WorstIs(on, v, p, w, best);
  }

  /** No runner less deserving than `v` could be replaced. */
  lemma WorstIs(on: Seats, v: nat, p: nat, w: nat, best: Slot)
    requires Seated(on) && CanEvict(on, v, p, w) && Lay(on).Has(best.id)
    requires Candidate(Evict, POLICY, Lay(on), NOW, best.id) == Some(best.pcpu) && best.id.vcpu >= v
    ensures best == Slot(Id(0, v), p)
  {
    hide Lay, SeatOf, May, MaskOf, Seated, MoreDeserving, Policy.ShareOf;
    var s, q := Lay(on), best.pcpu;
    LayShape(on);
    LayOut(on, best.id.vcpu);
    SeatIs(on, best.id.vcpu);
    SeatIs(on, v);
    var x: Id :| WaiterBeats(POLICY, s, NOW, q, POLICY.ShareOf(s, best.id, NOW), x);
    LayOut(on, x.vcpu);
    Ranked(x.vcpu, best.id.vcpu);
    assert Waits(on, x.vcpu) && May(x.vcpu, q) && on[q] == Some(best.id.vcpu);
  }

  lemma EvictsLay(on: Seats, v: nat, p: nat)
    requires Seated(on) && p < CPUS && on[p] == Some(v)
    ensures Seated(on[p := None])
    ensures Enact(Lay(on), Decision.Preempt(Id(0, v), p), NOW) == Success(Lay(on[p := None]))
  {
    var on' := on[p := None];
    assert Seated(on');
    SeatIs(on, v);
    forall x: nat | x < VCPUS
      ensures SeatOf(on', x) == if x == v then Runnable else SeatOf(on, x)
    {
      hide SeatOf, May;
      SeatIs(on, x);
      SeatIs(on', x);
    }
    EnactPreemptLay(on, on', v, p);
  }

  // ----- nine vCPUs on five CPUs -----

  /** An eviction and the refill it is for, as the loop performs them. */
  lemma Exchange(on: Seats, v: nat, w: nat, p: nat, limit: nat, next: Seats)
    requires Seated(on) && CanEvict(on, v, p, w) && CanFill(on[p := None], w, p) && next == on[p := Some(w)]
    ensures Seated(next)
    ensures Settle(POLICY, Lay(on), NOW, limit + 2).state == Settle(POLICY, Lay(next), NOW, limit).state
    ensures Settle(POLICY, Lay(on), NOW, limit + 2).enacted == Settle(POLICY, Lay(next), NOW, limit).enacted + 2
  {
    hide Lay, Seated, CanEvict, CanFill, Next, Enact;
    CanParts(on, v, p, w);
    Evicts(on, v, p, w);
    EvictsLay(on, v, p);
    Fills(on[p := None], w, p);
    FillsLay(on[p := None], w, p);
    assert on[p := None][p := Some(w)] == next;
    SettleStep(Lay(on), Decision.Preempt(Id(0, v), p), Lay(on[p := None]), limit + 2);
    SettleStep(Lay(on[p := None]), Decision.Run(Id(0, w), p), Lay(next), limit + 1);
  }

  lemma CanParts(on: Seats, v: nat, p: nat, w: nat)
    requires CanEvict(on, v, p, w) && CanFill(on[p := None], w, p)
    ensures |on| == CPUS && p < CPUS && on[p] == Some(v) && Waits(on[p := None], w) && May(w, p)
  {
  }

  lemma SettleStep(s: State, d: Decision, s': State, limit: nat)
    requires limit > 0 && !d.Idle? && Next(POLICY, s, NOW) == d && Enact(s, d, NOW) == Success(s')
    ensures Settle(POLICY, s, NOW, limit).state == Settle(POLICY, s', NOW, limit - 1).state
    ensures Settle(POLICY, s, NOW, limit).enacted == Settle(POLICY, s', NOW, limit - 1).enacted + 1
  {
  }

  /** The seats after the refill of CPU 1 and after each of nine exchanges. */
  function Stage(n: nat): (on: Seats)
    ensures |on| == CPUS
  {
    match n
    case 0 => [Some(4), Some(8), Some(7), Some(1), Some(5)]
    case 1 => [Some(4), Some(8), Some(6), Some(1), Some(5)]
    case 2 => [Some(4), Some(7), Some(6), Some(1), Some(5)]
    case 3 => [Some(4), Some(7), Some(6), Some(1), Some(2)]
    case 4 => [Some(4), Some(5), Some(6), Some(1), Some(2)]
    case 5 => [Some(3), Some(5), Some(6), Some(1), Some(2)]
    case 6 => [Some(3), Some(4), Some(6), Some(1), Some(2)]
    case 7 => [Some(3), Some(4), Some(5), Some(1), Some(2)]
    case 8 => [Some(3), Some(4), Some(5), Some(0), Some(2)]
    case _ => [Some(3), Some(4), Some(5), Some(0), Some(1)]
  }

  datatype Turn = Turn(evicted: nat, placed: nat, cpu: nat)

  /** Who makes way for whom on which CPU; CPU 1 changes hands three times. */
  function TurnOf(n: nat): Turn {
    match n
    case 0 => Turn(7, 6, 2)
    case 1 => Turn(8, 7, 1)
    case 2 => Turn(5, 2, 4)
    case 3 => Turn(7, 5, 1)
    case 4 => Turn(4, 3, 0)
    case 5 => Turn(5, 4, 1)
    case 6 => Turn(6, 5, 2)
    case 7 => Turn(1, 0, 3)
    case _ => Turn(2, 1, 4)
  }

  predicate Legal(on: Seats, t: Turn) {
    |on| == CPUS && t.cpu < CPUS && CanEvict(on, t.evicted, t.cpu, t.placed)
        && CanFill(on[t.cpu := None], t.placed, t.cpu)
  }

  lemma Legal0()
    ensures Legal([Some(4), Some(8), Some(7), Some(1), Some(5)], Turn(7, 6, 2))
  {
  }

  lemma Legal1()
    ensures Legal([Some(4), Some(8), Some(6), Some(1), Some(5)], Turn(8, 7, 1))
  {
  }

  lemma Legal2()
    ensures Legal([Some(4), Some(7), Some(6), Some(1), Some(5)], Turn(5, 2, 4))
  {
  }

  lemma Legal3()
    ensures Legal([Some(4), Some(7), Some(6), Some(1), Some(2)], Turn(7, 5, 1))
  {
  }

  lemma Legal4()
    ensures Legal([Some(4), Some(5), Some(6), Some(1), Some(2)], Turn(4, 3, 0))
  {
  }

  lemma Legal5()
    ensures Legal([Some(3), Some(5), Some(6), Some(1), Some(2)], Turn(5, 4, 1))
  {
  }

  lemma Legal6()
    ensures Legal([Some(3), Some(4), Some(6), Some(1), Some(2)], Turn(6, 5, 2))
  {
  }

  const SEVENTH: Seats := [Some(3), Some(4), Some(5), Some(1), Some(2)]

  lemma SafeInSeventh()
    ensures |SEVENTH| == CPUS && BestFor(SEVENTH, 0, 0) == VCPUS && BestFor(SEVENTH, 1, 0) == 7
  {
  }

  lemma MoreSafeInSeventh()
    ensures |SEVENTH| == CPUS && BestFor(SEVENTH, 2, 0) == 6 && BestFor(SEVENTH, 4, 0) == VCPUS
  {
  }

  lemma BestInSeventh()
    ensures |SEVENTH| == CPUS && BestFor(SEVENTH, 3, 0) == 0 && BestFor(SEVENTH[3 := None], 3, 0) == 0
  {
  }

  lemma Legal7()
    ensures Legal(SEVENTH, Turn(1, 0, 3))
  {
    SafeInSeventh();
    MoreSafeInSeventh();
    BestInSeventh();
    hide BestFor, Waits;
  }

  lemma Legal8()
    ensures Legal([Some(3), Some(4), Some(5), Some(0), Some(2)], Turn(2, 1, 4))
  {
  }

  lemma EveryTurnIsLegal(n: nat)
    requires n < 9
    ensures Legal(Stage(n), TurnOf(n))
  {
    hide Legal;
    match n
    case 0 => Legal0();
    case 1 => Legal1();
    case 2 => Legal2();
    case 3 => Legal3();
    case 4 => Legal4();
    case 5 => Legal5();
    case 6 => Legal6();
    case 7 => Legal7();
    case _ => Legal8();
  }

  lemma NextStage(n: nat)
    requires n < 9
    ensures TurnOf(n).cpu < CPUS && Stage(n + 1) == Stage(n)[TurnOf(n).cpu := Some(TurnOf(n).placed)]
  {
  }

  /** The remaining exchanges, as the loop performs them. */
  lemma {:induction false} RemainingTurns(n: nat, limit: nat)
    requires n <= 9 && Seated(Stage(n))
    ensures Seated(Stage(9))
    ensures Settle(POLICY, Lay(Stage(n)), NOW, limit + 2 * (9 - n)).state
            == Settle(POLICY, Lay(Stage(9)), NOW, limit).state
    ensures Settle(POLICY, Lay(Stage(n)), NOW, limit + 2 * (9 - n)).enacted
            == Settle(POLICY, Lay(Stage(9)), NOW, limit).enacted + 2 * (9 - n)
    decreases 9 - n
  {
    hide Lay, Settle, Seated, Stage, TurnOf, CanEvict, CanFill;
    if n < 9 {
      EveryTurnIsLegal(n);
      NextStage(n);
      var t := TurnOf(n);
      Exchange(Stage(n), t.evicted, t.placed, t.cpu, limit + 2 * (8 - n), Stage(n + 1));
      RemainingTurns(n + 1, limit);
    }
  }

  const START: Seats := [Some(4), None, Some(7), Some(1), Some(5)]
  const STOP: Seats := [None, Some(4), Some(5), Some(0), Some(1)]

  lemma StartFills()
    ensures Seated(START) && CanFill(START, 8, 1)
  {
  }

  lemma FirstRefill()
    ensures Seated(Stage(0))
    ensures Settle(POLICY, Lay(START), NOW, 20).state == Settle(POLICY, Lay(Stage(0)), NOW, 19).state
    ensures Settle(POLICY, Lay(START), NOW, 20).enacted == Settle(POLICY, Lay(Stage(0)), NOW, 19).enacted + 1
  {
    StartFills();
    hide Lay, Settle, CanFill, Seated;
    Fills(START, 8, 1);
    FillsLay(START, 8, 1);
    assert START[1 := Some(8)] == Stage(0);
    SettleStep(Lay(START), Decision.Run(Id(0, 8), 1), Lay(Stage(0)), 20);
  }

  lemma LastEviction()
    requires Seated(Stage(9))
    ensures Settle(POLICY, Lay(Stage(9)), NOW, 1) == Drive(Lay(STOP), 1)
  {
    hide Lay, Settle, Seated;
    Evicts(Stage(9), 3, 0, 2);
    EvictsLay(Stage(9), 3, 0);
    assert Stage(9)[0 := None] == STOP;
    SettleStep(Lay(Stage(9)), Decision.Preempt(Id(0, 3), 0), Lay(STOP), 1);
    SpentIsDone(Lay(STOP));
  }

  lemma SpentIsDone(s: State)
    ensures Settle(POLICY, s, NOW, 0) == Drive(s, 0)
  {
  }

  /** The loop's twenty decisions: a refill, nine exchanges and an eviction. */
  lemma TwentyDecisions()
    ensures Settle(POLICY, Lay(START), NOW, 20) == Drive(Lay(STOP), 20)
  {
    hide Lay, Settle, Seated, Stage;
    FirstRefill();
    RemainingTurns(0, 1);
    LastEviction();
  }

  lemma LayIsValid(on: Seats)
    requires Seated(on)
    ensures Inv(Lay(on))
  {
    hide Lay, SeatOf, MaskOf;
    LayShape(on);
    forall id: Id | Lay(on).Has(id)
      ensures Lay(on).At(id).state.Running? ==>
                && Lay(on).At(id).state.pcpu < CPUS && Lay(on).pcpus[Lay(on).At(id).state.pcpu] == Some(id)
                && Permits(Lay(on).At(id).affinity, Lay(on).At(id).state.pcpu)
    {
      LayOut(on, id.vcpu);
      SeatIs(on, id.vcpu);
    }
    forall p: nat | p < CPUS && on[p].Some?
      ensures Lay(on).Has(Id(0, on[p].value)) && Lay(on).At(Id(0, on[p].value)).state == Running(p)
    {
      LayOut(on, on[p].value);
      SeatIs(on, on[p].value);
    }
  }

  lemma LimitIsTwenty(on: Seats)
    requires |on| == CPUS
    ensures Limit(Lay(on)) == 20
  {
    hide Lay;
    LayShape(on);
    assert VcpuTotal(Lay(on).domains[..0]) == 0;
  }

  /** Accounting finds nobody in the pool before, so nobody is lifted to a floor. */
  lemma NothingToAccount(on: Seats)
    requires |on| == CPUS
    ensures Account(FRESH, Lay(on), NOW) == POLICY
  {
    hide Lay, MaskOf;
    LayShape(on);
    BestUpToIsCandidate(Anchor, FRESH, Lay(on), NOW, |Lay(on).domains|, 0);
    var pol := Account(FRESH, Lay(on), NOW);
    forall v: nat | v < VCPUS
      ensures pol.wasSchedulable[0][v] && pol.offset[0][v] == 0
    {
      LayOut(on, v);
      assert !FRESH.wasSchedulable[0][v] && FRESH.offset[0][v] == 0;
    }
    assert pol.wasSchedulable[0] == POLICY.wasSchedulable[0] && pol.offset[0] == POLICY.offset[0];
    assert pol.wasSchedulable == POLICY.wasSchedulable && pol.offset == POLICY.offset;
  }

  /** After them CPU 0 is idle while vCPU 2, which may use it, waits. */
  lemma StopIsUnsettled()
    ensures Lay(STOP).Has(Id(0, 2)) && Lay(STOP).IsIn(Id(0, 2), Runnable) && Lay(STOP).AffinityPermits(Id(0, 2), 0)
    ensures |Lay(STOP).pcpus| == CPUS && Lay(STOP).pcpus[0].None? && !Settled(POLICY, Lay(STOP), NOW)
  {
    hide Lay, MaskOf;
    LayShape(STOP);
    LayOut(STOP, 2);
  }

  lemma PassFromStart()
    ensures Advance(World(FRESH, Lay(START)), NOW) == World(POLICY, Lay(STOP))
    ensures Driven(World(FRESH, Lay(START)), NOW).enacted == 20
  {
    hide Lay, Settle, Account, Limit;
    LimitIsTwenty(START);
    NothingToAccount(START);
    TwentyDecisions();
  }

  // ----- how a machine gets there -----

  /** Some history of transitions from boot, on a clock that never goes back, ends in `s` by `now`. */
  ghost predicate Reached(s: State, now: nat) {
    exists history: seq<Event> ::
      && Monotone(history, 0)
      && (history != [] ==> history[|history| - 1].now <= now)
      && Replay(New(1, VCPUS, CPUS), history) == s
  }

  lemma ReachOn(s: State, now: nat, op: Op, later: nat)
    requires Reached(s, now) && now <= later && StampedAt(op, later) && Step(s, op).Success?
    ensures Reached(Step(s, op).value, later)
  {
    hide Step, New, StampedAt, Monotone, Replay;
    var history: seq<Event> :|
      && Monotone(history, 0)
      && (history != [] ==> history[|history| - 1].now <= now)
      && Replay(New(1, VCPUS, CPUS), history) == s;
    var longer := history + [Event.Event(One(op), later)];
    MonotoneOn(history, op, now, later);
    ReplayOn(New(1, VCPUS, CPUS), history, Event.Event(One(op), later));
    assert longer[|longer| - 1].now == later && Attempt(s, op) == Step(s, op).value;
  }

  lemma MonotoneOn(history: seq<Event>, op: Op, now: nat, later: nat)
    requires Monotone(history, 0) && (history != [] ==> history[|history| - 1].now <= now)
    requires now <= later && StampedAt(op, later)
    ensures Monotone(history + [Event.Event(One(op), later)], 0)
  {
    hide StampedAt;
  }

  lemma ReplayOn(s: State, history: seq<Event>, e: Event)
    ensures Replay(s, history + [e]) == Perform(Replay(s, history), e.deed)
  {
    hide Perform;
    assert (history + [e])[..|history|] == history;
  }

  /** Nobody holds a CPU. */
  function Bench(row: seq<VirtualCpu>): State {
    State([row], seq(CPUS, _ => None))
  }

  const FULL: nat := FullMask(CPUS)

  lemma BootIsBench()
    ensures New(1, VCPUS, CPUS) == Bench(seq(VCPUS, _ => VirtualCpu(Offline, 0, 0, FULL)))
    ensures Reached(New(1, VCPUS, CPUS), 0)
  {
    assert Replay(New(1, VCPUS, CPUS), []) == New(1, VCPUS, CPUS) && Monotone([], 0);
    assert New(1, VCPUS, CPUS).domains == [seq(VCPUS, _ => VirtualCpu(Offline, 0, 0, FULL))];
  }

  lemma OneChanges(row: seq<VirtualCpu>, pcpus: seq<Option<Id>>, v: nat, x: VirtualCpu)
    requires v < |row|
    ensures State([row], pcpus).With(Id(0, v), x) == State([row[v := x]], pcpus)
  {
  }

  lemma Admitted(row: seq<VirtualCpu>, v: nat, now: nat)
    requires v < |row| && row[v].state.Offline? && Reached(Bench(row), now)
    ensures Reached(Bench(row[v := row[v].(state := Runnable)]), now)
  {
    hide Reached;
    OneChanges(row, Bench(row).pcpus, v, row[v].(state := Runnable));
    ReachOn(Bench(row), now, Op.Admit(Id(0, v)), now);
  }

  /** vCPU `v` has CPU 0 from `from` to `to`. */
  lemma HasRun(row: seq<VirtualCpu>, v: nat, from: nat, to: nat)
    requires v < |row| && row[v].state.Runnable? && row[v].affinity == FULL && from <= to
    requires row[v].runtime + (to - from) <= U64_MAX && Reached(Bench(row), from)
    ensures Reached(Bench(row[v := row[v].(runtime := row[v].runtime + (to - from), dispatchedAt := from)]), to)
  {
    hide Reached, FullMask;
    var id, run := Id(0, v), row[v].(state := Running(0), dispatchedAt := from);
    var done := row[v].(runtime := row[v].runtime + (to - from), dispatchedAt := from);
    FullMaskPermits(CPUS, 0);
    var s := State([row[v := run]], Bench(row).pcpus[0 := Some(id)]);
    OneChanges(row, Bench(row).pcpus, v, run);
    assert Step(Bench(row), Op.Run(id, 0, from)) == Success(s);
    ReachOn(Bench(row), from, Op.Run(id, 0, from), from);
    OneChanges(row[v := run], s.pcpus, v, done);
    assert row[v := run][v := done] == row[v := done] && s.pcpus[0 := None] == Bench(row).pcpus;
    assert Step(s, Op.Preempt(id, to)) == Success(Bench(row[v := done]));
    ReachOn(s, from, Op.Preempt(id, to), to);
  }

  lemma Masked(row: seq<VirtualCpu>, v: nat, now: nat)
    requires v < |row| && v < VCPUS && row[v].state.Runnable? && Reached(Bench(row), now)
    ensures Reached(Bench(row[v := row[v].(affinity := MaskOf(v))]), now)
  {
    hide Reached, And, FullMask, MaskOf;
    MaskIsKept(v);
    OneChanges(row, Bench(row).pcpus, v, row[v].(affinity := MaskOf(v)));
    ReachOn(Bench(row), now, Op.SetAffinity(Id(0, v), MaskOf(v)), now);
  }

  lemma {:induction false} LowBits(a: nat, n: nat, width: nat)
    requires n <= width && a < Pow2(n)
    ensures And(a, Pow2(n) - 1, width) == a
  {
    if n == 0 {
      NoBits(width);
    } else {
      assert (Pow2(n) - 1) / 2 == Pow2(n - 1) - 1 && (Pow2(n) - 1) % 2 == 1;
      LowBits(a / 2, n - 1, width - 1);
    }
  }

  lemma {:induction false} NoBits(width: nat)
    ensures And(0, 0, width) == 0
  {
    if width > 0 {
      NoBits(width - 1);
    }
  }

  lemma MaskIsKept(v: nat)
    requires v < VCPUS
    ensures And(MaskOf(v), FullMask(CPUS), 64) == MaskOf(v)
  {
    hide And;
    assert Pow2(5) == 2 * Pow2(4) == 4 * Pow2(3) == 8 * Pow2(2) == 16 * Pow2(1) == 32;
    LowBits(MaskOf(v), 5, 64);
  }

  /** When the first run of vCPU `v` begins: those before it have had theirs, `u` ticks for vCPU `u`. */
  function Begun(v: nat): nat {
    if v == 0 then 0 else Begun(v - 1) + (v - 1)
  }

  /** The vCPUs before `k` have run, the others are offline. */
  function FirstRuns(k: nat): (row: seq<VirtualCpu>)
    ensures |row| == VCPUS
  {
    seq(VCPUS, v requires 0 <= v < VCPUS =>
      if v < k then VirtualCpu(Runnable, v, Begun(v), FULL) else VirtualCpu(Offline, 0, 0, FULL))
  }

  /** The vCPUs before `k` have been dispatched once more at `NOW`, and have their masks. */
  function Settings(k: nat): (row: seq<VirtualCpu>)
    ensures |row| == VCPUS
  {
    seq(VCPUS, v requires 0 <= v < VCPUS =>
      if v < k then VirtualCpu(Runnable, v, NOW, MaskOf(v)) else VirtualCpu(Runnable, v, Begun(v), FULL))
  }

  lemma {:induction false} FirstRunsAreReached(k: nat)
    requires k <= VCPUS
    ensures Reached(Bench(FirstRuns(k)), Begun(k))
  {
    hide Reached, Bench;
    if k == 0 {
      BootIsBench();
      assert FirstRuns(0) == seq(VCPUS, _ => VirtualCpu(Offline, 0, 0, FULL));
    } else {
      var v, row := k - 1, FirstRuns(k - 1);
      FirstRunsAreReached(v);
      Admitted(row, v, Begun(v));
      var admitted := row[v := row[v].(state := Runnable)];
      HasRun(admitted, v, Begun(v), Begun(v) + v);
      assert admitted[v := VirtualCpu(Runnable, v, Begun(v), FULL)] == FirstRuns(k);
    }
  }

  lemma {:induction false} SettingsAreReached(k: nat)
    requires k <= VCPUS
    ensures Reached(Bench(Settings(k)), NOW)
  {
    hide Reached, Bench, MaskOf;
    if k == 0 {
      FirstRunsAreReached(VCPUS);
      assert Begun(9) == Begun(8) + 8 == Begun(7) + 15 == Begun(6) + 21 == Begun(5) + 26 == Begun(4) + 30;
      assert Begun(4) == Begun(3) + 3 == Begun(2) + 5 == Begun(1) + 6 == 6;
      assert Settings(0) == FirstRuns(VCPUS);
    } else {
      var v, row := k - 1, Settings(k - 1);
      SettingsAreReached(v);
      HasRun(row, v, NOW, NOW);
      var stamped := row[v := row[v].(dispatchedAt := NOW)];
      Masked(stamped, v, NOW);
      assert stamped[v := VirtualCpu(Runnable, v, NOW, MaskOf(v))] == Settings(k);
    }
  }

  const NOBODY: Seats := [None, None, None, None, None]

  lemma SeatTaken(on: Seats, w: nat, p: nat)
    requires Seated(on) && p < CPUS && on[p].None? && Waits(on, w) && May(w, p) && Reached(Lay(on), NOW)
    ensures Seated(on[p := Some(w)]) && Reached(Lay(on[p := Some(w)]), NOW)
  {
    FillsLay(on, w, p);
    hide Lay, Reached, Seated, Step;
    ReachOn(Lay(on), NOW, Op.Run(Id(0, w), p, NOW), NOW);
  }

  lemma NobodyIsReached()
    ensures Seated(NOBODY) && Reached(Lay(NOBODY), NOW)
  {
    hide Reached, MaskOf;
    SettingsAreReached(VCPUS);
    assert Lay(NOBODY).domains[0] == Settings(VCPUS) && Lay(NOBODY).pcpus == Bench(Settings(VCPUS)).pcpus;
    assert Lay(NOBODY) == Bench(Settings(VCPUS));
  }

  /** From boot, each vCPU `v` runs for `v` ticks; then masks are set, and four vCPUs dispatched. */
  lemma StartIsReached()
    ensures Reached(Lay(START), NOW)
  {
    hide Reached, Lay;
    NobodyIsReached();
    var one: Seats, two: Seats := [Some(4), None, None, None, None], [Some(4), None, Some(7), None, None];
    var three: Seats := [Some(4), None, Some(7), Some(1), None];
    assert NOBODY[0 := Some(4)] == one && one[2 := Some(7)] == two && two[3 := Some(1)] == three
           && three[4 := Some(5)] == START;
    SeatTaken(NOBODY, 4, 0);
    SeatTaken(one, 7, 2);
    SeatTaken(two, 1, 3);
    SeatTaken(three, 5, 4);
  }

  /** A machine that has run from boot, and a policy as it is made: the pass stops at its cap
      unsettled, with CPU 0 idle although a waiting vCPU may use it. So at a quantum of zero neither
      work conservation nor "at most one preemption per physical CPU" holds of every pass, and
      `AdvanceSettles` needs one of the two conditions `SureToSettle` offers. */
  lemma CapIsNotEnough()
    ensures Reached(Lay(START), NOW)
    ensures var w := World(FRESH, Lay(START));
            && Inv(w.sys) && w.pol.Shaped() && w.pol.quantum == 0 && Exact(Account(w.pol, w.sys, NOW), w.sys, NOW)
            && Driven(w, NOW).enacted == Limit(w.sys) > 2 * |w.sys.pcpus|
    ensures var end := Advance(World(FRESH, Lay(START)), NOW);
            && !Settled(end.pol, end.sys, NOW)
            && |end.sys.pcpus| == CPUS && end.sys.pcpus[0].None?
            && end.sys.IsIn(Id(0, 2), Runnable) && end.sys.AffinityPermits(Id(0, 2), 0)
  {
    hide *;
    Sizes();
    StartFills();
    StartIsReached();
    LayIsValid(START);
    LimitIsTwenty(START);
    NothingToAccount(START);
    LayIsExact(START);
    PassFromStart();
    LayShape(START);
    StopIsUnsettled();
  }

  lemma Sizes()
    ensures |START| == CPUS && 20 > 2 * CPUS && FRESH.Shaped() && FRESH.quantum == 0
  {
  }
}
