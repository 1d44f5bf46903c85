/** Delegated control: who may act on whom, and through whom they came by that right.

    For each target the rights form a column: a holder is the creator's root, or was delegated
    the right by another holder. A right stands only while its chain of delegators reaches the
    root. */
module ControlModel {
  import opened Basics

  datatype Control = Absent | Root | Via(delegator: nat)

  type Column = seq<Control>

  // ----- one column -----

  /** The chain from `h` reaches a root in exactly `n` delegations. */
  predicate RootedAt(col: Column, h: nat, n: nat)
    decreases n
  {
    h < |col|
    && if n == 0 then col[h].Root? else col[h].Via? && RootedAt(col, col[h].delegator, n - 1)
  }

  ghost predicate Rooted(col: Column, h: nat) {
    exists n: nat :: RootedAt(col, h, n)
  }

  /** The chain from `h` reaches a root in at most `n` delegations. */
  predicate Reaches(col: Column, h: nat, n: nat)
    decreases n
  {
    h < |col|
    && match col[h]
       case Absent => false
       case Root => true
       case Via(d) => n > 0 && Reaches(col, d, n - 1)
  }

  /** The chain from `h` comes to `via` in at most `n` delegations. */
  predicate Passes(col: Column, via: nat, h: nat, n: nat)
    decreases n
  {
    h == via || (h < |col| && col[h].Via? && n > 0 && Passes(col, via, col[h].delegator, n - 1))
  }

  /** `via` is `h` or one of the delegators behind it. */
  ghost predicate Under(col: Column, via: nat, h: nat) {
    exists n: nat :: Passes(col, via, h, n)
  }

  /** Every right traces to the one root. */
  ghost predicate ColumnInv(col: Column) {
    && (forall h | 0 <= h < |col| && !col[h].Absent? :: Rooted(col, h))
    && (forall g, h | 0 <= g < |col| && 0 <= h < |col| && col[g].Root? && col[h].Root? :: g == h)
  }

  ghost predicate RootedWithin(col: Column, h: nat, n: nat) {
    exists k: nat :: k <= n && RootedAt(col, h, k)
  }

  lemma {:induction false} DepthUnique(col: Column, h: nat, n: nat, k: nat)
    requires RootedAt(col, h, n) && RootedAt(col, h, k)
    ensures n == k
    decreases n
  {
    if n > 0 {
      DepthUnique(col, col[h].delegator, n - 1, k - 1);
    }
  }

  /** The holders on a rooted chain. */
  ghost function Chain(col: Column, h: nat, n: nat): set<nat>
    requires RootedAt(col, h, n)
    decreases n
  {
    if n == 0 then {h} else {h} + Chain(col, col[h].delegator, n - 1)
  }

  /** A rooted chain never visits a holder twice, so it is shorter than the column. */
  lemma {:induction false} ChainIsSimple(col: Column, h: nat, n: nat)
    requires RootedAt(col, h, n)
    ensures |Chain(col, h, n)| == n + 1
    ensures forall x | x in Chain(col, h, n) :: RootedWithin(col, x, n)
    ensures forall x | x in Chain(col, h, n) :: x < |col|
    decreases n
  {
    if n > 0 {
      ChainIsSimple(col, col[h].delegator, n - 1);
      hide RootedWithin;
      if h in Chain(col, col[h].delegator, n - 1) {
        NotWithin(col, h, n);
      }
      forall x | x in Chain(col, h, n) && x != h
        ensures RootedWithin(col, x, n)
      {
        WithinMore(col, x, n);
      }
    }
    assert RootedAt(col, h, n);
    RootedIsWithin(col, h, n);
  }

  lemma RootedIsWithin(col: Column, h: nat, n: nat)
    requires RootedAt(col, h, n)
    ensures RootedWithin(col, h, n)
  {
    hide RootedAt;
  }

  lemma WithinMore(col: Column, x: nat, n: nat)
    requires n > 0 && RootedWithin(col, x, n - 1)
    ensures RootedWithin(col, x, n)
  {
    hide RootedAt;
  }

  /** A chain of one length reaches no root within a shorter one. */
  lemma NotWithin(col: Column, h: nat, n: nat)
    requires n > 0 && RootedAt(col, h, n)
    ensures !RootedWithin(col, h, n - 1)
  {
    hide RootedAt;
    if k: nat :| k <= n - 1 && RootedAt(col, h, k) {
      DepthUnique(col, h, n, k);
    }
  }

  function UpTo(n: nat): (r: set<nat>)
    ensures |r| == n && forall x: nat :: x in r <==> x < n
  {
    if n == 0 then {} else UpTo(n - 1) + {n - 1}
  }

  lemma DepthBound(col: Column, h: nat, n: nat)
    requires RootedAt(col, h, n)
    ensures n < |col|
  {
    ChainIsSimple(col, h, n);
    SubsetSize(Chain(col, h, n), UpTo(|col|));
  }

  lemma {:induction false} ReachesMeansRooted(col: Column, h: nat, n: nat)
    requires Reaches(col, h, n)
    ensures Rooted(col, h)
    decreases n
  {
    if col[h].Root? {
      assert RootedAt(col, h, 0);
    } else {
      ReachesMeansRooted(col, col[h].delegator, n - 1);
      var k: nat :| RootedAt(col, col[h].delegator, k);
      assert RootedAt(col, h, k + 1);
    }
  }

  lemma {:induction false} RootedReaches(col: Column, h: nat, k: nat, n: nat)
    requires RootedAt(col, h, k) && k <= n
    ensures Reaches(col, h, n)
    decreases n
  {
    if k > 0 {
      RootedReaches(col, col[h].delegator, k - 1, n - 1);
    }
  }

  /** The checker's walk, cut off after as many steps as there are domains, decides rootedness
      exactly: no rooted chain is that long. */
  lemma BoundedWalkExact(col: Column, h: nat)
    ensures Reaches(col, h, |col|) <==> Rooted(col, h)
  {
    if Reaches(col, h, |col|) {
      ReachesMeansRooted(col, h, |col|);
    }
    if Rooted(col, h) {
      var k: nat :| RootedAt(col, h, k);
      DepthBound(col, h, k);
      RootedReaches(col, h, k, |col|);
    }
  }

  lemma {:induction false} PassesWithinDepth(col: Column, via: nat, h: nat, n: nat, k: nat)
    requires Passes(col, via, h, n) && RootedAt(col, h, k)
    ensures Passes(col, via, h, k)
    decreases n
  {
    if h != via {
      PassesWithinDepth(col, via, col[h].delegator, n - 1, k - 1);
    }
  }

  lemma {:induction false} PassesLonger(col: Column, via: nat, h: nat, n: nat, k: nat)
    requires Passes(col, via, h, n) && n <= k
    ensures Passes(col, via, h, k)
    decreases n
  {
    if h != via {
      PassesLonger(col, via, col[h].delegator, n - 1, k - 1);
    }
  }

  /** So does the revocation check: within the bound it sees the whole chain. */
  lemma BoundedSubtreeExact(col: Column, via: nat, h: nat)
    requires ColumnInv(col)
    ensures Passes(col, via, h, |col|) <==> Under(col, via, h)
  {
    if Under(col, via, h) && h != via {
      var n: nat :| Passes(col, via, h, n);
      var k: nat :| RootedAt(col, h, k);
      PassesWithinDepth(col, via, h, n, k);
      DepthBound(col, h, k);
      PassesLonger(col, via, h, k, |col|);
    }
  }

  // ----- sweeping -----

  /** A column without its unrooted rights. */
  function Swept(col: Column): Column {
    seq(|col|, h requires 0 <= h < |col| => if Reaches(col, h, |col|) then col[h] else Absent)
  }

  lemma {:induction false} StillRooted(col: Column, col': Column, h: nat, n: nat)
    requires RootedAt(col, h, n) && |col'| == |col|
    requires forall g: nat | g < |col| && Rooted(col, g) :: col'[g] == col[g]
    ensures RootedAt(col', h, n)
    decreases n
  {
    assert Rooted(col, h);
    if n > 0 {
      StillRooted(col, col', col[h].delegator, n - 1);
    }
  }

  lemma {:induction false} RootedIn(small: Column, col: Column, h: nat, n: nat)
    requires RootedAt(small, h, n) && |small| == |col|
    requires forall g | 0 <= g < |col| && !small[g].Absent? :: col[g] == small[g]
    ensures RootedAt(col, h, n)
    decreases n
  {
    if n > 0 {
      RootedIn(small, col, small[h].delegator, n - 1);
    }
  }

  /** Sweeping leaves rooted chains whole, whatever else was in the column. */
  lemma SweptIsRooted(col: Column)
    requires forall g, h | 0 <= g < |col| && 0 <= h < |col| && col[g].Root? && col[h].Root? :: g == h
    ensures ColumnInv(Swept(col))
    ensures forall h: nat | h < |col| :: Swept(col)[h] == if Rooted(col, h) then col[h] else Absent
  {
    forall h: nat | h < |col|
      ensures Swept(col)[h] == if Rooted(col, h) then col[h] else Absent
    {
      BoundedWalkExact(col, h);
    }
    forall h | 0 <= h < |col| && !Swept(col)[h].Absent?
      ensures Rooted(Swept(col), h)
    {
      var n: nat :| RootedAt(col, h, n);
      StillRooted(col, Swept(col), h, n);
    }
  }

  lemma SweptFixed(col: Column)
    requires ColumnInv(col)
    ensures Swept(col) == col
  {
    SweptIsRooted(col);
  }

  lemma {:induction false} CutChain(col: Column, from: nat, h: nat, n: nat)
    requires from < |col| && RootedAt(col, h, n)
    ensures Passes(col, from, h, n) || RootedAt(col[from := Absent], h, n)
    decreases n
  {
    if n > 0 && h != from {
      CutChain(col, from, col[h].delegator, n - 1);
    }
  }

  lemma {:induction false} CutUnrooted(col: Column, from: nat, h: nat, n: nat, k: nat)
    requires from < |col| && Passes(col, from, h, k)
    ensures !RootedAt(col[from := Absent], h, n)
    decreases k
  {
    if h != from && n > 0 {
      CutUnrooted(col, from, col[h].delegator, n - 1, k - 1);
    }
  }

  /** Dropping one holder and sweeping removes exactly that holder and those under it; every
      surviving right keeps its delegator. */
  lemma RevokeExact(col: Column, from: nat)
    requires ColumnInv(col) && from < |col|
    ensures ColumnInv(Swept(col[from := Absent]))
    ensures forall h: nat | h < |col| :: Swept(col[from := Absent])[h] == if Under(col, from, h) then Absent else col[h]
  {
    var cut := col[from := Absent];
    SweptIsRooted(cut);
    forall h: nat | h < |col|
      ensures Swept(cut)[h] == if Under(col, from, h) then Absent else col[h]
    {
      if Under(col, from, h) {
        var k: nat :| Passes(col, from, h, k);
        forall n: nat
          ensures !RootedAt(cut, h, n)
        {
          CutUnrooted(col, from, h, n, k);
        }
      } else if !col[h].Absent? {
        var n: nat :| RootedAt(col, h, n);
        CutChain(col, from, h, n);
        assert RootedAt(cut, h, n);
      }
    }
  }

  /** A fresh delegation hangs below its delegator and disturbs nothing. */
  lemma DelegateKeepsInv(col: Column, to: nat, by_: nat)
    requires ColumnInv(col) && to < |col| && by_ < |col| && col[to].Absent? && !col[by_].Absent?
    ensures ColumnInv(col[to := Via(by_)])
  {
    var col' := col[to := Via(by_)];
    forall h | 0 <= h < |col| && !col'[h].Absent?
      ensures Rooted(col', h)
    {
      var g := if h == to then by_ else h;
      var n: nat :| RootedAt(col, g, n);
      RootedIn(col, col', g, n) by {
        assert forall x | 0 <= x < |col| && !col[x].Absent? :: col'[x] == col[x];
      }
      assert h == to ==> RootedAt(col', h, n + 1);
    }
  }

  lemma RootKeepsInv(col: Column, h: nat)
    requires h < |col| && forall g | 0 <= g < |col| :: col[g].Absent?
    ensures ColumnInv(col[h := Root])
  {
    assert RootedAt(col[h := Root], h, 0);
  }

  // ----- the matrix: rights[holder][target] -----

  type Matrix = seq<seq<Control>>

  ghost predicate Square(c: Matrix, n: nat) {
    |c| == n && forall h | 0 <= h < n :: |c[h]| == n
  }

  function Cell(c: Matrix, holder: nat, target: nat): Control {
    if holder < |c| && target < |c[holder]| then c[holder][target] else Absent
  }

  function ColumnOf(c: Matrix, target: nat): Column {
    seq(|c|, h requires 0 <= h < |c| => Cell(c, h, target))
  }

  predicate Controls(c: Matrix, holder: nat, target: nat) {
    !Cell(c, holder, target).Absent?
  }

  ghost predicate Inv(c: Matrix, live: seq<bool>) {
    && Square(c, |live|)
    && (forall t: nat {:trigger ColumnOf(c, t)} | t < |live| :: ColumnInv(ColumnOf(c, t)))
    && (forall h: nat, t: nat {:trigger Controls(c, h, t)} | Controls(c, h, t) :: h != t && live[h] && live[t])
  }

  function Put(c: Matrix, holder: nat, target: nat, x: Control): Matrix {
    if holder < |c| && target < |c[holder]| then c[holder := c[holder][target := x]] else c
  }

  /** Every column swept. */
  function Sweep(c: Matrix): Matrix {
    seq(|c|, h requires 0 <= h < |c| =>
      seq(|c[h]|, t requires 0 <= t < |c[h]| => if Reaches(ColumnOf(c, t), h, |c|) then c[h][t] else Absent))
  }

  function Revoke(c: Matrix, target: nat, from: nat): Matrix {
    Sweep(Put(c, from, target, Absent))
  }

  /** The matrix without row and column `t`. */
  function Strip(c: Matrix, t: nat): Matrix {
    seq(|c|, h requires 0 <= h < |c| =>
      seq(|c[h]|, u requires 0 <= u < |c[h]| => if h == t || u == t then Absent else c[h][u]))
  }

  function Remove(c: Matrix, t: nat): Matrix {
    Sweep(Strip(c, t))
  }

  lemma ColumnOfPut(c: Matrix, n: nat, h: nat, t: nat, x: Control, u: nat)
    requires Square(c, n) && h < n && t < n
    ensures ColumnOf(Put(c, h, t, x), u) == if u == t then ColumnOf(c, t)[h := x] else ColumnOf(c, u)
  {
  }

  lemma ColumnOfSweep(c: Matrix, n: nat, t: nat)
    requires Square(c, n) && t < n
    ensures ColumnOf(Sweep(c), t) == Swept(ColumnOf(c, t))
  {
  }

  lemma ColumnOfStrip(c: Matrix, n: nat, t: nat, u: nat)
    requires Square(c, n) && t < n && u < n && u != t
    ensures ColumnOf(Strip(c, t), u) == ColumnOf(c, u)[t := Absent]
  {
  }

  lemma ColumnAt(c: Matrix, live: seq<bool>, t: nat)
    requires Inv(c, live) && t < |live|
    ensures ColumnInv(ColumnOf(c, t))
  {
  }

  lemma ControlsAt(c: Matrix, live: seq<bool>, h: nat, t: nat)
    requires Inv(c, live) && Controls(c, h, t)
    ensures h < |live| && t < |live| && h != t && live[h] && live[t]
  {
  }

  lemma NewInv(n: nat, live: seq<bool>)
    requires |live| == n
    ensures Inv(seq(n, _ => seq(n, _ => Absent)), live)
  {
  }

  /** Creation starts the target's tree: before it the column of a dead domain is empty. */
  lemma CreateKeepsInv(c: Matrix, live: seq<bool>, creator: nat, target: nat)
    requires Inv(c, live) && creator < |live| && target < |live| && live[creator] && !live[target]
    ensures Inv(Put(c, creator, target, Root), live[target := true])
    ensures forall h: nat :: !Controls(c, h, target)
  {
    var c', live' := Put(c, creator, target, Root), live[target := true];
    forall h: nat
      ensures !Controls(c, h, target)
    {
      if Controls(c, h, target) {
        ControlsAt(c, live, h, target);
      }
    }
    forall t: nat | t < |live|
      ensures ColumnInv(ColumnOf(c', t))
    {
      ColumnAt(c, live, t);
      ColumnOfPut(c, |live|, creator, target, Root, t);
      if t == target {
        forall g | 0 <= g < |live|
          ensures ColumnOf(c, t)[g].Absent?
        {
          assert !Controls(c, g, t);
        }
        RootKeepsInv(ColumnOf(c, t), creator);
      }
    }
    forall h: nat, t: nat | Controls(c', h, t)
      ensures h != t && live'[h] && live'[t]
    {
      if Controls(c, h, t) {
        ControlsAt(c, live, h, t);
      }
    }
  }

  lemma DelegateMatrixKeepsInv(c: Matrix, live: seq<bool>, by_: nat, target: nat, to: nat)
    requires Inv(c, live) && Controls(c, by_, target) && to < |live| && live[to] && to != target
             && !Controls(c, to, target)
    ensures target < |live| && Inv(Put(c, to, target, Via(by_)), live)
  {
    ControlsAt(c, live, by_, target);
    var c' := Put(c, to, target, Via(by_));
    forall t: nat | t < |live|
      ensures ColumnInv(ColumnOf(c', t))
    {
      ColumnAt(c, live, t);
      ColumnOfPut(c, |live|, to, target, Via(by_), t);
      if t == target {
        DelegateKeepsInv(ColumnOf(c, t), to, by_);
      }
    }
    forall h: nat, t: nat | Controls(c', h, t)
      ensures h != t && live[h] && live[t]
    {
      if Controls(c, h, t) {
        ControlsAt(c, live, h, t);
      }
    }
  }

  /** A revocation takes the right away from `from` and everyone it reached through `from`, over
      this target, and changes no other right over any target. */
  lemma RevokeMatrixExact(c: Matrix, live: seq<bool>, target: nat, from: nat, h: nat, t: nat)
    requires Inv(c, live) && target < |live| && from < |live| && h < |live| && t < |live|
    ensures Cell(Revoke(c, target, from), h, t)
            == if t == target && Under(ColumnOf(c, t), from, h) then Absent else Cell(c, h, t)
    ensures ColumnInv(ColumnOf(Revoke(c, target, from), t))
  {
    var n := |live|;
    ColumnAt(c, live, t);
    ColumnOfPut(c, n, from, target, Absent, t);
    ColumnOfSweep(Put(c, from, target, Absent), n, t);
    if t == target {
      RevokeExact(ColumnOf(c, t), from);
    } else {
      SweptFixed(ColumnOf(c, t));
    }
    assert Cell(Revoke(c, target, from), h, t) == ColumnOf(Revoke(c, target, from), t)[h];
    assert Cell(c, h, t) == ColumnOf(c, t)[h];
  }

  lemma RevokeKeepsInv(c: Matrix, live: seq<bool>, target: nat, from: nat)
    requires Inv(c, live) && target < |live| && from < |live|
    ensures Inv(Revoke(c, target, from), live)
  {
    var c' := Revoke(c, target, from);
    forall t: nat | t < |live|
      ensures ColumnInv(ColumnOf(c', t))
    {
      RevokeMatrixExact(c, live, target, from, t, t);
    }
    forall h: nat, t: nat | Controls(c', h, t)
      ensures h != t && live[h] && live[t]
    {
      RevokeMatrixExact(c, live, target, from, h, t);
      ControlsAt(c, live, h, t);
    }
  }

  /** A death takes away every right over the dead domain, every right it held, and exactly those
      that came through it; all other rights keep their delegators. */
  lemma RemoveExact(c: Matrix, live: seq<bool>, dead: nat, h: nat, t: nat)
    requires Inv(c, live) && dead < |live| && h < |live| && t < |live|
    ensures Cell(Remove(c, dead), h, t) == if t == dead || Under(ColumnOf(c, t), dead, h) then Absent else Cell(c, h, t)
    ensures ColumnInv(ColumnOf(Remove(c, dead), t))
  {
    var n := |live|;
    ColumnAt(c, live, t);
    ColumnOfSweep(Strip(c, dead), n, t);
    if t == dead {
      assert forall g | 0 <= g < n :: ColumnOf(Strip(c, dead), t)[g].Absent?;
      SweptFixed(ColumnOf(Strip(c, dead), t));
    } else {
      ColumnOfStrip(c, n, dead, t);
      RevokeExact(ColumnOf(c, t), dead);
    }
    assert Cell(Remove(c, dead), h, t) == ColumnOf(Remove(c, dead), t)[h];
    assert Cell(c, h, t) == ColumnOf(c, t)[h];
  }

  lemma RemoveKeepsInv(c: Matrix, live: seq<bool>, dead: nat)
    requires Inv(c, live) && dead < |live|
    ensures Inv(Remove(c, dead), live[dead := false])
  {
    var c' := Remove(c, dead);
    forall t: nat | t < |live|
      ensures ColumnInv(ColumnOf(c', t))
    {
      RemoveExact(c, live, dead, t, t);
    }
    forall h: nat, t: nat | Controls(c', h, t)
      ensures h != t && live[dead := false][h] && live[dead := false][t]
    {
      RemoveExact(c, live, dead, h, t);
      assert Passes(ColumnOf(c, t), dead, dead, 0);
      ControlsAt(c, live, h, t);
    }
  }

  // ----- sweeping in place -----

  /** `now` is `start` with some cells cleared. */
  ghost predicate Within(now: Matrix, start: Matrix, n: nat) {
    && Square(now, n) && Square(start, n)
    && forall h, t | 0 <= h < n && 0 <= t < n :: now[h][t].Absent? || now[h][t] == start[h][t]
  }

  ghost predicate IsRooted(c: Matrix, h: nat, t: nat) {
    Rooted(ColumnOf(c, t), h)
  }

  /** Part of a sweep: only unrooted rights have gone. */
  ghost predicate Sweeping(now: Matrix, start: Matrix, n: nat) {
    && Within(now, start, n)
    && forall h: nat, t: nat {:trigger IsRooted(start, h, t)} | h < n && t < n && IsRooted(start, h, t) ::
       now[h][t] == start[h][t]
  }

  /** A right whose delegator has none. */
  predicate Orphan(c: Matrix, h: nat, t: nat) {
    Cell(c, h, t).Via? && Cell(c, Cell(c, h, t).delegator, t).Absent?
  }

  lemma ColumnCell(c: Matrix, n: nat, h: nat, t: nat)
    requires Square(c, n) && h < n && t < n
    ensures |ColumnOf(c, t)| == n && ColumnOf(c, t)[h] == c[h][t] == Cell(c, h, t)
  {
  }

  /** A sweep only ever clears an orphan, and an orphan was not rooted to begin with. */
  lemma OrphanWasUnrooted(now: Matrix, start: Matrix, n: nat, h: nat, t: nat)
    requires Sweeping(now, start, n) && h < n && t < n && Orphan(now, h, t)
    ensures !IsRooted(start, h, t)
  {
    ColumnCell(start, n, h, t);
    if IsRooted(start, h, t) {
      var k: nat :| RootedAt(ColumnOf(start, t), h, k);
      var d := start[h][t].delegator;
      assert RootedAt(ColumnOf(start, t), d, k - 1);
      assert IsRooted(start, d, t);
      ColumnCell(start, n, d, t);
    }
  }

  lemma ClearOrphan(now: Matrix, start: Matrix, n: nat, h: nat, t: nat)
    requires Sweeping(now, start, n) && h < n && t < n && Orphan(now, h, t)
    ensures Sweeping(Put(now, h, t, Absent), start, n)
  {
    OrphanWasUnrooted(now, start, n, h, t);
  }

  /** Where nobody is orphaned and every chain is finite, every right is rooted. */
  lemma {:induction false} RootedWithoutOrphans(now: Matrix, good: Matrix, n: nat, h: nat, t: nat, k: nat)
    requires Within(now, good, n) && h < n && t < n && !Cell(now, h, t).Absent?
    requires forall g: nat {:trigger Orphan(now, g, t)} :: !Orphan(now, g, t)
    requires RootedAt(ColumnOf(good, t), h, k)
    ensures RootedAt(ColumnOf(now, t), h, k)
    decreases k
  {
    ColumnCell(now, n, h, t);
    ColumnCell(good, n, h, t);
    if k > 0 {
      assert !Orphan(now, h, t);
      RootedWithoutOrphans(now, good, n, now[h][t].delegator, t, k - 1);
    }
  }

  /** The loop's exit condition: a sweep that finds no orphan has removed exactly the unrooted. */
  lemma SweepDone(now: Matrix, start: Matrix, good: Matrix, live: seq<bool>)
    requires Inv(good, live) && Within(start, good, |live|) && Sweeping(now, start, |live|)
    requires forall h: nat, t: nat {:trigger Orphan(now, h, t)} :: !Orphan(now, h, t)
    ensures now == Sweep(start)
  {
    var n := |live|;
    forall h: nat, t: nat | h < n && t < n
      ensures now[h][t] == Sweep(start)[h][t]
    {
      SweepCell(now, start, good, live, h, t);
    }
    forall h: nat | h < n
      ensures now[h] == Sweep(start)[h]
    {
    }
    assert now == Sweep(start);
  }

  lemma SweepCell(now: Matrix, start: Matrix, good: Matrix, live: seq<bool>, h: nat, t: nat)
    requires Inv(good, live) && Within(start, good, |live|) && Sweeping(now, start, |live|)
    requires forall h: nat, t: nat {:trigger Orphan(now, h, t)} :: !Orphan(now, h, t)
    requires h < |live| && t < |live|
    ensures now[h][t] == Sweep(start)[h][t]
  {
    var n := |live|;
    ColumnCell(start, n, h, t);
    ColumnCell(now, n, h, t);
    BoundedWalkExact(ColumnOf(start, t), h);
    if IsRooted(start, h, t) {
    } else if !now[h][t].Absent? {
      ColumnAt(good, live, t);
      ColumnCell(good, n, h, t);
      var k: nat :| RootedAt(ColumnOf(good, t), h, k);
      RootedWithoutOrphans(now, good, n, h, t, k);
      RootedIn(ColumnOf(now, t), ColumnOf(start, t), h, k) by {
        forall g: nat | g < n && !ColumnOf(now, t)[g].Absent?
          ensures ColumnOf(start, t)[g] == ColumnOf(now, t)[g]
        {
          ColumnCell(now, n, g, t);
          ColumnCell(start, n, g, t);
        }
      }
    }
  }

  /** The rights still standing; each pass of the sweep that changes anything removes one. */
  ghost function Standing(c: Matrix): set<(nat, nat)> {
    set h: nat, t: nat | h < |c| && t < |c[h]| && !c[h][t].Absent? :: (h, t)
  }

  lemma ClearShrinks(c: Matrix, h: nat, t: nat)
    requires Controls(c, h, t)
    ensures |Standing(Put(c, h, t, Absent))| < |Standing(c)|
  {
    var c' := Put(c, h, t, Absent);
    forall x | x in Standing(c')
      ensures x in Standing(c) && x != (h, t)
    {
    }
    assert (h, t) in Standing(c);
    SubsetSize(Standing(c'), Standing(c) - {(h, t)});
  }

  lemma ClearedWithin(now: Matrix, start: Matrix, n: nat, h: nat, t: nat)
    requires Within(now, start, n) && h < n && t < n
    ensures Within(Put(now, h, t, Absent), start, n)
  {
  }

  lemma StripWithin(c: Matrix, n: nat, t: nat)
    requires Square(c, n)
    ensures Within(Strip(c, t), c, n)
  {
  }

  lemma WithinReflexive(start: Matrix, good: Matrix, n: nat)
    requires Within(start, good, n)
    ensures Sweeping(start, start, n) && Square(start, n)
  {
  }

  lemma OrphanIs(c: Matrix, n: nat, h: nat, t: nat)
    requires Square(c, n) && h < n && t < n
    ensures Orphan(c, h, t) <==> c[h][t].Via? && (c[h][t].delegator < n ==> c[c[h][t].delegator][t].Absent?)
  {
  }

  lemma DelegatorInColumn(col: Column, h: nat)
    requires ColumnInv(col) && h < |col| && col[h].Via?
    ensures col[h].delegator < |col|
  {
    var k: nat :| RootedAt(col, h, k);
    assert RootedAt(col, col[h].delegator, k - 1);
  }

  lemma DelegatorInRange(now: Matrix, good: Matrix, live: seq<bool>, h: nat, t: nat)
    requires Inv(good, live) && Within(now, good, |live|) && h < |live| && t < |live| && now[h][t].Via?
    ensures now[h][t].delegator < |live|
  {
    ColumnAt(good, live, t);
    ColumnCell(good, |live|, h, t);
    DelegatorInColumn(ColumnOf(good, t), h);
  }

  lemma NoOrphanBeyond(c: Matrix, n: nat)
    requires Square(c, n) && forall h: nat, t: nat | h < n && t < n :: !Orphan(c, h, t)
    ensures forall h: nat, t: nat {:trigger Orphan(c, h, t)} :: !Orphan(c, h, t)
  {
  }
}
