/** Page accounting as the hypervisor keeps it: reference counts in every frame and one flat
    vector of page-table entries whose slots are reused. Each method is proved to enact the
    transition of `P2mModel`, where there are no counts and no vector: every count is always
    exactly the number of holders it stands for. */
module P2m {
  import opened Basics
  import M = P2mModel

  datatype PageType = Writable | PageTable(level: M.Level) {
    function Kind(): M.Kind {
      if Writable? then M.Writable else M.Table
    }

    function Level(): nat {
      if Writable? then 0 else level
    }
  }

  datatype Frame =
    | Free
    | Allocated(owner: nat, refs: nat, writableRefs: nat, executableRefs: nat, pagetableRefs: nat,
                ptLevel: M.Level, pinned: bool)

  datatype Entry = Entry(active: bool, parent: nat, slot: nat, child: nat, writable: bool, leaf: bool, execute: bool) {
    function Key(): M.Key {
      M.Key(parent, slot)
    }

    function Edge(): M.Edge {
      M.Edge(child, writable, leaf, execute)
    }
  }

  /** The reference an entry takes on its child and gives back when it goes. */
  datatype ChildRef = Bare | Exec | Typed(ty: PageType) {
    function Kind(): M.Kind {
      match this
      case Bare => M.Bare
      case Exec => M.Exec
      case Typed(ty) => ty.Kind()
    }

    function Level(): nat {
      if Typed? then ty.Level() else 0
    }
  }

  function InteriorChildType(level: M.Level): Option<PageType> {
    if level == 1 then None else Some(PageTable(level - 1))
  }

  function EntryChildRef(level: M.Level, leaf: bool, writable: bool, execute: bool): Option<ChildRef> {
    if leaf then Some(if writable then Typed(Writable) else if execute then Exec else Bare)
    else
      var ty := InteriorChildType(level);
      if ty.Some? then Some(Typed(ty.value)) else None
  }

  /** An entry's shape and its table's level fix one reference, the same when it is linked and when
      it is unlinked; only an interior entry of a bottom table has none. */
  lemma ChildRefAgrees(level: M.Level, e: M.Edge, s: M.State, m: nat)
    requires !e.leaf ==> !e.execute
    ensures EntryChildRef(level, e.leaf, e.writable, e.execute).None? <==> !e.leaf && level == 1
    ensures EntryChildRef(level, e.leaf, e.writable, e.execute).Some? ==>
              var r := EntryChildRef(level, e.leaf, e.writable, e.execute).value;
              && r.Kind() == e.Kind()
              && M.Acquire(s, m, r.Kind(), r.Level()) == M.Acquire(s, m, e.Kind(), M.Below(level))
              && M.Release(s, m, r.Kind(), r.Level()) == M.Release(s, m, e.Kind(), M.Below(level))
  {
  }

  /** The call did what `spec` says: its new state on acceptance, nothing on refusal. */
  ghost predicate Enacted(before: M.State, after: M.State, spec: Result<M.State, M.Error>, refused: Option<M.Error>) {
    match spec
    case Success(s) => refused == None && after == s
    case Failure(e) => refused == Some(e) && after == before
  }

  // ----- what the counts mean -----

  /** A frame's counts are its holders, and its level field means something exactly while some
      holder needs a table. */
  ghost predicate Counts(f: Frame, s: M.State, m: nat)
    requires m < |s.pages|
  {
    if s.pages[m].Free? then f.Free? else
    && f.Allocated?
    && f.owner == s.pages[m].owner && f.pinned == s.pages[m].pinned
    && f.refs == M.Refs(s, m)
    && f.writableRefs == M.Held(s, m, M.Writable)
    && f.executableRefs == M.Held(s, m, M.Exec)
    && f.pagetableRefs == M.Held(s, m, M.Table)
    && (f.pagetableRefs > 0 ==> f.ptLevel == s.pages[m].level)
  }

  ghost predicate FramesCount(frames: seq<Frame>, s: M.State) {
    && |frames| == |s.pages|
    && forall m | 0 <= m < |frames| :: Counts(frames[m], s, m)
  }

  /** The active slots hold exactly the entries, each once. */
  ghost predicate LinksHold(links: seq<Entry>, place: map<M.Key, nat>, edges: map<M.Key, M.Edge>) {
    && place.Keys == edges.Keys
    && (forall k | k in edges :: place[k] < |links| && links[place[k]].active
                                 && links[place[k]].Key() == k && links[place[k]].Edge() == edges[k])
    && (forall i | 0 <= i < |links| && links[i].active :: links[i].Key() in edges && place[links[i].Key()] == i)
  }

  /** The acquire guard, over one frame. */
  function AcquireCheck(f: Frame, ty: Option<PageType>): Option<M.Error> {
    if f.Free? then Some(M.WrongState)
    else if ty.Some? && ty.value.Writable? && f.executableRefs > 0 then Some(M.WxConflict)
    else if ty.Some? && ty.value.Writable? && f.pagetableRefs > 0 then Some(M.TypePinned)
    else if ty.Some? && ty.value.PageTable?
            && (f.writableRefs > 0 || (f.pagetableRefs > 0 && f.ptLevel != ty.value.level)) then Some(M.TypePinned)
    else if f.refs == U32_MAX then Some(M.Overflow)
    else if ty.Some? && (if ty.value.Writable? then f.writableRefs else f.pagetableRefs) == U32_MAX
        then Some(M.Overflow)
    else None
  }

  /** The guard on counts is the guard on holders. */
  lemma GuardAgrees(f: Frame, s: M.State, m: nat, ty: Option<PageType>)
    requires m < |s.pages| && Counts(f, s, m) && M.Inv(s)
    ensures AcquireCheck(f, ty)
            == M.AcquireError(s, m, if ty.None? then M.Bare else ty.value.Kind(),
                              if ty.None? then 0 else ty.value.Level())
  {
    hide M.Held;
    if s.pages[m].Page? {
      M.PageAt(s, m);
    }
  }

  /** A frame with `up` more holders of one kind, at a level. */
  function Moved(f: Frame, kind: M.Kind, up: int, level: M.Level): Frame
    requires f.Allocated? && f.refs + up >= 0
    requires kind.Writable? ==> f.writableRefs + up >= 0
    requires kind.Exec? ==> f.executableRefs + up >= 0
    requires kind.Table? ==> f.pagetableRefs + up >= 0
  {
    f.(refs := f.refs + up,
       writableRefs := if kind.Writable? then f.writableRefs + up else f.writableRefs,
       executableRefs := if kind.Exec? then f.executableRefs + up else f.executableRefs,
       pagetableRefs := if kind.Table? then f.pagetableRefs + up else f.pagetableRefs,
       ptLevel := level)
  }

  lemma CountsAt(frames: seq<Frame>, s: M.State, m: nat)
    requires FramesCount(frames, s) && m < |frames|
    ensures Counts(frames[m], s, m)
  {
  }

  lemma MovedHeld(s: M.State, s': M.State, m: nat, kind: M.Kind, up: int, n: nat)
    requires M.HeldMoved(s, s', m, kind, up) && s.Allocated(n)
    ensures s'.Allocated(n)
    ensures forall k: M.Kind :: M.Held(s', n, k) == M.Held(s, n, k) + if n == m && k == kind then up else 0
    ensures M.Refs(s', n) == M.Refs(s, n) + if n == m then up else 0
  {
  }

  /** Counting one reference up or down keeps every count exact. */
  lemma CountsMove(frames: seq<Frame>, s: M.State, s': M.State, m: nat, kind: M.Kind, up: int, level: M.Level)
    requires FramesCount(frames, s) && s.Allocated(m) && M.HeldMoved(s, s', m, kind, up)
    requires forall n: nat | n < |s.pages| && n != m :: s'.pages[n] == s.pages[n]
    requires frames[m].refs + up >= 0 && M.Held(s, m, kind) + up >= 0
    requires M.Held(s', m, M.Table) > 0 ==> level == s'.pages[m].level
    ensures FramesCount(frames[m := Moved(frames[m], kind, up, level)], s')
  {
  }

  /** A release the code accepts although an entry or a pin relies on the reference: the count drops
      below the holders. */
  ghost predicate Overdrawn(before: seq<Frame>, after: seq<Frame>, s: M.State, s': M.State, m: nat, kind: M.Kind,
                            refused: Option<M.Error>)
  {
    && refused == None && s' == s && m < |before| && before[m].Allocated? && before[m].refs >= 1
    && (kind.Writable? ==> before[m].writableRefs >= 1)
    && (kind.Exec? ==> before[m].executableRefs >= 1)
    && (kind.Table? ==> before[m].pagetableRefs >= 1)
    && after == before[m := Moved(before[m], kind, -1, before[m].ptLevel)]
  }

  /** Then the counts are wrong. */
  lemma OverdrawnMiscounts(before: seq<Frame>, after: seq<Frame>, s: M.State, m: nat, kind: M.Kind)
    requires FramesCount(before, s) && Overdrawn(before, after, s, s, m, kind, None)
    ensures !FramesCount(after, s)
  {
    hide M.Held;
    CountsAt(before, s, m);
    if FramesCount(after, s) {
      CountsAt(after, s, m);
    }
  }

  /** An accepted acquire, on the counts. */
  lemma Taken(frames: seq<Frame>, s: M.State, m: nat, kind: M.Kind, level: nat, stamped: M.Level)
    requires FramesCount(frames, s) && M.Inv(s) && M.Acquire(s, m, kind, level).Success?
    requires kind.Table? ==> stamped == level
    requires !kind.Table? ==> stamped == frames[m].ptLevel
    ensures FramesCount(frames[m := Moved(frames[m], kind, 1, stamped)], M.Acquire(s, m, kind, level).value)
    ensures M.Inv(M.Acquire(s, m, kind, level).value) && M.Acquire(s, m, kind, level).value.links == s.links
  {
    hide M.Held;
    CountsAt(frames, s, m);
    M.PageAt(s, m);
    M.AcquireEffect(s, m, kind, level);
    MovedHeld(s, M.Acquire(s, m, kind, level).value, m, kind, 1, m);
    if kind.Table? {
      M.AcquireKeepsInv(s, m, kind, stamped);
    } else {
      M.AcquireKeepsInv(s, m, kind, level);
    }
    CountsMove(frames, s, M.Acquire(s, m, kind, level).value, m, kind, 1, stamped);
  }

  /** An accepted release, on the counts. */
  lemma Given(frames: seq<Frame>, s: M.State, m: nat, kind: M.Kind, level: nat)
    requires FramesCount(frames, s) && M.Inv(s) && M.Release(s, m, kind, level).Success?
    ensures frames[m].Allocated? && frames[m].refs >= 1 && M.Held(s, m, kind) >= 1
    ensures FramesCount(frames[m := Moved(frames[m], kind, -1, frames[m].ptLevel)], M.Release(s, m, kind, level).value)
    ensures M.Inv(M.Release(s, m, kind, level).value) && M.Release(s, m, kind, level).value.links == s.links
  {
    hide M.Held;
    CountsAt(frames, s, m);
    M.PageAt(s, m);
    LooseIsHeld(s, m, kind);
    M.ReleaseEffect(s, m, kind, level);
    MovedHeld(s, M.Release(s, m, kind, level).value, m, kind, -1, m);
    M.ReleaseKeepsInv(s, m, kind, level);
    CountsMove(frames, s, M.Release(s, m, kind, level).value, m, kind, -1, frames[m].ptLevel);
  }

  /** What the frames stand for after a release the code accepts. */
  ghost function AfterReturn(s: M.State, m: nat, kind: M.Kind, level: nat): M.State {
    var r := M.Release(s, m, kind, level);
    if r.Success? then r.value else s
  }

  /** A release the code accepts because the count is not zero: exact if a loose reference is
      returned, an overdraft otherwise. */
  lemma Returned(frames: seq<Frame>, s: M.State, m: nat, kind: M.Kind, level: nat)
    requires FramesCount(frames, s) && M.Inv(s) && s.Allocated(m) && M.Held(s, m, kind) > 0
    requires kind.Table? ==> s.pages[m].level == level
    ensures frames[m].Allocated? && frames[m].refs >= 1 && M.Held(s, m, kind) >= 1
    ensures !M.Overdraws(s, m, kind, level) ==>
              && M.Release(s, m, kind, level).Success?
              && FramesCount(frames[m := Moved(frames[m], kind, -1, frames[m].ptLevel)], AfterReturn(s, m, kind, level))
              && M.Inv(AfterReturn(s, m, kind, level)) && AfterReturn(s, m, kind, level).links == s.links
              && AfterReturn(s, m, kind, level).numDomains == s.numDomains
    ensures M.Overdraws(s, m, kind, level) ==>
              && AfterReturn(s, m, kind, level) == s
              && !FramesCount(frames[m := Moved(frames[m], kind, -1, frames[m].ptLevel)], s)
  {
    hide M.Held, M.Inv;
    CountsAt(frames, s, m);
    LooseIsHeld(s, m, kind);
    if M.Overdraws(s, m, kind, level) {
      OverdrawnMiscounts(frames, frames[m := Moved(frames[m], kind, -1, frames[m].ptLevel)], s, m, kind);
    } else {
      Given(frames, s, m, kind, level);
    }
  }

  lemma LooseIsHeld(s: M.State, m: nat, kind: M.Kind)
    requires s.Allocated(m)
    ensures s.pages[m].loose.Of(kind) <= M.Held(s, m, kind) <= M.Refs(s, m)
    ensures M.Refs(s, m)
            == M.Held(s, m, M.Bare) + M.Held(s, m, M.Exec) + M.Held(s, m, M.Writable) + M.Held(s, m, M.Table)
  {
  }

  lemma RefsBound(s: M.State, m: nat)
    requires M.Inv(s) && s.Allocated(m)
    ensures M.Refs(s, m) <= U32_MAX
    ensures M.Held(s, m, M.Exec) <= M.Refs(s, m)
  {
  }

  /** Recording or erasing an entry moves no count. */
  lemma CountsRebooked(frames: seq<Frame>, s: M.State, s': M.State)
    requires FramesCount(frames, s) && M.Rebooked(s, s')
    ensures FramesCount(frames, s')
  {
  }

  /** Replacing one frame leaves the counts of the others as they were. */
  lemma CountsReplace(frames: seq<Frame>, s: M.State, m: nat, f: Frame, page: M.Page)
    requires FramesCount(frames, s) && m < |frames| && Counts(f, s.With(m, page), m)
    ensures FramesCount(frames[m := f], s.With(m, page))
  {
  }

  /** Turning the reference just taken into a pin moves no count. */
  lemma CountsPinned(frames: seq<Frame>, s: M.State, caller: nat, m: nat, level: M.Level)
    requires M.Pin(s, caller, m, level).Success? && M.Acquire(s, m, M.Table, level).Success?
    requires FramesCount(frames, M.Acquire(s, m, M.Table, level).value) && m < |frames| && frames[m].Allocated?
    ensures FramesCount(frames[m := frames[m].(pinned := true)], M.Pin(s, caller, m, level).value)
  {
  }

  /** Nor does turning a pin into a loose reference. */
  lemma CountsUnpinned(frames: seq<Frame>, s: M.State, m: nat)
    requires FramesCount(frames, s) && s.Allocated(m) && s.pages[m].pinned
    ensures frames[m].Allocated? && FramesCount(frames[m := frames[m].(pinned := false)], M.Unpinned(s, m))
  {
  }

  // ----- the entry vector -----

  lemma LinksAdd(links: seq<Entry>, place: map<M.Key, nat>, edges: map<M.Key, M.Edge>, link: Entry, i: nat,
                 links': seq<Entry>)
    requires LinksHold(links, place, edges) && link.active && link.Key() !in edges
    requires i <= |links| && (i < |links| ==> !links[i].active)
    requires links' == if i < |links| then links[i := link] else links + [link]
    ensures LinksHold(links', place[link.Key() := i], edges[link.Key() := link.Edge()])
  {
  }

  lemma LinksDrop(links: seq<Entry>, place: map<M.Key, nat>, edges: map<M.Key, M.Edge>, k: M.Key)
    requires LinksHold(links, place, edges) && k in edges
    ensures k in place && place[k] < |links|
    ensures LinksHold(links[place[k] := links[place[k]].(active := false)], place - {k}, edges - {k})
  {
  }

  /** The empty vector of frames counts the empty state. */
  lemma NewCounts(numDomains: nat, numFrames: nat)
    ensures FramesCount(seq(numFrames, _ => Free), M.New(numDomains, numFrames))
  {
  }

  // ----- the system -----

  class System {
    var frames: seq<Frame>
    var links: seq<Entry>
    const numDomains: nat

    /** What the counts and the vector stand for, and where each entry is kept. */
    ghost var abs: M.State
    ghost var place: map<M.Key, nat>

    ghost predicate Valid()
      reads this
    {
      && M.Inv(abs) && abs.numDomains == numDomains
      && FramesCount(frames, abs)
      && LinksHold(links, place, abs.links)
    }

    constructor (numDomains: nat, numFrames: nat)
      ensures Valid() && abs == M.New(numDomains, numFrames)
    {
      this.numDomains := numDomains;
      frames := seq(numFrames, _ => Frame.Free);
      links := [];
      abs := M.New(numDomains, numFrames);
      place := map[];
      new;
      M.NewInv(numDomains, numFrames);
      NewCounts(numDomains, numFrames);
    }

    // ----- references -----

    method Get(mfn: nat) returns (refused: Option<M.Error>)
      requires Valid()
      modifies this`frames, this`abs
      ensures Valid() && Enacted(old(abs), abs, M.Acquire(old(abs), mfn, M.Bare, 0), refused)
      ensures refused.Some? ==> unchanged(this)
    {
      hide M.Held, M.Inv;
      if mfn >= |frames| {
        return Some(M.BadFrame);
      }
      CountsAt(frames, abs, mfn);
      GuardAgrees(frames[mfn], abs, mfn, None);
      refused := AcquireCheck(frames[mfn], None);
      if refused.Some? {
        return;
      }
      Taken(frames, abs, mfn, M.Bare, 0, frames[mfn].ptLevel);
      frames := frames[mfn := frames[mfn].(refs := frames[mfn].refs + 1)];
      abs := M.Acquire(abs, mfn, M.Bare, 0).value;
    }

    method Put(mfn: nat) returns (refused: Option<M.Error>)
      requires Valid()
      modifies this`frames, this`abs
      ensures Valid() <==> !M.Overdraws(old(abs), mfn, M.Bare, 0)
      ensures Valid() ==> Enacted(old(abs), abs, M.Release(old(abs), mfn, M.Bare, 0), refused)
      ensures !Valid() ==> Overdrawn(old(frames), frames, old(abs), abs, mfn, M.Bare, refused)
    {
      hide M.Held, M.Inv;
      if mfn >= |frames| {
        return Some(M.BadFrame);
      }
      CountsAt(frames, abs, mfn);
      if frames[mfn].Free? {
        return Some(M.WrongState);
      }
      LooseIsHeld(abs, mfn, M.Bare);
      var typed := frames[mfn].writableRefs + frames[mfn].executableRefs + frames[mfn].pagetableRefs;
      if frames[mfn].refs == 0 {
        return Some(M.WrongState);
      }
      if frames[mfn].refs - 1 < typed {
        return Some(M.InUse);
      }
      Returned(frames, abs, mfn, M.Bare, 0);
      frames := frames[mfn := frames[mfn].(refs := frames[mfn].refs - 1)];
      abs := AfterReturn(abs, mfn, M.Bare, 0);
      return None;
    }

    method GetType(mfn: nat, ty: PageType) returns (refused: Option<M.Error>)
      requires Valid()
      modifies this`frames, this`abs
      ensures Valid() && Enacted(old(abs), abs, M.Acquire(old(abs), mfn, ty.Kind(), ty.Level()), refused)
      ensures refused.Some? ==> unchanged(this)
    {
      hide M.Held, M.Inv;
      if mfn >= |frames| {
        return Some(M.BadFrame);
      }
      CountsAt(frames, abs, mfn);
      GuardAgrees(frames[mfn], abs, mfn, Some(ty));
      refused := AcquireCheck(frames[mfn], Some(ty));
      if refused.Some? {
        return;
      }
      var f := frames[mfn];
      match ty
      case Writable =>
        Taken(frames, abs, mfn, M.Writable, 0, f.ptLevel);
        frames := frames[mfn := f.(refs := f.refs + 1, writableRefs := f.writableRefs + 1)];
        abs := M.Acquire(abs, mfn, M.Writable, 0).value;
      case PageTable(level) =>
        var stamped: M.Level := if f.pagetableRefs == 0 then level else f.ptLevel;
        Taken(frames, abs, mfn, M.Table, level, stamped);
        frames := frames[mfn := f.(refs := f.refs + 1, pagetableRefs := f.pagetableRefs + 1, ptLevel := stamped)];
        abs := M.Acquire(abs, mfn, M.Table, level).value;
    }

    method PutType(mfn: nat, ty: PageType) returns (refused: Option<M.Error>)
      requires Valid()
      modifies this`frames, this`abs
      ensures Valid() <==> !M.Overdraws(old(abs), mfn, ty.Kind(), ty.Level())
      ensures Valid() ==> Enacted(old(abs), abs, M.Release(old(abs), mfn, ty.Kind(), ty.Level()), refused)
      ensures !Valid() ==> Overdrawn(old(frames), frames, old(abs), abs, mfn, ty.Kind(), refused)
    {
      hide M.Held, M.Inv;
      if mfn >= |frames| {
        return Some(M.BadFrame);
      }
      CountsAt(frames, abs, mfn);
      var f := frames[mfn];
      if f.Free? {
        return Some(M.WrongState);
      }
      LooseIsHeld(abs, mfn, ty.Kind());
      match ty {
        case Writable =>
          if f.writableRefs == 0 {
            return Some(M.WrongState);
          }
          Returned(frames, abs, mfn, M.Writable, 0);
          frames := frames[mfn := f.(writableRefs := f.writableRefs - 1, refs := SatSub(f.refs, 1))];
          abs := AfterReturn(abs, mfn, M.Writable, 0);
        case PageTable(level) =>
          if f.pagetableRefs == 0 || f.ptLevel != level {
            return Some(M.WrongState);
          }
          Returned(frames, abs, mfn, M.Table, level);
          frames := frames[mfn := f.(pagetableRefs := f.pagetableRefs - 1, refs := SatSub(f.refs, 1))];
          abs := AfterReturn(abs, mfn, M.Table, level);
      }
      return None;
    }

    method GetExec(mfn: nat) returns (refused: Option<M.Error>)
      requires Valid()
      modifies this`frames, this`abs
      ensures Valid() && Enacted(old(abs), abs, M.Acquire(old(abs), mfn, M.Exec, 0), refused)
      ensures refused.Some? ==> unchanged(this)
    {
      hide M.Held, M.Inv;
      if mfn >= |frames| {
        return Some(M.BadFrame);
      }
      CountsAt(frames, abs, mfn);
      var f := frames[mfn];
      if f.Free? {
        return Some(M.WrongState);
      }
      if f.writableRefs > 0 {
        return Some(M.WxConflict);
      }
      RefsBound(abs, mfn);
      if f.refs == U32_MAX || f.executableRefs == U32_MAX {
        return Some(M.Overflow);
      }
      Taken(frames, abs, mfn, M.Exec, 0, f.ptLevel);
      frames := frames[mfn := f.(executableRefs := f.executableRefs + 1, refs := f.refs + 1)];
      abs := M.Acquire(abs, mfn, M.Exec, 0).value;
      return None;
    }

    method PutExec(mfn: nat) returns (refused: Option<M.Error>)
      requires Valid()
      modifies this`frames, this`abs
      ensures Valid() <==> !M.Overdraws(old(abs), mfn, M.Exec, 0)
      ensures Valid() ==> Enacted(old(abs), abs, M.Release(old(abs), mfn, M.Exec, 0), refused)
      ensures !Valid() ==> Overdrawn(old(frames), frames, old(abs), abs, mfn, M.Exec, refused)
    {
      hide M.Held, M.Inv;
      if mfn >= |frames| {
        return Some(M.BadFrame);
      }
      CountsAt(frames, abs, mfn);
      var f := frames[mfn];
      if f.Free? {
        return Some(M.WrongState);
      }
      LooseIsHeld(abs, mfn, M.Exec);
      if f.executableRefs == 0 {
        return Some(M.WrongState);
      }
      Returned(frames, abs, mfn, M.Exec, 0);
      frames := frames[mfn := f.(executableRefs := f.executableRefs - 1, refs := SatSub(f.refs, 1))];
      abs := AfterReturn(abs, mfn, M.Exec, 0);
      return None;
    }

    // ----- frames and pins -----

    method Allocate(owner: nat, mfn: nat) returns (refused: Option<M.Error>)
      requires Valid()
      modifies this`frames, this`abs
      ensures Valid() && Enacted(old(abs), abs, M.Allocate(old(abs), owner, mfn), refused)
    {
      hide M.Held, M.Inv;
      if owner >= numDomains {
        return Some(M.BadDomain);
      }
      if mfn >= |frames| {
        return Some(M.BadFrame);
      }
      CountsAt(frames, abs, mfn);
      if frames[mfn].Allocated? {
        return Some(M.WrongState);
      }
      M.AllocateKeepsInv(abs, owner, mfn);
      M.FreshPageIsUnheld(abs, owner, mfn);
      CountsReplace(frames, abs, mfn, Allocated(owner, 0, 0, 0, 0, 1, false), M.Page(owner, 0, false, M.NONE_LOOSE));
      frames := frames[mfn := Allocated(owner, 0, 0, 0, 0, 1, false)];
      abs := M.Allocate(abs, owner, mfn).value;
      return None;
    }

    /** Why the caller may not act on a frame as its owner. */
    function NotOwned(caller: nat, mfn: nat): Option<M.Error>
      reads this
    {
      if mfn >= |frames| then Some(M.BadFrame)
      else if frames[mfn].Free? then Some(M.WrongState)
      else if frames[mfn].owner != caller then Some(M.NotYours)
      else None
    }

    lemma OwnedAgrees(caller: nat, mfn: nat)
      requires Valid()
      ensures M.Owned(abs, caller, mfn) == if NotOwned(caller, mfn).Some? then Failure(NotOwned(caller, mfn).value)
                                           else Success(abs.pages[mfn])
      ensures NotOwned(caller, mfn).None? ==> mfn < |frames| && frames[mfn].Allocated? && Counts(frames[mfn], abs, mfn)
    {
    }

    method Free(caller: nat, mfn: nat) returns (refused: Option<M.Error>)
      requires Valid()
      modifies this`frames, this`abs
      ensures Valid() && Enacted(old(abs), abs, M.FreePage(old(abs), caller, mfn), refused)
    {
      hide M.Held, M.Inv;
      OwnedAgrees(caller, mfn);
      refused := NotOwned(caller, mfn);
      if refused.Some? {
        return;
      }
      if frames[mfn].refs > 0 {
        return Some(M.InUse);
      }
      M.FreeKeepsInv(abs, caller, mfn);
      CountsReplace(frames, abs, mfn, Frame.Free, M.Free);
      frames := frames[mfn := Frame.Free];
      abs := abs.With(mfn, M.Free);
    }

    method Pin(caller: nat, mfn: nat, level: M.Level) returns (refused: Option<M.Error>)
      requires Valid()
      modifies this`frames, this`abs
      ensures Valid() && Enacted(old(abs), abs, M.Pin(old(abs), caller, mfn, level), refused)
    {
      hide M.Held, M.Inv;
      OwnedAgrees(caller, mfn);
      refused := NotOwned(caller, mfn);
      if refused.Some? {
        return;
      }
      if frames[mfn].pinned {
        return Some(M.WrongState);
      }
      refused := GetType(mfn, PageTable(level));
      if refused.Some? {
        return;
      }
      CountsAt(frames, abs, mfn);
      M.PinKeepsInv(old(abs), caller, mfn, level);
      CountsPinned(frames, old(abs), caller, mfn, level);
      frames := frames[mfn := frames[mfn].(pinned := true)];
      abs := M.Pin(old(abs), caller, mfn, level).value;
    }

    method Unpin(caller: nat, mfn: nat) returns (refused: Option<M.Error>)
      requires Valid()
      modifies this`frames, this`abs
      ensures Valid() && Enacted(old(abs), abs, M.Unpin(old(abs), caller, mfn), refused)
    {
      hide M.Held, M.Inv;
      OwnedAgrees(caller, mfn);
      refused := NotOwned(caller, mfn);
      if refused.Some? {
        return;
      }
      if !frames[mfn].pinned {
        return Some(M.WrongState);
      }
      var level := frames[mfn].ptLevel;
      M.PinHolds(abs, mfn);
      M.UnpinSteps(abs, caller, mfn, level);
      CountsUnpinned(frames, abs, mfn);
      frames := frames[mfn := frames[mfn].(pinned := false)];
      abs := M.Unpinned(abs, mfn);
      refused := PutType(mfn, PageTable(level));
    }

    // ----- page-table entries -----

    /** Where the live entry at this slot is kept, if there is one. */
    method LinkIndex(parent: nat, slot: nat) returns (index: Option<nat>)
      requires LinksHold(links, place, abs.links)
      ensures index == if M.Key(parent, slot) in abs.links then Some(place[M.Key(parent, slot)]) else None
    {
      for i := 0 to |links|
        invariant forall j | 0 <= j < i :: links[j].active ==> links[j].Key() != M.Key(parent, slot)
      {
        if links[i].active && links[i].parent == parent && links[i].slot == slot {
          assert links[i].Key() == M.Key(parent, slot);
          return Some(i);
        }
      }
      return None;
    }

    /** Record an entry in the first inactive slot, or a new one. */
    method AllocLink(link: Entry)
      requires LinksHold(links, place, abs.links) && link.active && link.Key() !in abs.links
      modifies this`links, this`place
      ensures LinksHold(links, place, old(abs).links[link.Key() := link.Edge()])
      ensures |links| <= |old(links)| + 1
      ensures (exists i | 0 <= i < |old(links)| :: !old(links)[i].active) ==> |links| == |old(links)|
    {
      var i := 0;
      while i < |links| && links[i].active
        invariant 0 <= i <= |links|
        invariant forall j | 0 <= j < i :: links[j].active
      {
        i := i + 1;
      }
      LinksAdd(links, place, abs.links, link, i, if i < |links| then links[i := link] else links + [link]);
      place := place[link.Key() := i];
      if i < |links| {
        links := links[i := link];
      } else {
        links := links + [link];
      }
    }

    method TakeChild(child: nat, r: ChildRef) returns (refused: Option<M.Error>)
      requires Valid()
      modifies this`frames, this`abs
      ensures Valid() && Enacted(old(abs), abs, M.Acquire(old(abs), child, r.Kind(), r.Level()), refused)
      ensures refused.Some? ==> unchanged(this)
    {
      match r
      case Bare => refused := Get(child);
      case Exec => refused := GetExec(child);
      case Typed(ty) => refused := GetType(child, ty);
    }

    method DropChild(child: nat, r: ChildRef) returns (refused: Option<M.Error>)
      requires Valid() && M.Returnable(abs, child, r.Kind())
      modifies this`frames, this`abs
      ensures Valid() && Enacted(old(abs), abs, M.Release(old(abs), child, r.Kind(), r.Level()), refused)
    {
      match r
      case Bare => refused := Put(child);
      case Exec => refused := PutExec(child);
      case Typed(ty) => refused := PutType(child, ty);
    }

    /** The type a frame is referenced as, if any. */
    function CurrentType(mfn: nat): Option<PageType>
      reads this
    {
      if mfn < |frames| && frames[mfn].Allocated? then
        if frames[mfn].writableRefs > 0 then Some(Writable)
        else if frames[mfn].pagetableRefs > 0 then Some(PageTable(frames[mfn].ptLevel))
        else None
      else None
    }

    /** A frame is a table on its counts exactly when some holder needs it to be one. */
    lemma TableAgrees(m: nat)
      requires Valid() && m < |frames| && frames[m].Allocated?
      ensures (CurrentType(m) == Some(PageTable(frames[m].ptLevel))) <==> abs.pages[m].level > 0
      ensures abs.Allocated(m) && (abs.pages[m].level > 0 ==> frames[m].ptLevel == abs.pages[m].level)
    {
      hide M.Held;
      CountsAt(frames, abs, m);
      M.PageAt(abs, m);
    }

    method Link(caller: nat, parent: nat, slot: nat, child: nat, writable: bool, leaf: bool, execute: bool)
      returns (refused: Option<M.Error>)
      requires Valid()
      modifies this
      ensures Valid()
      ensures Enacted(old(abs), abs,
                      M.Link(old(abs), caller, M.Key(parent, slot), M.Edge(child, writable, leaf, execute)), refused)
    {
      hide M.Held, M.Inv, LinksHold, FramesCount;
      if slot >= M.TABLE_SLOTS {
        return Some(M.BadSlot);
      }
      var execute' := execute && leaf;
      if writable && execute' {
        return Some(M.WxConflict);
      }
      OwnedAgrees(caller, parent);
      refused := NotOwned(caller, parent);
      if refused.Some? {
        return;
      }
      var level := frames[parent].ptLevel;
      TableAgrees(parent);
      if CurrentType(parent) != Some(PageTable(level)) {
        return Some(M.WrongState);
      }
      AllocatedAgrees(child);
      if child >= |frames| || frames[child].Free? {
        return Some(M.WrongState);
      }
      var index := LinkIndex(parent, slot);
      if index.Some? {
        return Some(M.WrongState);
      }
      ghost var k, e := M.Key(parent, slot), M.Edge(child, writable, leaf, execute');
      ChildRefAgrees(level, e, abs, child);
      var childRef := EntryChildRef(level, leaf, writable, execute');
      if childRef.None? {
        return Some(M.WrongState);
      }
      refused := Attach(Entry(true, parent, slot, child, writable, leaf, execute'), level, childRef.value);
    }

    /** Take both references, undoing the first if the second is refused, then record the entry. */
    method Attach(link: Entry, level: M.Level, childRef: ChildRef) returns (refused: Option<M.Error>)
      requires Valid() && link.active && link.Key() !in abs.links && abs.Allocated(link.parent)
               && abs.Allocated(link.child)
      requires EntryChildRef(level, link.leaf, link.writable, link.execute) == Some(childRef)
      requires (!link.leaf ==> !link.execute) && !(link.writable && link.execute) && link.slot < M.TABLE_SLOTS
      requires abs.pages[link.parent].level == level
      modifies this
      ensures Valid() && Enacted(old(abs), abs, M.Attach(old(abs), link.Key(), link.Edge(), level), refused)
    {
      hide M.Held, M.Inv, LinksHold, FramesCount;
      ghost var s, k, e := abs, link.Key(), link.Edge();
      ChildRefAgrees(level, e, abs, link.child);
      refused := TakeChild(link.child, childRef);
      if refused.Some? {
        return;
      }
      M.AcquireThenRelease(s, link.child, childRef.Kind(), childRef.Level());
      M.AcquiredIsLoose(s, link.child, e.Kind(), M.Below(level));
      ChildRefAgrees(level, e, abs, link.child);
      refused := GetType(link.parent, PageTable(level));
      if refused.Some? {
        var _ := DropChild(link.child, childRef);
        return;
      }
      M.AttachSteps(s, k, e, level);
      AllocLink(link);
      M.BindKeepsInv(abs, k, e);
      M.BindEffect(abs, k, e);
      CountsRebooked(frames, abs, M.Bind(abs, k, e));
      abs := M.Bind(abs, k, e);
    }

    lemma AllocatedAgrees(m: nat)
      requires Valid()
      ensures abs.Allocated(m) <==> m < |frames| && frames[m].Allocated?
    {
    }

    method Unlink(caller: nat, parent: nat, slot: nat) returns (refused: Option<M.Error>)
      requires Valid()
      modifies this
      ensures Valid() && Enacted(old(abs), abs, M.Unlink(old(abs), caller, M.Key(parent, slot)), refused)
      ensures |links| == |old(links)|
      ensures refused.None? ==> place == old(place) - {M.Key(parent, slot)}
    {
      hide M.Held, M.Inv, FramesCount, LinksHold, M.Unbind, M.Cut;
      OwnedAgrees(caller, parent);
      refused := NotOwned(caller, parent);
      if refused.Some? {
        return;
      }
      var level := frames[parent].ptLevel;
      var index := LinkIndex(parent, slot);
      if index.None? {
        return Some(M.WrongState);
      }
      KeptAt(M.Key(parent, slot));
      var link := links[index.value];
      ghost var k, s := M.Key(parent, slot), abs;
      EdgeAt(s, k);
      M.EdgeDescends(s, k);
      TableAgrees(parent);
      ChildRefAgrees(level, link.Edge(), s, link.child);
      LinksDrop(links, place, s.links, k);
      M.UnbindEffect(s, k);
      M.UnlinkReleasesTable(s, k);
      CountsRebooked(frames, s, M.Unbind(s, k));
      links := links[index.value := link.(active := false)];
      place := place - {k};
      abs := M.Unbind(s, k);
      refused := PutType(parent, PageTable(level));
      assert refused.None?;
      M.UnlinkReleasesChild(s, k, abs);
      var childRef := EntryChildRef(level, link.leaf, link.writable, link.execute);
      if childRef.Some? {
        ChildRefAgrees(level, link.Edge(), abs, link.child);
        refused := DropChild(link.child, childRef.value);
      }
    }

    lemma KeptAt(k: M.Key)
      requires Valid() && k in abs.links
      ensures k in place && place[k] < |links| && links[place[k]].active
      ensures links[place[k]].Key() == k && links[place[k]].Edge() == abs.links[k]
    {
    }

    // ----- teardown -----

    function OwnerOf(mfn: nat): Option<nat>
      reads this
    {
      if mfn < |frames| && frames[mfn].Allocated? then Some(frames[mfn].owner) else None
    }

    lemma OwnerAgrees(m: nat)
      requires Valid()
      ensures OwnerOf(m) == abs.OwnerOf(m)
    {
    }

    lemma ActiveAt(i: nat)
      requires Valid() && i < |links| && links[i].active
      ensures links[i].Key() in place && place[links[i].Key()] == i
      ensures links[i].Key() in abs.links && abs.links[links[i].Key()] == links[i].Edge()
    {
    }

    lemma Placed()
      requires Valid()
      ensures place.Keys == abs.links.Keys && forall k | k in place :: place[k] < |links|
    {
    }

    /** One more entry gone, on behalf of its table's owner. */
    method Sever(i: nat, caller: nat, ghost s: M.State, ghost done: set<M.Key>)
      requires Valid() && i < |links| && links[i].active && OwnerOf(links[i].parent) == Some(caller)
      requires abs == M.Cut(s, done)
      modifies this
      ensures Valid() && |links| == |old(links)|
      ensures abs == M.Cut(s, done + {old(links[i].Key())})
      ensures place == old(place) - {old(links[i].Key())}
      ensures forall m: nat :: OwnerOf(m) == old(OwnerOf(m))
    {
      hide M.Held, M.Inv, M.Cut, FramesCount, LinksHold;
      ghost var k := links[i].Key();
      ActiveAt(i);
      forall m: nat
        ensures OwnerOf(m) == s.OwnerOf(m)
      {
        OwnerAgrees(m);
        M.CutOwners(s, done, m);
      }
      UnlinkSucceeds(caller, k);
      var refused := Unlink(caller, links[i].parent, links[i].slot);
      M.CutTwice(s, done, {k});
      forall m: nat
        ensures OwnerOf(m) == s.OwnerOf(m)
      {
        OwnerAgrees(m);
        M.CutOwners(s, done + {k}, m);
      }
    }

    lemma UnlinkSucceeds(caller: nat, k: M.Key)
      requires Valid() && k in abs.links && OwnerOf(k.parent) == Some(caller)
      ensures M.Unlink(abs, caller, k) == Success(M.Cut(abs, {k}))
    {
      hide M.Held, M.Inv, M.Cut, FramesCount, LinksHold;
      OwnerAgrees(k.parent);
    }

    lemma EdgeOwners(k: M.Key)
      requires Valid() && k in abs.links
      ensures OwnerOf(k.parent) == abs.OwnerOf(k.parent) && OwnerOf(k.parent).Some?
      ensures OwnerOf(abs.links[k].child) == abs.OwnerOf(abs.links[k].child) && OwnerOf(abs.links[k].child).Some?
    {
      EdgeAt(abs, k);
      OwnerAgrees(k.parent);
      OwnerAgrees(abs.links[k].child);
    }

    /** Every entry of the owner's tables goes, whatever the order. */
    method UnlinkAll(owner: nat)
      requires Valid()
      modifies this
      ensures Valid() && abs == M.Cut(old(abs), M.RootedAt(old(abs), owner))
    {
      hide Valid, M.Cut;
      ghost var s, done: set<M.Key> := abs, {};
      CutNothingHere();
      forall k | k in s.links
        ensures OwnerOf(k.parent) == s.OwnerOf(k.parent)
      {
        EdgeOwners(k);
      }
      Placed();
      for i := 0 to |links|
        invariant Valid() && |links| == |old(links)|
        invariant abs == M.Cut(s, done) && done <= M.RootedAt(s, owner) && place.Keys == s.links.Keys - done
        invariant forall m: nat :: OwnerOf(m) == old(OwnerOf(m))
        invariant forall k | k in place && place[k] < i :: s.OwnerOf(k.parent) != Some(owner)
        invariant forall k | k in place :: place[k] < |links|
      {
        PlacedOnce();
        if links[i].active {
          ActiveAt(i);
          if OwnerOf(links[i].parent) == Some(owner) {
            ghost var k := links[i].Key();
            Sever(i, owner, s, done);
            done := done + {k};
          }
        } else {
          InactiveAt(i);
        }
      }
      assert done == M.RootedAt(s, owner);
    }

    lemma InactiveAt(i: nat)
      requires Valid() && i < |links| && !links[i].active
      ensures forall k | k in place :: place[k] != i
    {
    }

    lemma PlacedOnce()
      requires Valid()
      ensures forall j, k | j in place && k in place && place[j] == place[k] :: j == k
    {
    }

    lemma CutNothingHere()
      requires Valid()
      ensures M.Cut(abs, {}) == abs
    {
      M.CutNothing(abs);
    }

    lemma ForeignAgrees(k: M.Key, owner: nat)
      requires Valid() && k in abs.links
      ensures k in M.ForeignInto(abs, owner)
              <==> OwnerOf(abs.links[k].child) == Some(owner) && OwnerOf(k.parent) != Some(owner)
      ensures OwnerOf(k.parent).Some?
    {
      hide M.Inv, M.Held, FramesCount, LinksHold;
      EdgeOwners(k);
    }

    /** Dispatch one operation of a guest on its own pages. */
    method Do(caller: nat, op: M.Op) returns (refused: Option<M.Error>)
      requires Valid()
      modifies this
      ensures Valid() && Enacted(old(abs), abs, M.Step(old(abs), caller, op), refused)
    {
      hide M.Held, M.Inv, M.Allocate, M.FreePage, M.Pin, M.Unpin, M.Link, M.Unlink, FramesCount, LinksHold;
      match op
      case OpAllocate(m) => refused := Allocate(caller, m);
      case OpFree(m) => refused := Free(caller, m);
      case OpPin(m, level) => refused := Pin(caller, m, level);
      case OpUnpin(m) => refused := Unpin(caller, m);
      case OpLink(k, e) => refused := Link(caller, k.parent, k.slot, e.child, e.writable, e.leaf, e.execute);
      case OpUnlink(k) => refused := Unlink(caller, k.parent, k.slot);
    }

    /** Whether this other domain's table maps the frame. */
    method IsForeignLinkedBy(frame: nat, linker: nat) returns (found: bool)
      requires Valid()
      ensures found == M.ForeignLinkedBy(abs, frame, linker)
    {
      hide M.Held, M.Inv, FramesCount;
      OwnerAgrees(frame);
      for i := 0 to |links|
        invariant forall k | k in abs.links && place[k] < i ::
                    !(abs.links[k].child == frame && abs.OwnerOf(k.parent) == Some(linker)
                      && abs.OwnerOf(frame) != Some(linker))
      {
        OwnerAgrees(links[i].parent);
        if links[i].active {
          ActiveAt(i);
          if links[i].child == frame && OwnerOf(links[i].parent) == Some(linker) && OwnerOf(frame) != Some(linker) {
            return true;
          }
        }
      }
      return false;
    }

    /** Every other domain's entry onto the owner's frames goes, each by its own table's owner. */
    method UnlinkAllInto(owner: nat)
      requires Valid()
      modifies this
      ensures Valid() && abs == M.Cut(old(abs), M.ForeignInto(old(abs), owner))
    {
      hide Valid, M.Cut, M.ForeignInto;
      ghost var s, target, done: set<M.Key> := abs, M.ForeignInto(abs, owner), {};
      CutNothingHere();
      forall k | k in s.links
        ensures k in target <==> OwnerOf(s.links[k].child) == Some(owner) && OwnerOf(k.parent) != Some(owner)
        ensures OwnerOf(k.parent).Some?
      {
        ForeignAgrees(k, owner);
      }
      Placed();
      M.ForeignIsLinked(s, owner);
      for i := 0 to |links|
        invariant Valid() && |links| == |old(links)|
        invariant abs == M.Cut(s, done) && done <= target
        invariant abs.links == s.links - done && place.Keys == abs.links.Keys
        invariant forall m: nat :: OwnerOf(m) == old(OwnerOf(m))
        invariant forall k | k in place :: i <= place[k] < |links| || k !in target
      {
        PlacedOnce();
        if !links[i].active {
          InactiveAt(i);
          continue;
        }
        ActiveAt(i);
        ghost var k := links[i].Key();
        if OwnerOf(links[i].child) != Some(owner) {
          continue;
        }
        var parentOwner := OwnerOf(links[i].parent);
        if parentOwner.None? || parentOwner.value == owner {
          continue;
        }
        Sever(i, parentOwner.value, s, done);
        done := done + {k};
        M.CutKeys(s, done);
      }
      assert done == target;
    }

    method UnpinAll(owner: nat)
      requires Valid()
      modifies this`frames, this`abs
      ensures Valid() && abs == M.UnpinAll(old(abs), owner)
    {
      hide M.Held, M.Inv, M.UnpinUpTo, FramesCount;
      ghost var s := abs;
      M.UpToNothing(s, owner);
      FramesSize(frames, abs);
      for m := 0 to |frames|
        invariant Valid() && |frames| == |old(frames)|
        invariant abs == M.UnpinUpTo(s, owner, m)
      {
        OwnerAgrees(m);
        M.UnpinUpToNext(s, owner, m);
        FramesSize(frames, abs);
        if frames[m].Allocated? {
          PinAgrees(m);
        }
        if OwnerOf(m) == Some(owner) && frames[m].pinned {
          var refused := Unpin(owner, m);
          assert refused.None?;
          FramesSize(frames, abs);
        }
      }
    }

    lemma PinAgrees(m: nat)
      requires Valid() && m < |frames| && frames[m].Allocated?
      ensures abs.Allocated(m) && frames[m].pinned == abs.pages[m].pinned
    {
    }

    /** Every frame of the owner that nothing holds goes back to the pool. */
    method FreeAll(owner: nat)
      requires Valid()
      modifies this`frames, this`abs
      ensures Valid() && abs == M.FreeAll(old(abs), owner)
    {
      hide M.Held, M.Inv, M.Refs, M.FreeUpTo, FramesCount;
      ghost var s := abs;
      M.UpToNothing(s, owner);
      FramesSize(frames, abs);
      for m := 0 to |frames|
        invariant Valid() && |frames| == |old(frames)|
        invariant abs == M.FreeUpTo(s, owner, m)
      {
        OwnerAgrees(m);
        M.FreeUpToNext(s, owner, m);
        if OwnerOf(m) == Some(owner) {
          M.FreeUpToRefs(s, owner, m);
          var _ := Free(owner, m);
        }
        FramesSize(frames, abs);
      }
    }
  }

  lemma FramesSize(frames: seq<Frame>, s: M.State)
    requires FramesCount(frames, s)
    ensures |frames| == |s.pages|
  {
  }

  lemma EdgeAt(s: M.State, k: M.Key)
    requires M.Inv(s) && k in s.links
    ensures M.EdgeInv(s, k)
  {
  }
}
