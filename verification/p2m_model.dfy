/** Page ownership, page types and page-table entries, without a single reference count.

    The hypervisor keeps four scalar counts per frame. Here a frame's references are what they
    stand for: the page-table entries into it, the entries rooted at it, its pin, and the
    references held from outside (grant maps). A count is the number of such holders, so a
    transition is refused because of who holds the frame, not because of a number. */
module P2mModel {
  import opened Basics

  const TABLE_SLOTS: nat := 8

  /** What a holder needs the frame to be: merely present, executable, writable, or a table. */
  datatype Kind = Bare | Exec | Writable | Table

  datatype Counts = Counts(bare: nat, exec: nat, writable: nat, table: nat) {
    function Of(kind: Kind): nat {
      match kind
      case Bare => bare
      case Exec => exec
      case Writable => writable
      case Table => table
    }

    function With(kind: Kind, n: nat): Counts {
      match kind
      case Bare => this.(bare := n)
      case Exec => this.(exec := n)
      case Writable => this.(writable := n)
      case Table => this.(table := n)
    }
  }

  type Level = n: nat | 1 <= n <= 4 witness 1

  const NONE_LOOSE := Counts(0, 0, 0, 0)

  /** A frame. `level` is 1 to 4 while it is a page table and 0 otherwise; `loose` counts the
      references no entry or pin accounts for. */
  datatype Page = Free | Page(owner: nat, level: nat, pinned: bool, loose: Counts)

  datatype Key = Key(parent: nat, slot: nat)

  datatype Edge = Edge(child: nat, writable: bool, leaf: bool, execute: bool) {
    /** The one reference an entry holds on its child. */
    function Kind(): Kind {
      if !leaf then Table else if writable then Writable else if execute then Exec else Bare
    }

    predicate Holds(m: nat, kind: Kind) {
      child == m && Kind() == kind
    }
  }

  datatype Error =
    | BadFrame | BadDomain | WrongState | TypePinned | InUse | NotYours | Overflow | BadSlot | WxConflict

  datatype State = State(pages: seq<Page>, links: map<Key, Edge>, numDomains: nat) {
    predicate Allocated(m: nat) {
      m < |pages| && pages[m].Page?
    }

    function OwnerOf(m: nat): Option<nat> {
      if Allocated(m) then Some(pages[m].owner) else None
    }

    function With(m: nat, page: Page): State
      requires m < |pages|
    {
      this.(pages := pages[m := page])
    }
  }

  function New(numDomains: nat, frames: nat): State {
    State(seq(frames, _ => Free), map[], numDomains)
  }

  // ----- holders -----

  /** The entries that hold a reference of this kind on `m`. */
  function Into(links: map<Key, Edge>, m: nat, kind: Kind): set<Key> {
    set k | k in links && links[k].Holds(m, kind)
  }

  /** The entries of table `m`; each keeps its own table typed. */
  function From(links: map<Key, Edge>, m: nat): set<Key> {
    set k | k in links && k.parent == m
  }

  /** How many holders need frame `m` to be of this kind. */
  function Held(s: State, m: nat, kind: Kind): nat
    requires s.Allocated(m)
  {
    |Into(s.links, m, kind)| + s.pages[m].loose.Of(kind)
    + if kind.Table? then |From(s.links, m)| + (if s.pages[m].pinned then 1 else 0) else 0
  }

  function Refs(s: State, m: nat): nat
    requires s.Allocated(m)
  {
    Held(s, m, Bare) + Held(s, m, Exec) + Held(s, m, Writable) + Held(s, m, Table)
  }

  lemma IntoAddOne(links: map<Key, Edge>, k: Key, e: Edge, m: nat, kind: Kind)
    requires k !in links
    ensures |Into(links[k := e], m, kind)| == |Into(links, m, kind)| + if e.Holds(m, kind) then 1 else 0
  {
    var before, after := Into(links, m, kind), Into(links[k := e], m, kind);
    hide Edge.Holds;
    if e.Holds(m, kind) {
      assert after == before + {k};
    } else {
      assert after == before;
    }
  }

  lemma FromAddOne(links: map<Key, Edge>, k: Key, e: Edge, m: nat)
    requires k !in links
    ensures |From(links[k := e], m)| == |From(links, m)| + if k.parent == m then 1 else 0
  {
    var before, after := From(links, m), From(links[k := e], m);
    if k.parent == m {
      assert after == before + {k};
    } else {
      assert after == before;
    }
  }

  /** An added entry is one more holder of its child and one more of its table. */
  lemma IntoAdd(links: map<Key, Edge>, k: Key, e: Edge)
    requires k !in links
    ensures forall m: nat, kind: Kind ::
              |Into(links[k := e], m, kind)| == |Into(links, m, kind)| + if e.Holds(m, kind) then 1 else 0
    ensures forall m: nat :: |From(links[k := e], m)| == |From(links, m)| + if k.parent == m then 1 else 0
  {
    forall m: nat, kind: Kind
      ensures |Into(links[k := e], m, kind)| == |Into(links, m, kind)| + if e.Holds(m, kind) then 1 else 0
    {
      IntoAddOne(links, k, e, m, kind);
    }
    forall m: nat
      ensures |From(links[k := e], m)| == |From(links, m)| + if k.parent == m then 1 else 0
    {
      FromAddOne(links, k, e, m);
    }
  }

  lemma IntoRemove(links: map<Key, Edge>, k: Key)
    requires k in links
    ensures forall m: nat, kind: Kind ::
              |Into(links, m, kind)| == |Into(links - {k}, m, kind)| + if links[k].Holds(m, kind) then 1 else 0
    ensures forall m: nat :: |From(links, m)| == |From(links - {k}, m)| + if k.parent == m then 1 else 0
  {
    assert (links - {k})[k := links[k]] == links;
    IntoAdd(links - {k}, k, links[k]);
  }

  // ----- the invariant -----

  /** Write-xor-table, write-xor-execute, and a level exactly while some holder needs a table. */
  ghost predicate PageInv(s: State, m: nat)
    requires s.Allocated(m)
  {
    && s.pages[m].owner < s.numDomains
    && s.pages[m].level <= 4
    && (s.pages[m].level > 0 <==> Held(s, m, Table) > 0)
    && (Held(s, m, Writable) > 0 ==> Held(s, m, Table) == 0 && Held(s, m, Exec) == 0)
    && Refs(s, m) <= U32_MAX
  }

  /** An entry joins two allocated frames; an interior entry descends exactly one level. */
  ghost predicate EdgeInv(s: State, k: Key)
    requires k in s.links
  {
    var e := s.links[k];
    && s.Allocated(k.parent) && s.Allocated(e.child) && k.slot < TABLE_SLOTS
    && !(e.writable && e.execute && e.leaf)
    && (!e.leaf ==> !e.execute && s.pages[k.parent].level == s.pages[e.child].level + 1)
  }

  ghost predicate Inv(s: State) {
    && (forall m: nat {:trigger s.Allocated(m)} | s.Allocated(m) :: PageInv(s, m))
    && (forall k | k in s.links :: EdgeInv(s, k))
  }

  lemma NewInv(numDomains: nat, frames: nat)
    ensures Inv(New(numDomains, frames))
  {
  }

  /** The level of the tables an interior entry of a table may point at. */
  function Below(level: nat): nat {
    SatSub(level, 1)
  }

  // ----- references -----

  /** Why a reference cannot be taken: an incompatible holder, or a full counter. */
  function AcquireError(s: State, m: nat, kind: Kind, level: nat): Option<Error> {
    if m >= |s.pages| then Some(BadFrame)
    else if s.pages[m].Free? then Some(WrongState)
    else if kind.Writable? && Held(s, m, Exec) > 0 then Some(WxConflict)
    else if kind.Writable? && Held(s, m, Table) > 0 then Some(TypePinned)
    else if kind.Exec? && Held(s, m, Writable) > 0 then Some(WxConflict)
    else if kind.Table? && (Held(s, m, Writable) > 0 || (Held(s, m, Table) > 0 && s.pages[m].level != level))
    then Some(TypePinned)
    else if Refs(s, m) == U32_MAX then Some(Overflow)
    else None
  }

  /** Take a reference: the first table reference stamps the level. */
  function Acquire(s: State, m: nat, kind: Kind, level: nat): Result<State, Error> {
    match AcquireError(s, m, kind, level)
    case Some(e) => Failure(e)
    case None =>
      var page := s.pages[m];
      Success(s.With(m, page.(loose := page.loose.With(kind, page.loose.Of(kind) + 1),
                              level := if kind.Table? then level else page.level)))
  }

  /** Give back a reference nobody else accounts for; the last table reference takes the level
      with it. */
  function Release(s: State, m: nat, kind: Kind, level: nat): Result<State, Error> {
    if m >= |s.pages| then Failure(BadFrame)
    else if s.pages[m].Free? then Failure(WrongState)
    else if s.pages[m].loose.Of(kind) == 0 then
      Failure(if kind.Bare? && Refs(s, m) > 0 then InUse else WrongState)
    else if kind.Table? && s.pages[m].level != level then Failure(WrongState)
    else
      var page := s.pages[m];
      Success(s.With(m, page.(loose := page.loose.With(kind, page.loose.Of(kind) - 1),
                              level := if kind.Table? && Held(s, m, Table) == 1 then 0 else page.level)))
  }

  /** Record an entry: it takes over a loose reference on its child and one on its table. */
  function Bind(s: State, k: Key, e: Edge): State
    requires CanBind(s, k, e)
  {
    var s1 := s.With(k.parent, Loosened(s.pages[k.parent], Table, -1));
    s1.With(e.child, Loosened(s1.pages[e.child], e.Kind(), -1)).(links := s.links[k := e])
  }

  predicate CanBind(s: State, k: Key, e: Edge) {
    && s.Allocated(k.parent) && s.Allocated(e.child) && k !in s.links
    && s.pages[k.parent].loose.table >= 1
    && s.pages[e.child].loose.Of(e.Kind()) >= if e.child == k.parent && e.Kind().Table? then 2 else 1
  }

  function Loosened(page: Page, kind: Kind, delta: int): Page
    requires page.Page? && page.loose.Of(kind) + delta >= 0
  {
    page.(loose := page.loose.With(kind, page.loose.Of(kind) + delta))
  }

  /** Erase an entry, leaving its two references loose. */
  function Unbind(s: State, k: Key): State
    requires k in s.links && s.Allocated(k.parent) && s.Allocated(s.links[k].child)
  {
    var e := s.links[k];
    var s1 := s.With(k.parent, Loosened(s.pages[k.parent], Table, 1));
    s1.With(e.child, Loosened(s1.pages[e.child], e.Kind(), 1)).(links := s.links - {k})
  }

  // ----- transitions -----

  function Allocate(s: State, owner: nat, m: nat): Result<State, Error> {
    if owner >= s.numDomains then Failure(BadDomain)
    else if m >= |s.pages| then Failure(BadFrame)
    else if s.pages[m].Page? then Failure(WrongState)
    else Success(s.With(m, Page(owner, 0, false, NONE_LOOSE)))
  }

  /** The caller's own allocated frame, or why it is not. */
  function Owned(s: State, caller: nat, m: nat): Result<Page, Error> {
    if m >= |s.pages| then Failure(BadFrame)
    else if s.pages[m].Free? then Failure(WrongState)
    else if s.pages[m].owner != caller then Failure(NotYours)
    else Success(s.pages[m])
  }

  function FreePage(s: State, caller: nat, m: nat): Result<State, Error> {
    var _ :- Owned(s, caller, m);
    if Refs(s, m) > 0 then Failure(InUse) else Success(s.With(m, Free))
  }

  function Pin(s: State, caller: nat, m: nat, level: Level): Result<State, Error> {
    var page :- Owned(s, caller, m);
    if page.pinned then Failure(WrongState) else
    var s1 :- Acquire(s, m, Table, level);
    Success(s1.With(m, Loosened(s1.pages[m], Table, -1).(pinned := true)))
  }

  function Unpin(s: State, caller: nat, m: nat): Result<State, Error> {
    var page :- Owned(s, caller, m);
    if !page.pinned then Failure(WrongState) else
    Success(s.With(m, page.(pinned := false, level := if Held(s, m, Table) == 1 then 0 else page.level)))
  }

  function Link(s: State, caller: nat, k: Key, e: Edge): Result<State, Error> {
    if k.slot >= TABLE_SLOTS then Failure(BadSlot) else
    var e := e.(execute := e.execute && e.leaf);
    if e.writable && e.execute then Failure(WxConflict) else
    var table :- Owned(s, caller, k.parent);
    if table.level == 0 || !s.Allocated(e.child) || k in s.links || (!e.leaf && table.level == 1)
    then Failure(WrongState) else Attach(s, k, e, table.level)
  }

  /** Take the child's reference, then the table's own, then record the entry. */
  function Attach(s: State, k: Key, e: Edge, level: nat): Result<State, Error>
    requires s.Allocated(k.parent) && s.Allocated(e.child) && k !in s.links
  {
    var s1 :- Acquire(s, e.child, e.Kind(), Below(level));
    var s2 :- Acquire(s1, k.parent, Table, level);
    Success(Bind(s2, k, e))
  }

  function Unlink(s: State, caller: nat, k: Key): Result<State, Error> {
    var _ :- Owned(s, caller, k.parent);
    if k !in s.links then Failure(WrongState) else Success(Cut(s, {k}))
  }

  /** Remove entries, and forget the level of every frame nobody needs as a table any more. */
  function Cut(s: State, keys: set<Key>): State {
    Settled(s.(links := s.links - keys))
  }

  function Settled(s: State): State {
    s.(pages := seq(|s.pages|, m requires 0 <= m < |s.pages| =>
         if s.Allocated(m) && Held(s, m, Table) == 0 then s.pages[m].(level := 0) else s.pages[m]))
  }

  // ----- teardown, in one shot -----

  /** Entries of tables `owner` owns. */
  function RootedAt(s: State, owner: nat): set<Key> {
    set k | k in s.links && s.OwnerOf(k.parent) == Some(owner)
  }

  /** Entries of other domains' tables onto frames `owner` owns. */
  function ForeignInto(s: State, owner: nat): set<Key> {
    set k | k in s.links && s.OwnerOf(s.links[k].child) == Some(owner) && s.OwnerOf(k.parent) != Some(owner)
  }

  /** The owner's pins among the first `n` frames are dropped. */
  function UnpinUpTo(s: State, owner: nat, n: nat): State {
    s.(pages := seq(|s.pages|, m requires 0 <= m < |s.pages| =>
      if m < n && s.OwnerOf(m) == Some(owner) && s.pages[m].pinned
      then s.pages[m].(pinned := false, level := if Held(s, m, Table) == 1 then 0 else s.pages[m].level)
      else s.pages[m]))
  }

  /** The owner's frames among the first `n` that nothing holds are free. */
  function FreeUpTo(s: State, owner: nat, n: nat): State {
    s.(pages := seq(|s.pages|, m requires 0 <= m < |s.pages| =>
      if m < n && s.OwnerOf(m) == Some(owner) && Refs(s, m) == 0 then Free else s.pages[m]))
  }

  function UnpinAll(s: State, owner: nat): State {
    UnpinUpTo(s, owner, |s.pages|)
  }

  function FreeAll(s: State, owner: nat): State {
    FreeUpTo(s, owner, |s.pages|)
  }

  function Touching(s: State, owner: nat): set<Key> {
    set k | k in s.links && (s.OwnerOf(k.parent) == Some(owner) || s.OwnerOf(s.links[k].child) == Some(owner))
  }

  /** The owner's frames are free, every entry touching one of them is gone, and every other
      frame keeps its owner and pin with the references `loose` says are left. */
  function Teardown(s: State, owner: nat, loose: seq<Counts>): State
    requires |loose| == |s.pages|
  {
    Cut(s.(pages := seq(|s.pages|, m requires 0 <= m < |s.pages| =>
          if s.pages[m].Free? || s.pages[m].owner == owner then Free else s.pages[m].(loose := loose[m]))),
        Touching(s, owner))
  }

  // ----- what each step does to the holders -----

  lemma PageAt(s: State, m: nat)
    requires Inv(s) && s.Allocated(m)
    ensures PageInv(s, m)
  {
  }

  /** An entry is itself a holder at both its ends. */
  lemma EdgeHolds(s: State, k: Key)
    requires k in s.links && s.Allocated(k.parent) && s.Allocated(s.links[k].child)
    ensures Held(s, k.parent, Table) >= 1
    ensures Held(s, s.links[k].child, s.links[k].Kind()) >= 1
  {
    assert k in From(s.links, k.parent);
    assert k in Into(s.links, s.links[k].child, s.links[k].Kind());
  }

  /** Same frames, owners and pins. */
  ghost predicate SamePages(s: State, s': State)
    ensures SamePages(s, s') ==> forall n: nat {:trigger s'.Allocated(n)} :: s'.Allocated(n) <==> s.Allocated(n)
  {
    && |s'.pages| == |s.pages| && s'.numDomains == s.numDomains
    && forall n | 0 <= n < |s.pages| ::
         if s.pages[n].Page? then s'.pages[n].Page?
             && s'.pages[n] == s.pages[n].(loose := s'.pages[n].loose, level := s'.pages[n].level)
         else s'.pages[n].Free?
  }

  /** `s'` has the frames of `s`; `up` more holders of one kind on one frame. */
  ghost predicate HeldMoved(s: State, s': State, m: nat, kind: Kind, up: int) {
    && SamePages(s, s')
    && (forall n: nat, k: Kind {:trigger Held(s', n, k)} | s.Allocated(n) ::
          Held(s', n, k) == Held(s, n, k) + if n == m && k == kind then up else 0)
  }

  /** Taking a reference adds one holder of that kind to that frame and changes nothing else. */
  lemma AcquireEffect(s: State, m: nat, kind: Kind, level: nat)
    requires Acquire(s, m, kind, level).Success?
    ensures HeldMoved(s, Acquire(s, m, kind, level).value, m, kind, 1)
  {
  }

  lemma AcquireKeepsInv(s: State, m: nat, kind: Kind, level: nat)
    requires Inv(s) && (kind.Table? ==> 1 <= level <= 4) && Acquire(s, m, kind, level).Success?
    ensures Inv(Acquire(s, m, kind, level).value)
  {
    hide Held;
    var s' := Acquire(s, m, kind, level).value;
    AcquireEffect(s, m, kind, level);
    forall n: nat | s'.Allocated(n)
      ensures PageInv(s', n)
    {
      PageAt(s, n);
    }
    forall k | k in s'.links
      ensures EdgeInv(s', k)
    {
      assert EdgeInv(s, k);
      EdgeHolds(s, k);
    }
  }

  lemma ReleaseEffect(s: State, m: nat, kind: Kind, level: nat)
    requires Release(s, m, kind, level).Success?
    ensures HeldMoved(s, Release(s, m, kind, level).value, m, kind, -1)
  {
  }

  lemma ReleaseKeepsInv(s: State, m: nat, kind: Kind, level: nat)
    requires Inv(s) && Release(s, m, kind, level).Success?
    ensures Inv(Release(s, m, kind, level).value)
  {
    hide Held;
    var s' := Release(s, m, kind, level).value;
    ReleaseEffect(s, m, kind, level);
    forall n: nat | s'.Allocated(n)
      ensures PageInv(s', n)
    {
      PageAt(s, n);
    }
    forall k | k in s'.links
      ensures EdgeInv(s', k)
    {
      assert EdgeInv(s, k);
      assert s'.Allocated(k.parent) && s'.Allocated(s.links[k].child);
      EdgeHolds(s', k);
    }
  }

  /** A reference taken and given back leaves no trace, the level included. */
  lemma AcquireThenRelease(s: State, m: nat, kind: Kind, level: nat)
    requires Inv(s) && Acquire(s, m, kind, level).Success?
    ensures Release(Acquire(s, m, kind, level).value, m, kind, level) == Success(s)
  {
    hide Held;
    var s1 := Acquire(s, m, kind, level).value;
    AcquireEffect(s, m, kind, level);
    PageAt(s, m);
    assert Held(s1, m, Table) == Held(s, m, Table) + if kind.Table? then 1 else 0;
    assert s1.pages[m := s.pages[m]] == s.pages;
  }

  /** Giving back a reference that an entry or a pin accounts for. */
  predicate Overdraws(s: State, m: nat, kind: Kind, level: nat) {
    && s.Allocated(m) && s.pages[m].loose.Of(kind) == 0 && Held(s, m, kind) > 0
    && (kind.Table? ==> s.pages[m].level == level)
  }

  /** Whoever gives back a reference of this kind holds one no entry or pin accounts for. */
  predicate Returnable(s: State, m: nat, kind: Kind) {
    s.Allocated(m) ==> s.pages[m].loose.Of(kind) > 0 || Held(s, m, kind) == 0
  }

  /** The frames of `s` with other loose references, and other entries, but the same holders. */
  ghost predicate Rebooked(s: State, s': State) {
    && SamePages(s, s')
    && (forall n | 0 <= n < |s.pages| && s.pages[n].Page? :: s'.pages[n].level == s.pages[n].level)
    && (forall n: nat, kind: Kind {:trigger Held(s', n, kind)} | s.Allocated(n) ::
        Held(s', n, kind) == Held(s, n, kind))
  }

  lemma BindKeepsHeld(s: State, k: Key, e: Edge, n: nat, kind: Kind)
    requires CanBind(s, k, e) && s.Allocated(n)
    ensures Bind(s, k, e).Allocated(n) && Held(Bind(s, k, e), n, kind) == Held(s, n, kind)
  {
    IntoAdd(s.links, k, e);
    hide Into, From;
  }

  /** Recording an entry turns two loose references into held ones: no count moves. */
  lemma BindEffect(s: State, k: Key, e: Edge)
    requires CanBind(s, k, e)
    ensures Rebooked(s, Bind(s, k, e)) && Bind(s, k, e).links == s.links[k := e]
  {
    hide Held, Into, From;
    forall n: nat, kind: Kind | s.Allocated(n)
      ensures Bind(s, k, e).Allocated(n) && Held(Bind(s, k, e), n, kind) == Held(s, n, kind)
    {
      BindKeepsHeld(s, k, e, n, kind);
    }
  }

  lemma UnbindKeepsHeld(s: State, k: Key, n: nat, kind: Kind)
    requires k in s.links && s.Allocated(k.parent) && s.Allocated(s.links[k].child) && s.Allocated(n)
    ensures Unbind(s, k).Allocated(n) && Held(Unbind(s, k), n, kind) == Held(s, n, kind)
  {
    IntoRemove(s.links, k);
    hide Into, From;
  }

  lemma UnbindEffect(s: State, k: Key)
    requires k in s.links && s.Allocated(k.parent) && s.Allocated(s.links[k].child)
    ensures Rebooked(s, Unbind(s, k)) && Unbind(s, k).links == s.links - {k}
  {
    hide Held, Into, From;
    forall n: nat, kind: Kind | s.Allocated(n)
      ensures Unbind(s, k).Allocated(n) && Held(Unbind(s, k), n, kind) == Held(s, n, kind)
    {
      UnbindKeepsHeld(s, k, n, kind);
    }
  }

  /** An entry may be recorded between these two frames. */
  predicate Fits(s: State, k: Key, e: Edge)
    requires s.Allocated(k.parent) && s.Allocated(e.child)
  {
    && k.slot < TABLE_SLOTS && !(e.writable && e.execute && e.leaf)
    && (!e.leaf ==> !e.execute && s.pages[k.parent].level == s.pages[e.child].level + 1)
  }

  lemma RebookedKeepsInv(s: State, s': State, k: Key)
    requires Inv(s) && Rebooked(s, s')
    requires k in s.links ==> s'.links == s.links - {k}
    requires k !in s.links ==>
               && k in s'.links && s'.links == s.links[k := s'.links[k]]
               && s.Allocated(k.parent) && s.Allocated(s'.links[k].child) && Fits(s, k, s'.links[k])
    ensures Inv(s')
  {
    hide Held;
    forall n: nat | s'.Allocated(n)
      ensures PageInv(s', n)
    {
      PageAt(s, n);
    }
    forall j | j in s'.links
      ensures EdgeInv(s', j)
    {
      assert j != k ==> EdgeInv(s, j);
      assert s'.Allocated(j.parent) && s'.Allocated(s'.links[j].child);
    }
  }

  lemma BindKeepsInv(s: State, k: Key, e: Edge)
    requires Inv(s) && CanBind(s, k, e) && Fits(s, k, e)
    ensures Inv(Bind(s, k, e))
  {
    BindEffect(s, k, e);
    RebookedKeepsInv(s, Bind(s, k, e), k);
  }

  lemma UnbindKeepsInv(s: State, k: Key)
    requires Inv(s) && k in s.links && EdgeInv(s, k)
    ensures Inv(Unbind(s, k))
  {
    UnbindEffect(s, k);
    RebookedKeepsInv(s, Unbind(s, k), k);
  }

  // ----- linking and unlinking -----

  function Cleared(e: Edge): Edge {
    e.(execute := e.execute && e.leaf)
  }

  lemma AcquiredIsLoose(s: State, m: nat, kind: Kind, level: nat)
    requires Acquire(s, m, kind, level).Success?
    ensures Acquire(s, m, kind, level).value.Allocated(m)
    ensures Acquire(s, m, kind, level).value.pages[m].loose.Of(kind) > 0
    ensures Acquire(s, m, kind, level).value.links == s.links
  {
  }

  /** Both references taken, the entry can be recorded. */
  lemma AttachSteps(s: State, k: Key, e: Edge, level: Level)
    requires Inv(s) && s.Allocated(k.parent) && s.Allocated(e.child) && k !in s.links && Attach(s, k, e, level).Success?
    requires (!e.leaf ==> !e.execute && level >= 2) && !(e.writable && e.execute) && k.slot < TABLE_SLOTS
    requires s.pages[k.parent].level == level
    ensures var s1 := Acquire(s, e.child, e.Kind(), Below(level)).value;
            var s2 := Acquire(s1, k.parent, Table, level).value;
            && Inv(s1) && Inv(s2) && CanBind(s2, k, e) && Fits(s2, k, e) && s2.links == s.links
            && Attach(s, k, e, level) == Success(Bind(s2, k, e))
  {
    hide Held;
    AcquireKeepsInv(s, e.child, e.Kind(), Below(level));
    AcquireKeepsInv(Acquire(s, e.child, e.Kind(), Below(level)).value, k.parent, Table, level);
  }

  /** The three steps of an accepted link, each of which keeps the discipline. */
  lemma LinkSteps(s: State, caller: nat, k: Key, e: Edge) returns (s1: State, s2: State)
    requires Inv(s) && Link(s, caller, k, e).Success?
    ensures s.OwnerOf(k.parent) == Some(caller) && s.Allocated(e.child) && k !in s.links && k.slot < TABLE_SLOTS
    ensures 1 <= s.pages[k.parent].level <= 4
    ensures Acquire(s, e.child, Cleared(e).Kind(), Below(s.pages[k.parent].level)) == Success(s1)
    ensures Acquire(s1, k.parent, Table, s.pages[k.parent].level) == Success(s2)
    ensures CanBind(s2, k, Cleared(e)) && Fits(s2, k, Cleared(e))
            && Link(s, caller, k, e) == Success(Bind(s2, k, Cleared(e)))
    ensures Inv(s1) && Inv(s2)
  {
    hide Held;
    var level := s.pages[k.parent].level;
    PageAt(s, k.parent);
    PageAt(s, e.child);
    s1 := Acquire(s, e.child, Cleared(e).Kind(), Below(level)).value;
    AcquireKeepsInv(s, e.child, Cleared(e).Kind(), Below(level));
    s2 := Acquire(s1, k.parent, Table, level).value;
    AcquireKeepsInv(s1, k.parent, Table, level);
  }

  lemma LinkKeepsInv(s: State, caller: nat, k: Key, e: Edge)
    requires Inv(s) && Link(s, caller, k, e).Success?
    ensures Inv(Link(s, caller, k, e).value)
  {
    hide Held, Link;
    var s1, s2 := LinkSteps(s, caller, k, e);
    BindKeepsInv(s2, k, Cleared(e));
  }

  /** An accepted link adds exactly the entry asked for (execute forced clear on an interior
      entry); an untyped child of an interior entry becomes a table one level down; no loose
      reference is left behind. */
  lemma LinkExact(s: State, caller: nat, k: Key, e: Edge)
    requires Inv(s) && Link(s, caller, k, e).Success?
    ensures s.OwnerOf(k.parent) == Some(caller) && s.Allocated(e.child) && k !in s.links
    ensures Link(s, caller, k, e).value
            == s.(links := s.links[k := Cleared(e)],
                  pages := if e.leaf then s.pages
                           else s.pages[e.child := s.pages[e.child].(level := s.pages[k.parent].level - 1)])
  {
    hide Held, Link;
    var s1, s2 := LinkSteps(s, caller, k, e);
    var s' := Bind(s2, k, Cleared(e));
    assert e.child == k.parent ==> e.leaf;
    forall m: nat | m < |s.pages|
      ensures s'.pages[m] == if m == e.child && !e.leaf then s.pages[m].(level := s.pages[k.parent].level - 1)
              else s.pages[m]
    {
    }
    assert s'.pages == if e.leaf then s.pages
                       else s.pages[e.child := s.pages[e.child].(level := s.pages[k.parent].level - 1)];
  }

  /** What a cut leaves of a frame. */
  lemma CutPage(s: State, keys: set<Key>, m: nat)
    requires s.Allocated(m)
    ensures var s' := Cut(s, keys);
            && s'.Allocated(m)
            && s'.pages[m] == s.pages[m].(level := if Held(s', m, Table) == 0 then 0 else s.pages[m].level)
            && forall kind: Kind :: Held(s', m, kind) <= Held(s, m, kind)
  {
    forall kind: Kind
      ensures |Into(s.links - keys, m, kind)| <= |Into(s.links, m, kind)|
    {
      SubsetSize(Into(s.links - keys, m, kind), Into(s.links, m, kind));
    }
    SubsetSize(From(s.links - keys, m), From(s.links, m));
  }

  /** Removing any set of entries keeps the discipline: what remains is still backed. */
  lemma CutKeepsInv(s: State, keys: set<Key>)
    requires Inv(s)
    ensures Inv(Cut(s, keys))
  {
    var s' := Cut(s, keys);
    hide Held;
    forall m: nat | s'.Allocated(m)
      ensures PageInv(s', m)
    {
      PageAt(s, m);
      CutPage(s, keys, m);
    }
    forall k | k in s'.links
      ensures EdgeInv(s', k)
    {
      assert EdgeInv(s, k);
      CutPage(s, keys, k.parent);
      CutPage(s, keys, s.links[k].child);
      EdgeHolds(s', k);
    }
  }

  lemma CutOwners(s: State, keys: set<Key>, m: nat)
    ensures Cut(s, keys).OwnerOf(m) == s.OwnerOf(m)
  {
  }

  lemma CutKeys(s: State, keys: set<Key>)
    ensures Cut(s, keys).links == s.links - keys
  {
  }

  lemma ForeignIsLinked(s: State, owner: nat)
    ensures ForeignInto(s, owner) <= s.links.Keys
  {
  }

  lemma CutNothing(s: State)
    requires Inv(s)
    ensures Cut(s, {}) == s
  {
    hide Held;
    assert s.links - {} == s.links;
    forall m: nat | m < |s.pages|
      ensures Cut(s, {}).pages[m] == s.pages[m]
    {
      if s.Allocated(m) {
        PageAt(s, m);
        CutPage(s, {}, m);
        SameHolders(s, Cut(s, {}), m);
      }
    }
    assert Cut(s, {}).pages == s.pages;
  }

  lemma CutTwice(s: State, a: set<Key>, b: set<Key>)
    ensures Cut(Cut(s, a), b) == Cut(s, a + b)
  {
    assert s.links - a - b == s.links - (a + b);
    forall m: nat | m < |s.pages|
      ensures Cut(Cut(s, a), b).pages[m] == Cut(s, a + b).pages[m]
    {
      if s.Allocated(m) {
        SubsetSize(Into(s.links - a - b, m, Table), Into(s.links - a, m, Table));
        SubsetSize(From(s.links - a - b, m), From(s.links - a, m));
      }
    }
    assert Cut(Cut(s, a), b).pages == Cut(s, a + b).pages;
  }

  /** A cut of one entry changes the holders at that entry's two ends and nowhere else. */
  lemma CutOneHeld(s: State, k: Key, m: nat)
    requires k in s.links && s.Allocated(m)
    ensures var s' := Cut(s, {k});
            && s'.Allocated(m)
            && forall kind: Kind ::
                 Held(s, m, kind) == Held(s', m, kind)
                                     + (if m == s.links[k].child && kind == s.links[k].Kind() then 1 else 0)
                                     + (if m == k.parent && kind.Table? then 1 else 0)
  {
    IntoRemove(s.links, k);
  }

  /** The first half of unlinking: the table's own reference goes back. */
  lemma UnlinkReleasesTable(s: State, k: Key)
    requires k in s.links && EdgeInv(s, k) && Inv(s)
    ensures Release(Unbind(s, k), k.parent, Table, s.pages[k.parent].level).Success?
    ensures Inv(Unbind(s, k)) && Inv(Release(Unbind(s, k), k.parent, Table, s.pages[k.parent].level).value)
  {
    hide Held;
    UnbindKeepsInv(s, k);
    ReleaseKeepsInv(Unbind(s, k), k.parent, Table, s.pages[k.parent].level);
  }

  /** In between, the entry and the table's reference are gone and the child's is loose. */
  lemma ReleasedTable(s: State, k: Key, s2: State)
    requires Inv(s) && k in s.links && EdgeInv(s, k)
    requires Release(Unbind(s, k), k.parent, Table, s.pages[k.parent].level) == Success(s2)
    ensures SamePages(s, s2) && s2.links == s.links - {k}
    ensures forall m | 0 <= m < |s.pages| && s.pages[m].Page? ::
              && s2.pages[m].level == (if m == k.parent && Held(s, m, Table) == 1 then 0 else s.pages[m].level)
              && s2.pages[m].loose == (if m == s.links[k].child then Loosened(s.pages[m], s.links[k].Kind(), 1).loose
                                       else s.pages[m].loose)
    ensures forall n: nat, kind: Kind {:trigger Held(s2, n, kind)} | s.Allocated(n) ::
              Held(s2, n, kind) == Held(s, n, kind) - if n == k.parent && kind.Table? then 1 else 0
  {
    hide Held;
    EdgeDescends(s, k);
    UnbindEffect(s, k);
    ReleaseEffect(Unbind(s, k), k.parent, Table, s.pages[k.parent].level);
  }

  lemma ChildReleaseAccepted(s: State, k: Key, s2: State)
    requires Inv(s) && k in s.links && EdgeInv(s, k)
    requires Release(Unbind(s, k), k.parent, Table, s.pages[k.parent].level) == Success(s2)
    ensures s2.Allocated(s.links[k].child)
    ensures Release(s2, s.links[k].child, s.links[k].Kind(), Below(s.pages[k.parent].level)).Success?
  {
    hide Held, Unbind;
    EdgeDescends(s, k);
    ReleasedTable(s, k, s2);
    PageAt(s, s.links[k].child);
    CutOneHeld(s, k, s.links[k].child);
  }

  lemma UnlinkedPage(s: State, k: Key, s2: State, m: nat)
    requires Inv(s) && k in s.links && EdgeInv(s, k) && m < |s.pages| == |s2.pages|
    requires Release(Unbind(s, k), k.parent, Table, s.pages[k.parent].level) == Success(s2)
    requires Release(s2, s.links[k].child, s.links[k].Kind(), Below(s.pages[k.parent].level)).Success?
    ensures var s3 := Release(s2, s.links[k].child, s.links[k].Kind(), Below(s.pages[k.parent].level)).value;
            m < |s3.pages| && s3.pages[m] == Cut(s, {k}).pages[m]
  {
    hide Held, Unbind;
    EdgeDescends(s, k);
    ReleasedTable(s, k, s2);
    if s.Allocated(m) {
      PageAt(s, m);
      CutOneHeld(s, k, m);
      CutPage(s, {k}, m);
    }
  }

  /** The second half gives back the child's, and leaves exactly the cut. */
  lemma UnlinkReleasesChild(s: State, k: Key, s2: State)
    requires Inv(s) && k in s.links && EdgeInv(s, k)
    requires Release(Unbind(s, k), k.parent, Table, s.pages[k.parent].level) == Success(s2)
    ensures Release(s2, s.links[k].child, s.links[k].Kind(), Below(s.pages[k.parent].level)) == Success(Cut(s, {k}))
  {
    EdgeDescends(s, k);
    ReleasedTable(s, k, s2);
    ChildReleaseAccepted(s, k, s2);
    hide Held, Unbind, Inv, EdgeInv, Into, From;
    var s3 := Release(s2, s.links[k].child, s.links[k].Kind(), Below(s.pages[k.parent].level)).value;
    forall m: nat | m < |s.pages|
      ensures s3.pages[m] == Cut(s, {k}).pages[m]
    {
      UnlinkedPage(s, k, s2, m);
    }
    assert s3.pages == Cut(s, {k}).pages;
  }

  /** Unlinking undoes linking, completely: entry, references and levels. */
  lemma LinkThenUnlink(s: State, caller: nat, k: Key, e: Edge)
    requires Inv(s) && Link(s, caller, k, e).Success?
    ensures Unlink(Link(s, caller, k, e).value, caller, k) == Success(s)
  {
    hide Held, Link;
    LinkExact(s, caller, k, e);
    var _, _ := LinkSteps(s, caller, k, e);
    var s' := Link(s, caller, k, e).value;
    var cut := Cut(s', {k});
    assert s'.links - {k} == s.links;
    forall m: nat | m < |s.pages|
      ensures cut.pages[m] == s.pages[m]
    {
      if s.Allocated(m) {
        PageAt(s, m);
        CutPage(s', {k}, m);
        SameHolders(s, cut, m);
      }
    }
    assert cut.pages == s.pages;
  }

  lemma SameHolders(s: State, s': State, m: nat)
    requires s.Allocated(m) && s'.Allocated(m) && s'.links == s.links
    requires s'.pages[m].loose == s.pages[m].loose && s'.pages[m].pinned == s.pages[m].pinned
    ensures forall kind: Kind :: Held(s', m, kind) == Held(s, m, kind)
  {
  }

  // ----- pins and frames -----

  /** A pin is one table reference. */
  lemma PinEffect(s: State, caller: nat, m: nat, level: Level)
    requires Pin(s, caller, m, level).Success?
    ensures s.Allocated(m) && Acquire(s, m, Table, level).Success?
    ensures var s' := Pin(s, caller, m, level).value;
            && s' == s.With(m, s.pages[m].(pinned := true, level := level))
            && forall n: nat, kind: Kind | s.Allocated(n) ::
                 Held(s', n, kind) == Held(Acquire(s, m, Table, level).value, n, kind)
  {
  }

  lemma PinKeepsInv(s: State, caller: nat, m: nat, level: Level)
    requires Inv(s) && Pin(s, caller, m, level).Success?
    ensures Inv(Pin(s, caller, m, level).value)
  {
    hide Held;
    PinEffect(s, caller, m, level);
    var s1, s' := Acquire(s, m, Table, level).value, Pin(s, caller, m, level).value;
    AcquireKeepsInv(s, m, Table, level);
    forall n: nat | s'.Allocated(n)
      ensures PageInv(s', n)
    {
      PageAt(s1, n);
    }
    forall k | k in s'.links
      ensures EdgeInv(s', k)
    {
      assert EdgeInv(s1, k);
    }
  }

  /** A pin and the unpin that matches it cancel out. */
  lemma PinThenUnpin(s: State, caller: nat, m: nat, level: Level)
    requires Inv(s) && Pin(s, caller, m, level).Success?
    ensures Unpin(Pin(s, caller, m, level).value, caller, m) == Success(s)
  {
    hide Held;
    PinEffect(s, caller, m, level);
    AcquireEffect(s, m, Table, level);
    PageAt(s, m);
    var s' := Pin(s, caller, m, level).value;
    assert Held(s', m, Table) == Held(s, m, Table) + 1;
    assert s'.With(m, s.pages[m]).pages == s.pages;
  }

  lemma UnpinEffect(s: State, caller: nat, m: nat)
    requires Unpin(s, caller, m).Success?
    ensures var s' := Unpin(s, caller, m).value;
            forall n: nat, kind: Kind {:trigger Held(s', n, kind)} | s.Allocated(n) ::
              s'.Allocated(n) && Held(s', n, kind) == Held(s, n, kind) - if n == m && kind.Table? then 1 else 0
  {
    var s' := Unpin(s, caller, m).value;
    forall n: nat, kind: Kind | s.Allocated(n)
      ensures s'.Allocated(n) && Held(s', n, kind) == Held(s, n, kind) - if n == m && kind.Table? then 1 else 0
    {
      assert s'.links == s.links;
      if n == m {
        assert s'.pages[m].loose == s.pages[m].loose;
        assert s.pages[m].pinned && !s'.pages[m].pinned;
      } else {
        assert s'.pages[n] == s.pages[n];
      }
    }
  }

  /** A frame whose pin has become a loose reference. */
  function Unpinned(s: State, m: nat): State
    requires s.Allocated(m)
  {
    s.With(m, Loosened(s.pages[m].(pinned := false), Table, 1))
  }

  lemma UnpinnedHeld(s: State, m: nat, n: nat)
    requires s.Allocated(m) && s.pages[m].pinned && s.Allocated(n)
    ensures Unpinned(s, m).Allocated(n) && forall kind: Kind :: Held(Unpinned(s, m), n, kind) == Held(s, n, kind)
  {
  }

  lemma UnpinnedKeepsInv(s: State, m: nat)
    requires Inv(s) && s.Allocated(m) && s.pages[m].pinned
    ensures Inv(Unpinned(s, m))
  {
    hide Held;
    var s1 := Unpinned(s, m);
    forall n: nat | s1.Allocated(n)
      ensures PageInv(s1, n)
    {
      PageAt(s, n);
      UnpinnedHeld(s, m, n);
    }
    forall k | k in s1.links
      ensures EdgeInv(s1, k)
    {
      assert EdgeInv(s, k);
    }
  }

  lemma PinHolds(s: State, m: nat)
    requires s.Allocated(m) && s.pages[m].pinned
    ensures Held(s, m, Table) > 0
  {
  }

  /** Unpinning clears the bit and gives back the reference the pin was. */
  lemma UnpinSteps(s: State, caller: nat, m: nat, level: nat)
    requires Inv(s) && Unpin(s, caller, m).Success? && level == s.pages[m].level
    ensures s.Allocated(m) && s.pages[m].pinned && 1 <= level <= 4
    ensures Inv(Unpinned(s, m)) && Release(Unpinned(s, m), m, Table, level) == Success(Unpin(s, caller, m).value)
  {
    hide Held, Inv;
    PageAt(s, m);
    PinHolds(s, m);
    UnpinnedHeld(s, m, m);
    UnpinnedKeepsInv(s, m);
    assert Unpinned(s, m).pages[m := Unpin(s, caller, m).value.pages[m]] == Unpin(s, caller, m).value.pages;
  }

  /** Unpinning frame after frame is unpinning them all at once. */
  lemma UnpinUpToNext(s: State, owner: nat, n: nat)
    requires n < |s.pages|
    ensures var t := UnpinUpTo(s, owner, n);
            if t.OwnerOf(n) == Some(owner) && t.pages[n].pinned
            then Unpin(t, owner, n) == Success(UnpinUpTo(s, owner, n + 1)) else UnpinUpTo(s, owner, n + 1) == t
  {
    var t, t' := UnpinUpTo(s, owner, n), UnpinUpTo(s, owner, n + 1);
    assert t.pages[n] == s.pages[n];
    if t.OwnerOf(n) == Some(owner) && t.pages[n].pinned {
      assert Held(t, n, Table) == Held(s, n, Table);
      assert Unpin(t, owner, n).value.pages == t'.pages;
    } else {
      assert t'.pages == t.pages;
    }
  }

  lemma UpToNothing(s: State, owner: nat)
    ensures UnpinUpTo(s, owner, 0) == s && FreeUpTo(s, owner, 0) == s
  {
  }

  lemma FreeUpToRefs(s: State, owner: nat, n: nat)
    requires n < |s.pages| && s.Allocated(n)
    ensures FreeUpTo(s, owner, n).Allocated(n) && Refs(FreeUpTo(s, owner, n), n) == Refs(s, n)
  {
  }

  lemma FreeUpToNext(s: State, owner: nat, n: nat)
    requires n < |s.pages|
    ensures var t := FreeUpTo(s, owner, n);
            && |t.pages| == |s.pages| && t.pages[n] == s.pages[n]
            && FreeUpTo(s, owner, n + 1)
               == if t.OwnerOf(n) == Some(owner) && Refs(s, n) == 0 then t.With(n, Free) else t
  {
  }

  lemma UnpinKeepsInv(s: State, caller: nat, m: nat)
    requires Inv(s) && Unpin(s, caller, m).Success?
    ensures Inv(Unpin(s, caller, m).value)
  {
    hide Held;
    UnpinEffect(s, caller, m);
    var s' := Unpin(s, caller, m).value;
    PageAt(s, m);
    forall n: nat | s'.Allocated(n)
      ensures PageInv(s', n)
    {
      PageAt(s, n);
    }
    forall k | k in s'.links
      ensures EdgeInv(s', k)
    {
      assert EdgeInv(s, k);
      EdgeHolds(s', k);
    }
  }

  /** A frame nobody holds touches no entry. */
  lemma UnheldIsUntouched(s: State, m: nat, k: Key)
    requires Inv(s) && k in s.links && s.Allocated(m) && Refs(s, m) == 0
    ensures k.parent != m && s.links[k].child != m
  {
    assert EdgeInv(s, k);
    EdgeHolds(s, k);
  }

  lemma FreeKeepsInv(s: State, caller: nat, m: nat)
    requires Inv(s) && FreePage(s, caller, m).Success?
    ensures Inv(FreePage(s, caller, m).value)
  {
    var s' := FreePage(s, caller, m).value;
    forall n: nat | s'.Allocated(n)
      ensures PageInv(s', n)
    {
      PageAt(s, n);
    }
    forall k | k in s'.links
      ensures EdgeInv(s', k)
    {
      assert EdgeInv(s, k);
      UnheldIsUntouched(s, m, k);
    }
  }

  lemma AllocateKeepsInv(s: State, owner: nat, m: nat)
    requires Inv(s) && Allocate(s, owner, m).Success?
    ensures Inv(Allocate(s, owner, m).value)
  {
    var s' := Allocate(s, owner, m).value;
    FreshPageIsUnheld(s, owner, m);
    forall n: nat | s'.Allocated(n)
      ensures PageInv(s', n)
    {
      if n != m {
        PageAt(s, n);
      }
    }
    forall k | k in s'.links
      ensures EdgeInv(s', k)
    {
      assert EdgeInv(s, k);
    }
  }

  lemma FreshPageIsUnheld(s: State, owner: nat, m: nat)
    requires Inv(s) && Allocate(s, owner, m).Success?
    ensures var s' := Allocate(s, owner, m).value;
            s'.Allocated(m) && Refs(s', m) == 0
  {
  }

  /** Whether this other domain's table maps the frame. */
  predicate ForeignLinkedBy(s: State, frame: nat, linker: nat) {
    s.OwnerOf(frame) != Some(linker)
    && exists k | k in s.links :: s.links[k].child == frame && s.OwnerOf(k.parent) == Some(linker)
  }

  // ----- one dispatcher -----

  datatype Op =
    | OpAllocate(m: nat)
    | OpFree(m: nat)
    | OpPin(m: nat, level: Level)
    | OpUnpin(m: nat)
    | OpLink(key: Key, edge: Edge)
    | OpUnlink(key: Key)

  function Step(s: State, caller: nat, op: Op): Result<State, Error> {
    match op
    case OpAllocate(m) => Allocate(s, caller, m)
    case OpFree(m) => FreePage(s, caller, m)
    case OpPin(m, level) => Pin(s, caller, m, level)
    case OpUnpin(m) => Unpin(s, caller, m)
    case OpLink(k, e) => Link(s, caller, k, e)
    case OpUnlink(k) => Unlink(s, caller, k)
  }

  lemma StepKeepsInv(s: State, caller: nat, op: Op)
    requires Inv(s) && Step(s, caller, op).Success?
    ensures Inv(Step(s, caller, op).value)
  {
    hide Inv, Held, Allocate, FreePage, Pin, Unpin, Link;
    match op
    case OpAllocate(m) => AllocateKeepsInv(s, caller, m);
    case OpFree(m) => FreeKeepsInv(s, caller, m);
    case OpPin(m, level) => PinKeepsInv(s, caller, m, level);
    case OpUnpin(m) => UnpinKeepsInv(s, caller, m);
    case OpLink(k, e) => LinkKeepsInv(s, caller, k, e);
    case OpUnlink(k) => CutKeepsInv(s, {k});
  }

  /** Whether an operation links or unlinks an entry onto this frame. */
  predicate Reached(s: State, op: Op, m: nat) {
    (op.OpLink? && op.edge.child == m) || (op.OpUnlink? && op.key in s.links && s.links[op.key].child == m)
  }

  /** One frame after a guest's operation. It changes hands only between the guest and the free pool,
      and then nothing outside holds it. Another domain's frame keeps its pin; its level changes only
      if the operation's entry is onto it, and then from none or to none. */
  ghost predicate FrameConfined(before: Page, after: Page, caller: nat, reached: bool) {
    if before.Free? then after.Free? || (after.owner == caller && after.loose == NONE_LOOSE)
    else if after.Free? then before.owner == caller && before.loose == NONE_LOOSE
    else
      && after.owner == before.owner && after.loose == before.loose
      && (before.owner != caller ==>
            && after.pinned == before.pinned
            && (after.level == before.level || (reached && (before.level == 0 || after.level == 0))))
  }

  /** The new entries of an operation: the one linked, in the caller's own table. */
  function Added(op: Op): map<Key, Edge> {
    if op.OpLink? then map[op.key := Cleared(op.edge)] else map[]
  }

  /** What a guest's own operation leaves alone: other domains' frames, the references others hold,
      and every entry but the one it names, which is in the guest's own table. */
  ghost predicate Confined(s: State, s': State, caller: nat, op: Op) {
    && |s'.pages| == |s.pages| && s'.numDomains == s.numDomains
    && (forall m | 0 <= m < |s.pages| :: FrameConfined(s.pages[m], s'.pages[m], caller, Reached(s, op, m)))
    && (forall k | k in s.links :: k in s'.links || (op == OpUnlink(k) && s.OwnerOf(k.parent) == Some(caller)))
    && (forall k | k in s'.links ::
          if k in s.links then s'.links[k] == s.links[k]
          else k in Added(op) && s'.links[k] == Added(op)[k] && s.OwnerOf(k.parent) == Some(caller))
  }

  lemma UnlinkIsConfined(s: State, caller: nat, k: Key)
    requires Inv(s) && k in s.links && s.OwnerOf(k.parent) == Some(caller)
    ensures Confined(s, Cut(s, {k}), caller, OpUnlink(k))
  {
    hide Held, Cut;
    var s' := Cut(s, {k});
    CutKeys(s, {k});
    CutSize(s, {k});
    forall m | 0 <= m < |s.pages|
      ensures FrameConfined(s.pages[m], s'.pages[m], caller, Reached(s, OpUnlink(k), m))
    {
      if s.Allocated(m) {
        PageAt(s, m);
        CutPage(s, {k}, m);
        CutOneHeld(s, k, m);
      }
    }
  }

  lemma CutSize(s: State, keys: set<Key>)
    ensures |Cut(s, keys).pages| == |s.pages| && Cut(s, keys).numDomains == s.numDomains
    ensures forall m | 0 <= m < |s.pages| && s.pages[m].Free? :: Cut(s, keys).pages[m].Free?
  {
  }

  /** An interior child is untyped, or already the table the entry needs. */
  lemma InteriorChild(s: State, caller: nat, k: Key, e: Edge)
    requires Inv(s) && Link(s, caller, k, e).Success? && !e.leaf
    ensures s.OwnerOf(k.parent) == Some(caller) && s.Allocated(e.child)
    ensures s.pages[e.child].level == 0 || s.pages[e.child].level == s.pages[k.parent].level - 1
  {
  }

  lemma LinkIsConfined(s: State, caller: nat, k: Key, e: Edge)
    requires Inv(s) && Link(s, caller, k, e).Success?
    ensures Confined(s, Link(s, caller, k, e).value, caller, OpLink(k, e))
  {
    hide Inv, Link;
    LinkExact(s, caller, k, e);
    if !e.leaf {
      InteriorChild(s, caller, k, e);
    }
  }

  lemma StepIsConfined(s: State, caller: nat, op: Op)
    requires Inv(s) && Step(s, caller, op).Success?
    ensures Confined(s, Step(s, caller, op).value, caller, op)
  {
    hide Held, Refs, Link, Cut, Pin, Inv;
    match op
    case OpLink(k, e) => LinkIsConfined(s, caller, k, e);
    case OpUnlink(k) => UnlinkIsConfined(s, caller, k);
    case OpPin(m, level) =>
      PinEffect(s, caller, m, level);
      PinOwned(s, caller, m, level);
    case OpFree(m) => UnheldIsLoose(s, m);
    case _ =>
  }

  lemma PinOwned(s: State, caller: nat, m: nat, level: Level)
    requires Pin(s, caller, m, level).Success?
    ensures s.OwnerOf(m) == Some(caller)
  {
  }

  lemma UnheldIsLoose(s: State, m: nat)
    requires s.Allocated(m) && Refs(s, m) == 0
    ensures s.pages[m].loose == NONE_LOOSE
  {
  }

  // ----- teardown -----

  /** What a teardown leaves of a frame, and of the entries. */
  lemma TeardownExact(s: State, owner: nat, loose: seq<Counts>, m: nat)
    requires |loose| == |s.pages|
    ensures var s' := Teardown(s, owner, loose);
            && |s'.pages| == |s.pages| && s'.numDomains == s.numDomains
            && s'.links == s.links - Touching(s, owner)
            && (s'.Allocated(m) <==> s.Allocated(m) && s.pages[m].owner != owner)
            && (s'.Allocated(m) ==>
                  s'.pages[m] == s.pages[m].(loose := loose[m],
                                             level := if Held(s', m, Table) == 0 then 0 else s.pages[m].level))
  {
  }

  /** A smaller set of holders is a smaller count. */
  lemma FewerHolders(s: State, s': State, m: nat)
    requires s.Allocated(m) && s'.Allocated(m) && s'.links.Keys <= s.links.Keys
    requires forall k | k in s'.links :: s'.links[k] == s.links[k]
    requires s'.pages[m].pinned == s.pages[m].pinned
    requires forall kind: Kind :: s'.pages[m].loose.Of(kind) <= s.pages[m].loose.Of(kind)
    ensures forall kind: Kind :: Held(s', m, kind) <= Held(s, m, kind)
  {
    forall kind: Kind
      ensures |Into(s'.links, m, kind)| <= |Into(s.links, m, kind)|
    {
      SubsetSize(Into(s'.links, m, kind), Into(s.links, m, kind));
    }
    SubsetSize(From(s'.links, m), From(s.links, m));
  }

  /** The references left on the surviving frames are no more than there were. */
  ghost predicate Fewer(s: State, owner: nat, loose: seq<Counts>)
    requires |loose| == |s.pages|
  {
    forall m, kind: Kind {:trigger loose[m].Of(kind)} | 0 <= m < |s.pages| && s.pages[m].Page?
        && s.pages[m].owner != owner ::
      loose[m].Of(kind) <= s.pages[m].loose.Of(kind)
  }

  lemma TeardownPage(s: State, owner: nat, loose: seq<Counts>, m: nat)
    requires Inv(s) && |loose| == |s.pages| && Fewer(s, owner, loose) && Teardown(s, owner, loose).Allocated(m)
    ensures PageInv(Teardown(s, owner, loose), m)
  {
    hide Held, Teardown, Inv;
    TeardownExact(s, owner, loose, m);
    PageAt(s, m);
    FewerHolders(s, Teardown(s, owner, loose), m);
  }

  lemma TeardownEdge(s: State, owner: nat, loose: seq<Counts>, k: Key)
    requires Inv(s) && |loose| == |s.pages| && k in s.links && k !in Touching(s, owner)
    requires k in Teardown(s, owner, loose).links && Teardown(s, owner, loose).links[k] == s.links[k]
    ensures EdgeInv(Teardown(s, owner, loose), k)
  {
    hide Held, Teardown;
    assert EdgeInv(s, k);
    TeardownExact(s, owner, loose, k.parent);
    TeardownExact(s, owner, loose, s.links[k].child);
    EdgeHolds(Teardown(s, owner, loose), k);
  }

  lemma TeardownKeepsInv(s: State, owner: nat, loose: seq<Counts>)
    requires Inv(s) && |loose| == |s.pages| && Fewer(s, owner, loose)
    ensures Inv(Teardown(s, owner, loose))
  {
    var s' := Teardown(s, owner, loose);
    hide Held, Teardown, Touching, Fewer;
    TeardownExact(s, owner, loose, 0);
    forall m: nat | s'.Allocated(m)
      ensures PageInv(s', m)
    {
      TeardownPage(s, owner, loose, m);
    }
    forall k | k in s'.links
      ensures EdgeInv(s', k)
    {
      TeardownEdge(s, owner, loose, k);
    }
  }

  // ----- teardown step by step -----

  /** What a teardown of `owner` does so far: entries go, frames of the owner go, levels and pins
      are forgotten, and nothing appears. */
  ghost predicate Shrunk(s: State, s': State, owner: nat) {
    && |s'.pages| == |s.pages| && s'.numDomains == s.numDomains
    && (forall k | k in s'.links :: k in s.links && s'.links[k] == s.links[k])
    && (forall m | 0 <= m < |s.pages| :: PageShrunk(s.pages[m], s'.pages[m], owner))
  }

  ghost predicate PageShrunk(before: Page, after: Page, owner: nat) {
    if before.Free? then after.Free?
    else if after.Free? then before.owner == owner
    else && after.owner == before.owner && (after.level == before.level || after.level == 0)
         && (before.owner != owner ==> after.pinned == before.pinned)
  }

  lemma ShrunkTransitive(a: State, b: State, c: State, owner: nat)
    requires Shrunk(a, b, owner) && Shrunk(b, c, owner)
    ensures Shrunk(a, c, owner)
  {
  }

  lemma CutShrinks(s: State, keys: set<Key>, owner: nat)
    ensures Shrunk(s, Cut(s, keys), owner)
  {
  }

  lemma UnpinAllShrinks(s: State, owner: nat)
    ensures Shrunk(s, UnpinAll(s, owner), owner) && UnpinAll(s, owner).links == s.links
    ensures forall m: nat | s.Allocated(m) :: UnpinAll(s, owner).Allocated(m)
              && UnpinAll(s, owner).pages[m].loose == s.pages[m].loose
              && (s.pages[m].owner == owner ==> !UnpinAll(s, owner).pages[m].pinned)
  {
  }

  lemma UnpinOwners(s: State, owner: nat, m: nat)
    ensures UnpinAll(s, owner).OwnerOf(m) == s.OwnerOf(m)
  {
  }

  lemma FreeAllShrinks(s: State, owner: nat)
    requires forall m: nat | s.OwnerOf(m) == Some(owner) :: Refs(s, m) == 0
    ensures Shrunk(s, FreeAll(s, owner), owner) && FreeAll(s, owner).links == s.links
    ensures forall m: nat :: FreeAll(s, owner).OwnerOf(m) == if s.OwnerOf(m) == Some(owner) then None else s.OwnerOf(m)
    ensures forall m: nat | FreeAll(s, owner).Allocated(m) :: FreeAll(s, owner).pages[m] == s.pages[m]
  {
  }

  /** A frame of the owner with no entry, no pin and no mapping left has no reference left. */
  lemma NothingHolds(s: State, m: nat)
    requires s.Allocated(m) && s.pages[m].loose == NONE_LOOSE && !s.pages[m].pinned
    requires forall k | k in s.links :: k.parent != m && s.links[k].child != m
    ensures Refs(s, m) == 0
  {
  }

  /** Whatever order the teardown took, its result is the one-shot filter. */
  lemma TeardownUnique(s: State, t: State, owner: nat, loose: seq<Counts>)
    requires Inv(t) && Shrunk(s, t, owner) && |loose| == |s.pages|
    requires forall m: nat :: t.OwnerOf(m) != Some(owner)
    requires t.links == s.links - Touching(s, owner)
    requires forall m: nat | t.Allocated(m) :: t.pages[m].loose == loose[m]
    ensures t == Teardown(s, owner, loose)
  {
    hide Held, Teardown, Touching;
    var u := Teardown(s, owner, loose);
    TeardownExact(s, owner, loose, 0);
    forall m: nat | m < |s.pages|
      ensures t.pages[m] == u.pages[m]
    {
      TeardownExact(s, owner, loose, m);
      assert PageShrunk(s.pages[m], t.pages[m], owner);
      assert t.OwnerOf(m) != Some(owner);
      if t.Allocated(m) {
        SameHolders(t, u, m);
        PageAt(t, m);
      }
    }
    assert t.pages == u.pages;
  }

  /** A frame just allocated can be given straight back. */
  lemma AllocateThenFree(s: State, owner: nat, m: nat)
    requires Inv(s) && Allocate(s, owner, m).Success?
    ensures FreePage(Allocate(s, owner, m).value, owner, m) == Success(s)
  {
    FreshPageIsUnheld(s, owner, m);
    assert s.pages[m := Free] == s.pages;
    assert FreePage(Allocate(s, owner, m).value, owner, m).value.pages == s.pages;
  }

  // ----- page walks -----

  /** A walk: entries chained child to parent, each but the last an interior entry. */
  ghost predicate Walk(s: State, root: nat, path: seq<Key>) {
    && path != []
    && path[0].parent == root
    && (forall i | 0 <= i < |path| :: path[i] in s.links)
    && (forall i | 0 <= i < |path| - 1 :: !s.links[path[i]].leaf && path[i + 1].parent == s.links[path[i]].child)
  }

  /** A table's level exceeds the levels of the tables under it. */
  lemma EdgeDescends(s: State, k: Key)
    requires Inv(s) && k in s.links
    ensures s.Allocated(k.parent) && 1 <= s.pages[k.parent].level <= 4 && s.Allocated(s.links[k].child)
    ensures !s.links[k].leaf ==> s.pages[s.links[k].child].level == s.pages[k.parent].level - 1 >= 1
  {
    assert EdgeInv(s, k);
    EdgeHolds(s, k);
    PageAt(s, k.parent);
    PageAt(s, s.links[k].child);
  }

  /** Every walk descends one level an entry, so it takes at most four and never revisits a
      table, whoever owns the tables along it; one that reaches the bottom level ends in a leaf. */
  lemma {:induction false} WalkDescends(s: State, root: nat, path: seq<Key>)
    requires Inv(s) && Walk(s, root, path)
    ensures s.Allocated(root) && |path| <= s.pages[root].level <= 4
    ensures forall i | 0 <= i < |path| ::
              s.Allocated(path[i].parent) && s.pages[path[i].parent].level == s.pages[root].level - i
    ensures forall i, j | 0 <= i < j < |path| :: path[i].parent != path[j].parent
    ensures |path| == s.pages[root].level ==> s.links[path[|path| - 1]].leaf
    decreases |path|
  {
    hide Inv;
    EdgeDescends(s, path[0]);
    if |path| > 1 {
      WalkDescends(s, path[1].parent, path[1..]);
      forall i | 0 <= i < |path|
        ensures s.Allocated(path[i].parent) && s.pages[path[i].parent].level == s.pages[root].level - i
      {
        if i > 0 {
          assert path[1..][i - 1] == path[i];
        }
      }
    }
  }

  /** A frame reached through a writable leaf is nobody's page table and nobody's code. */
  lemma WritableLeafIsData(s: State, k: Key, other: Key)
    requires Inv(s) && k in s.links && s.links[k].Kind().Writable? && other in s.links
    ensures other.parent != s.links[k].child
    ensures s.links[other].child == s.links[k].child ==> s.links[other].leaf && !s.links[other].execute
    ensures s.Allocated(s.links[k].child) && !s.pages[s.links[k].child].pinned
  {
    assert EdgeInv(s, k) && EdgeInv(s, other);
    EdgeHolds(s, k);
    EdgeHolds(s, other);
    PageAt(s, s.links[k].child);
  }
}
