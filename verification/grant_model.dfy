/** Grant tables as a map from handles to mappings.

    The hypervisor keeps one flat vector of mapping records whose slots are reused, and two
    counts per entry. Here the live mappings are a map from (grantee, handle) to what is mapped;
    an entry's counts are the number of mappings over it. */
module GrantModel {
  import opened Basics

  datatype Entry = Free | Access(grantee: nat, frame: nat, readonly: bool)

  datatype Handle = Handle(grantee: nat, number: nat)

  datatype Mapping = Mapping(grantor: nat, gref: nat, writable: bool) {
    predicate Over(grantor: nat, gref: nat) {
      this.grantor == grantor && this.gref == gref
    }
  }

  datatype Unmapped = Unmapped(frame: nat, writable: bool)

  datatype Error = BadDomain | BadGrantRef | BadHandle | WrongState | InUse | PermissionDenied | Overflow

  datatype State = State(entries: seq<seq<Entry>>, maps: map<Handle, Mapping>) {
    predicate Has(grantor: nat, gref: nat) {
      grantor < |entries| && gref < |entries[grantor]|
    }

    predicate Granted(grantor: nat, gref: nat) {
      Has(grantor, gref) && entries[grantor][gref].Access?
    }

    function Find(grantor: nat, gref: nat): Result<Entry, Error> {
      if grantor >= |entries| then Failure(BadDomain)
      else if gref >= |entries[grantor]| then Failure(BadGrantRef)
      else Success(entries[grantor][gref])
    }

    function GrantedFrame(grantor: nat, gref: nat): Option<nat> {
      if Granted(grantor, gref) then Some(entries[grantor][gref].frame) else None
    }

    function With(grantor: nat, gref: nat, entry: Entry): State
      requires Has(grantor, gref)
    {
      this.(entries := entries[grantor := entries[grantor][gref := entry]])
    }
  }

  function New(domains: nat, grefs: nat): State {
    State(seq(domains, _ => seq(grefs, _ => Free)), map[])
  }

  // ----- live mappings -----

  /** The mappings standing over an entry. */
  function Over(maps: map<Handle, Mapping>, grantor: nat, gref: nat): set<Handle> {
    set h | h in maps && maps[h].Over(grantor, gref)
  }

  function WritableOver(maps: map<Handle, Mapping>, grantor: nat, gref: nat): set<Handle> {
    set h | h in maps && maps[h].Over(grantor, gref) && maps[h].writable
  }

  /** The frame a mapping reaches. */
  function FrameOf(s: State, mapping: Mapping): Option<nat> {
    s.GrantedFrame(mapping.grantor, mapping.gref)
  }

  /** The mappings of one writability that reach frame `m`. */
  function Reaching(s: State, m: nat, writable: bool): set<Handle> {
    set h | h in s.maps && FrameOf(s, s.maps[h]) == Some(m) && s.maps[h].writable == writable
  }

  /** A mapping stands over an active grant to its own grantee, at a permission it gives. */
  ghost predicate Backs(s: State, h: Handle)
    requires h in s.maps
  {
    var m := s.maps[h];
    s.Granted(m.grantor, m.gref)
    && var e := s.entries[m.grantor][m.gref];
       e.grantee == h.grantee && (m.writable ==> !e.readonly)
  }

  ghost predicate Inv(s: State) {
    && (forall d: nat, g: nat {:trigger s.entries[d][g]} | s.Granted(d, g) :: s.entries[d][g].grantee < |s.entries|)
    && (forall h | h in s.maps :: Backs(s, h))
    && (forall d: nat, g: nat {:trigger Over(s.maps, d, g)} :: |Over(s.maps, d, g)| <= U32_MAX)
  }

  lemma NewInv(domains: nat, grefs: nat)
    ensures Inv(New(domains, grefs))
  {
  }

  lemma BackedAt(s: State, h: Handle)
    requires Inv(s) && h in s.maps
    ensures Backs(s, h)
  {
  }

  lemma OverBound(s: State, d: nat, g: nat)
    requires Inv(s)
    ensures |Over(s.maps, d, g)| <= U32_MAX
  {
  }

  /** Nobody maps a grant that is not there. */
  lemma FreeIsUnmapped(s: State, d: nat, g: nat)
    requires Inv(s) && !s.Granted(d, g)
    ensures Over(s.maps, d, g) == {} && WritableOver(s.maps, d, g) == {}
  {
  }

  // ----- handles -----

  /** A grantee's live handles from `start` up. */
  function Held(maps: map<Handle, Mapping>, grantee: nat, start: nat): set<Handle> {
    set h | h in maps && h.grantee == grantee && h.number >= start
  }

  /** The least handle number from `start` up that the grantee does not hold. The search ends
      because every number it passes is one of finitely many live handles. */
  function FirstUnused(maps: map<Handle, Mapping>, grantee: nat, start: nat): (number: nat)
    ensures start <= number <= start + |Held(maps, grantee, start)|
    ensures Handle(grantee, number) !in maps
    ensures forall k | start <= k < number :: Handle(grantee, k) in maps
    decreases |Held(maps, grantee, start)|
  {
    if Handle(grantee, start) !in maps then start else
    assert Held(maps, grantee, start) == Held(maps, grantee, start + 1) + {Handle(grantee, start)};
    FirstUnused(maps, grantee, start + 1)
  }

  /** A handle depends on its owner's own mappings only: no other domain's mapping or unmapping
      can move it. */
  lemma {:induction false} HandlesArePrivate(maps: map<Handle, Mapping>, maps': map<Handle, Mapping>, grantee: nat,
                                             start: nat)
    requires forall k :: Handle(grantee, k) in maps <==> Handle(grantee, k) in maps'
    ensures FirstUnused(maps, grantee, start) == FirstUnused(maps', grantee, start)
  {
  }

  // ----- transitions -----

  function GrantAccess(s: State, grantor: nat, gref: nat, grantee: nat, frame: nat, readonly: bool)
    : Result<State, Error>
  {
    if grantee >= |s.entries| then Failure(BadDomain) else
    var entry :- s.Find(grantor, gref);
    if entry.Access? then Failure(WrongState)
    else Success(s.With(grantor, gref, Access(grantee, frame, readonly)))
  }

  function EndAccess(s: State, grantor: nat, gref: nat): Result<State, Error> {
    var entry :- s.Find(grantor, gref);
    if entry.Free? then Failure(WrongState)
    else if |Over(s.maps, grantor, gref)| > 0 then Failure(InUse)
    else Success(s.With(grantor, gref, Free))
  }

  /** The permission check that mapping and copying share. */
  function Permitted(s: State, grantee: nat, grantor: nat, gref: nat, writable: bool): Result<Entry, Error> {
    var entry :- s.Find(grantor, gref);
    if entry.Free? then Failure(WrongState)
    else if entry.grantee != grantee || (writable && entry.readonly) then Failure(PermissionDenied)
    else Success(entry)
  }

  datatype Placed = Placed(state: State, handle: nat)

  function Map(s: State, grantee: nat, grantor: nat, gref: nat, writable: bool): Result<Placed, Error> {
    var _ :- Permitted(s, grantee, grantor, gref, writable);
    if |Over(s.maps, grantor, gref)| == U32_MAX then Failure(Overflow) else
    var number := FirstUnused(s.maps, grantee, 0);
    Success(Placed(s.(maps := s.maps[Handle(grantee, number) := Mapping(grantor, gref, writable)]), number))
  }

  datatype Dropped = Dropped(state: State, released: Unmapped)

  function Unmap(s: State, grantee: nat, number: nat): Result<Dropped, Error> {
    var h := Handle(grantee, number);
    if h !in s.maps then Failure(BadHandle) else
    var frame := FrameOf(s, s.maps[h]);
    Success(Dropped(Discard(s, {h}), Unmapped(if frame.Some? then frame.value else 0, s.maps[h].writable)))
  }

  function Discard(s: State, handles: set<Handle>): State {
    s.(maps := s.maps - handles)
  }

  function Width(s: State, grantor: nat): nat {
    if grantor < |s.entries| then |s.entries[grantor]| else 0
  }

  /** Whether a grantor offers this domain the frame, writably if asked. */
  predicate Authorizes(s: State, grantor: nat, grantee: nat, frame: nat, writable: bool) {
    exists g | 0 <= g < Width(s, grantor) :: Offers(s, grantor, g, grantee, frame, writable)
  }

  predicate Offers(s: State, grantor: nat, gref: nat, grantee: nat, frame: nat, writable: bool) {
    s.Granted(grantor, gref)
    && var e := s.entries[grantor][gref];
       e.grantee == grantee && e.frame == frame && (writable ==> !e.readonly)
  }

  /** The handles a drain has gone through. */
  function SetOf(handles: seq<Handle>): set<Handle> {
    set h | h in handles
  }

  lemma SetOfNext(s: State, handles: seq<Handle>, n: nat)
    requires n < |handles|
    ensures SetOf(handles[..n + 1]) == SetOf(handles[..n]) + {handles[n]}
    ensures Discard(Discard(s, SetOf(handles[..n])), {handles[n]}) == Discard(s, SetOf(handles[..n + 1]))
  {
  }

  lemma SetOfEnds(s: State, handles: seq<Handle>)
    ensures Discard(s, SetOf(handles[..0])) == s
    ensures SetOf(handles[..|handles|]) == SetOf(handles)
  {
  }

  // ----- teardown, in one shot -----

  function HeldBy(s: State, grantee: nat): set<Handle> {
    set h | h in s.maps && h.grantee == grantee
  }

  function ForeignOver(s: State, grantor: nat): set<Handle> {
    set h | h in s.maps && s.maps[h].grantor == grantor && h.grantee != grantor
  }

  /** Every grant `dom` offers that nobody maps is ended. */
  function RevokeAll(s: State, dom: nat): State {
    s.(entries := seq(|s.entries|, d requires 0 <= d < |s.entries| =>
         seq(|s.entries[d]|, g requires 0 <= g < |s.entries[d]| =>
           if d == dom && Over(s.maps, d, g) == {} then Free else s.entries[d][g])))
  }

  /** Every grant naming `dom` that nobody maps is ended. */
  function RevokeTo(s: State, dom: nat): State {
    s.(entries := seq(|s.entries|, d requires 0 <= d < |s.entries| =>
         seq(|s.entries[d]|, g requires 0 <= g < |s.entries[d]| =>
           if s.entries[d][g].Access? && s.entries[d][g].grantee == dom && Over(s.maps, d, g) == {} then Free
           else s.entries[d][g])))
  }

  /** No grant offered by or naming `dom` is left, and nobody else's changes. */
  function Withdraw(s: State, dom: nat): State {
    s.(entries := seq(|s.entries|, d requires 0 <= d < |s.entries| =>
         seq(|s.entries[d]|, g requires 0 <= g < |s.entries[d]| =>
           if d == dom || (s.entries[d][g].Access? && s.entries[d][g].grantee == dom) then Free else s.entries[d][g])))
  }

  /** Where no mapping concerns `dom` any more, the two revocations leave nothing of it. */
  lemma RevocationsWithdraw(s: State, dom: nat)
    requires Inv(s) && forall h | h in s.maps :: h.grantee != dom && s.maps[h].grantor != dom
    ensures RevokeTo(RevokeAll(s, dom), dom) == Withdraw(s, dom)
  {
    var t := RevokeTo(RevokeAll(s, dom), dom);
    forall d: nat | d < |s.entries|
      ensures t.entries[d] == Withdraw(s, dom).entries[d]
    {
      forall g: nat | g < |s.entries[d]| && (d == dom || Naming(s, d, g, dom))
        ensures Over(s.maps, d, g) == {}
      {
        forall h | h in s.maps
          ensures !s.maps[h].Over(d, g)
        {
          BackedAt(s, h);
        }
      }
    }
    assert t.entries == Withdraw(s, dom).entries;
  }

  predicate Naming(s: State, d: nat, g: nat, grantee: nat) {
    s.Granted(d, g) && s.entries[d][g].grantee == grantee
  }

  /** Ending the grants at these places, in whatever order. */
  function Ended(s: State, gone: set<(nat, nat)>): State {
    s.(entries := seq(|s.entries|, d requires 0 <= d < |s.entries| =>
         seq(|s.entries[d]|, g requires 0 <= g < |s.entries[d]| => if (d, g) in gone then Free else s.entries[d][g])))
  }

  lemma EndedNone(s: State)
    ensures Ended(s, {}) == s
  {
    forall d: nat | d < |s.entries|
      ensures Ended(s, {}).entries[d] == s.entries[d]
    {
    }
    assert Ended(s, {}).entries == s.entries;
  }

  lemma EndedOne(s: State, gone: set<(nat, nat)>, d: nat, g: nat)
    requires Ended(s, gone).Has(d, g)
    ensures var t, t' := Ended(s, gone), Ended(s, gone + {(d, g)});
            t' == if t.entries[d][g].Access? then t.With(d, g, Free) else t
  {
    var t, t' := Ended(s, gone), Ended(s, gone + {(d, g)});
    forall x: nat | x < |s.entries|
      ensures t'.entries[x] == (if t.entries[d][g].Access? then t.With(d, g, Free) else t).entries[x]
    {
    }
    assert t'.entries == (if t.entries[d][g].Access? then t.With(d, g, Free) else t).entries;
  }

  lemma EndedIsRevokeAll(s: State, gone: set<(nat, nat)>, dom: nat)
    requires forall d: nat, g: nat | s.Has(d, g) :: (d, g) in gone <==> d == dom && Over(s.maps, d, g) == {}
    ensures Ended(s, gone) == RevokeAll(s, dom)
  {
    forall d: nat | d < |s.entries|
      ensures Ended(s, gone).entries[d] == RevokeAll(s, dom).entries[d]
    {
      assert forall g: nat | g < |s.entries[d]| :: s.Has(d, g);
    }
    assert Ended(s, gone).entries == RevokeAll(s, dom).entries;
  }

  lemma EndedIsRevokeTo(s: State, gone: set<(nat, nat)>, dom: nat)
    requires forall d: nat, g: nat | s.Has(d, g) :: (d, g) in gone <==> Naming(s, d, g, dom) && Over(s.maps, d, g) == {}
    ensures Ended(s, gone) == RevokeTo(s, dom)
  {
    forall d: nat | d < |s.entries|
      ensures Ended(s, gone).entries[d] == RevokeTo(s, dom).entries[d]
    {
      assert forall g: nat | g < |s.entries[d]| :: s.Has(d, g);
    }
    assert Ended(s, gone).entries == RevokeTo(s, dom).entries;
  }

  function Teardown(s: State, dom: nat): State {
    Withdraw(Discard(s, HeldBy(s, dom) + ForeignOver(s, dom)), dom)
  }

  // ----- what each step does to the live mappings -----

  lemma OverSubset(a: map<Handle, Mapping>, b: map<Handle, Mapping>, grantor: nat, gref: nat)
    requires a.Keys <= b.Keys && forall h | h in a :: a[h] == b[h]
    ensures |Over(a, grantor, gref)| <= |Over(b, grantor, gref)|
  {
    SubsetSize(Over(a, grantor, gref), Over(b, grantor, gref));
  }

  lemma GrantAccessKeepsInv(s: State, grantor: nat, gref: nat, grantee: nat, frame: nat, readonly: bool)
    requires Inv(s) && GrantAccess(s, grantor, gref, grantee, frame, readonly).Success?
    ensures Inv(GrantAccess(s, grantor, gref, grantee, frame, readonly).value)
  {
  }

  /** Ending a grant that was just issued leaves no trace. */
  lemma GrantThenEnd(s: State, grantor: nat, gref: nat, grantee: nat, frame: nat, readonly: bool)
    requires Inv(s) && GrantAccess(s, grantor, gref, grantee, frame, readonly).Success?
    ensures EndAccess(GrantAccess(s, grantor, gref, grantee, frame, readonly).value, grantor, gref) == Success(s)
  {
    FreeIsUnmapped(s, grantor, gref);
    var ended := EndAccess(GrantAccess(s, grantor, gref, grantee, frame, readonly).value, grantor, gref);
    assert ended.Success?;
    forall d: nat | d < |s.entries|
      ensures ended.value.entries[d] == s.entries[d]
    {
    }
    assert EndAccess(GrantAccess(s, grantor, gref, grantee, frame, readonly).value, grantor, gref).value.entries
           == s.entries;
  }

  lemma EndAccessKeepsInv(s: State, grantor: nat, gref: nat)
    requires Inv(s) && EndAccess(s, grantor, gref).Success?
    ensures Inv(EndAccess(s, grantor, gref).value)
  {
    var s' := EndAccess(s, grantor, gref).value;
    forall h | h in s'.maps
      ensures Backs(s', h)
    {
      assert Backs(s, h) && h !in Over(s.maps, grantor, gref);
    }
  }

  /** A live mapping reaches the same frame before and after a grant is issued or ended. */
  lemma EntryChangeKeepsFrames(s: State, s': State, m: nat, writable: bool)
    requires Inv(s) && Inv(s') && s'.maps == s.maps
    requires forall d: nat, g: nat | s.Granted(d, g) && s'.Granted(d, g) :: s'.entries[d][g] == s.entries[d][g]
    ensures Reaching(s', m, writable) == Reaching(s, m, writable)
  {
  }

  lemma MapOver(maps: map<Handle, Mapping>, h: Handle, mapping: Mapping, d: nat, g: nat)
    requires h !in maps
    ensures Over(maps[h := mapping], d, g) == Over(maps, d, g) + if mapping.Over(d, g) then {h} else {}
    ensures WritableOver(maps[h := mapping], d, g)
            == WritableOver(maps, d, g) + if mapping.Over(d, g) && mapping.writable then {h} else {}
  {
  }

  lemma MapKeepsInv(s: State, grantee: nat, grantor: nat, gref: nat, writable: bool)
    requires Inv(s) && Map(s, grantee, grantor, gref, writable).Success?
    ensures Inv(Map(s, grantee, grantor, gref, writable).value.state)
  {
    var s', h := Map(s, grantee, grantor, gref, writable).value.state, Handle(grantee, FirstUnused(s.maps, grantee, 0));
    forall d: nat, g: nat
      ensures |Over(s'.maps, d, g)| <= U32_MAX
    {
      MapOver(s.maps, h, Mapping(grantor, gref, writable), d, g);
    }
    forall k | k in s'.maps
      ensures Backs(s', k)
    {
      assert k != h ==> Backs(s, k);
    }
  }

  lemma DiscardKeepsInv(s: State, handles: set<Handle>)
    requires Inv(s)
    ensures Inv(Discard(s, handles))
  {
    var s' := Discard(s, handles);
    forall d: nat, g: nat
      ensures |Over(s'.maps, d, g)| <= U32_MAX
    {
      OverSubset(s'.maps, s.maps, d, g);
    }
    assert forall h | h in s'.maps :: Backs(s, h);
  }

  /** Unmapping is the inverse of mapping. */
  lemma MapThenUnmap(s: State, grantee: nat, grantor: nat, gref: nat, writable: bool)
    requires Map(s, grantee, grantor, gref, writable).Success?
    ensures var placed := Map(s, grantee, grantor, gref, writable).value;
            Unmap(placed.state, grantee, placed.handle)
            == Success(Dropped(s, Unmapped(s.entries[grantor][gref].frame, writable)))
  {
    var placed := Map(s, grantee, grantor, gref, writable).value;
    assert placed.state.maps - {Handle(grantee, placed.handle)} == s.maps;
  }

  /** After a domain's teardown every surviving mapping is between two other domains, and all of
      those survive. */
  lemma TeardownSurvivors(s: State, dom: nat)
    requires Inv(s)
    ensures forall h :: h in Teardown(s, dom).maps <==> h in s.maps && h.grantee != dom && s.maps[h].grantor != dom
    ensures forall h | h in Teardown(s, dom).maps :: Teardown(s, dom).maps[h] == s.maps[h]
                                                     && FrameOf(Teardown(s, dom), s.maps[h]) == FrameOf(s, s.maps[h])
  {
  }

  lemma TeardownKeepsInv(s: State, dom: nat)
    requires Inv(s)
    ensures Inv(Teardown(s, dom))
  {
    var s' := Teardown(s, dom);
    DiscardKeepsInv(s, HeldBy(s, dom) + ForeignOver(s, dom));
    TeardownSurvivors(s, dom);
    forall h | h in s'.maps
      ensures Backs(s', h)
    {
      assert Backs(s, h);
    }
    forall d: nat, g: nat | s'.Granted(d, g)
      ensures s'.entries[d][g].grantee < |s'.entries|
    {
      assert s.Granted(d, g);
    }
  }
}
