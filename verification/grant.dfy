/** Grant tables as the hypervisor keeps them: counts in every entry, and one flat vector of
    mapping records whose slots are reused. Each method is proved to enact the transition of
    `GrantModel`, where the mappings are a map from handles. */
module Grant {
  import opened Basics
  import M = GrantModel

  datatype Entry = Free | Access(grantee: nat, frame: nat, readonly: bool, maps: nat, writableMaps: nat)

  datatype Mapping = Mapping(active: bool, grantee: nat, handle: nat, grantor: nat, gref: nat, writable: bool) {
    function Key(): M.Handle {
      M.Handle(grantee, handle)
    }

    function Value(): M.Mapping {
      M.Mapping(grantor, gref, writable)
    }
  }

  /** The call did what `spec` says: its new state on acceptance, nothing on refusal. */
  ghost predicate Enacted(before: M.State, after: M.State, spec: Result<M.State, M.Error>, refused: Option<M.Error>) {
    match spec
    case Success(s) => refused == None && after == s
    case Failure(e) => refused == Some(e) && after == before
  }

  // ----- what the counts and the vector mean -----

  ghost predicate Counts(e: Entry, s: M.State, d: nat, g: nat)
    requires s.Has(d, g)
  {
    match s.entries[d][g]
    case Free => e.Free?
    case Access(grantee, frame, readonly) =>
      e == Access(grantee, frame, readonly, |M.Over(s.maps, d, g)|, |M.WritableOver(s.maps, d, g)|)
  }

  ghost predicate EntriesCount(entries: seq<seq<Entry>>, s: M.State) {
    && |entries| == |s.entries|
    && (forall d | 0 <= d < |entries| :: |entries[d]| == |s.entries[d]|)
    && (forall d: nat, g: nat {:trigger entries[d][g]} | s.Has(d, g) :: Counts(entries[d][g], s, d, g))
  }

  /** The active slots hold exactly the live mappings, each once. */
  ghost predicate MapsHold(maps: seq<Mapping>, place: map<M.Handle, nat>, live: map<M.Handle, M.Mapping>) {
    && place.Keys == live.Keys
    && (forall h | h in live :: place[h] < |maps| && maps[place[h]].active
                                && maps[place[h]].Key() == h && maps[place[h]].Value() == live[h])
    && (forall i | 0 <= i < |maps| && maps[i].active :: maps[i].Key() in live && place[maps[i].Key()] == i)
  }

  lemma EntryAt(entries: seq<seq<Entry>>, s: M.State, d: nat, g: nat)
    requires EntriesCount(entries, s) && s.Has(d, g)
    ensures d < |entries| && g < |entries[d]| && Counts(entries[d][g], s, d, g)
  {
  }

  /** Writing one entry while the mappings stay. */
  lemma CountsWrite(entries: seq<seq<Entry>>, s: M.State, d: nat, g: nat, e: Entry, spec: M.Entry)
    requires EntriesCount(entries, s) && s.Has(d, g) && Counts(e, s.With(d, g, spec), d, g)
    ensures EntriesCount(entries[d := entries[d][g := e]], s.With(d, g, spec))
  {
  }

  /** One mapping more or fewer over one entry. */
  lemma CountsMapped(entries: seq<seq<Entry>>, s: M.State, s': M.State, d: nat, g: nat, e: Entry)
    requires EntriesCount(entries, s) && s.Has(d, g) && s'.entries == s.entries
    requires forall x: nat, y: nat | (x, y) != (d, g) ::
               M.Over(s'.maps, x, y) == M.Over(s.maps, x, y)
                   && M.WritableOver(s'.maps, x, y) == M.WritableOver(s.maps, x, y)
    requires Counts(e, s', d, g)
    ensures EntriesCount(entries[d := entries[d][g := e]], s')
  {
  }

  lemma MapsAdd(maps: seq<Mapping>, place: map<M.Handle, nat>, live: map<M.Handle, M.Mapping>, m: Mapping, i: nat,
                maps': seq<Mapping>)
    requires MapsHold(maps, place, live) && m.active && m.Key() !in live
    requires i <= |maps| && (i < |maps| ==> !maps[i].active)
    requires maps' == if i < |maps| then maps[i := m] else maps + [m]
    ensures MapsHold(maps', place[m.Key() := i], live[m.Key() := m.Value()])
  {
  }

  lemma MapsDrop(maps: seq<Mapping>, place: map<M.Handle, nat>, live: map<M.Handle, M.Mapping>, h: M.Handle)
    requires MapsHold(maps, place, live) && h in live
    ensures h in place && place[h] < |maps|
    ensures MapsHold(maps[place[h] := maps[place[h]].(active := false)], place - {h}, live - {h})
  {
  }

  /** The counts after one more mapping; the total cannot wrap. */
  function CountsAfterMap(maps: nat, writableMaps: nat, writable: bool): Result<(nat, nat), M.Error> {
    if maps == U32_MAX then Failure(M.Overflow)
    else Success((maps + 1, if writable then writableMaps + 1 else writableMaps))
  }

  function CountsAfterUnmap(maps: nat, writableMaps: nat, writable: bool): (nat, nat) {
    (SatSub(maps, 1), if writable then SatSub(writableMaps, 1) else writableMaps)
  }

  /** Counting a mapping in and out again is exact: the saturating release never saturates. */
  lemma CountsAgree(live: map<M.Handle, M.Mapping>, h: M.Handle, m: M.Mapping)
    requires h !in live
    ensures var live' := live[h := m];
            var (d, g) := (m.grantor, m.gref);
            && (|M.Over(live, d, g)| < U32_MAX ==>
                  CountsAfterMap(|M.Over(live, d, g)|, |M.WritableOver(live, d, g)|, m.writable)
                  == Success((|M.Over(live', d, g)|, |M.WritableOver(live', d, g)|)))
            && CountsAfterUnmap(|M.Over(live', d, g)|, |M.WritableOver(live', d, g)|, m.writable)
               == (|M.Over(live, d, g)|, |M.WritableOver(live, d, g)|)
  {
    M.MapOver(live, h, m, m.grantor, m.gref);
    assert h !in M.Over(live, m.grantor, m.gref) && h !in M.WritableOver(live, m.grantor, m.gref);
  }

  lemma OthersUntouched(live: map<M.Handle, M.Mapping>, h: M.Handle, m: M.Mapping)
    requires h !in live
    ensures forall x: nat, y: nat | (x, y) != (m.grantor, m.gref) ::
              M.Over(live[h := m], x, y) == M.Over(live, x, y)
                  && M.WritableOver(live[h := m], x, y) == M.WritableOver(live, x, y)
  {
  }

  /** What unmapping these handles gave back, in order. */
  ghost predicate Released(before: M.State, handles: seq<M.Handle>, released: seq<M.Unmapped>) {
    && |released| == |handles|
    && (forall i, j | 0 <= i < j < |handles| :: handles[i] != handles[j])
    && forall i | 0 <= i < |handles| ::
         && handles[i] in before.maps
         && M.FrameOf(before, before.maps[handles[i]]) == Some(released[i].frame)
         && released[i].writable == before.maps[handles[i]].writable
  }

  // ----- the system -----

  class System {
    var entries: seq<seq<Entry>>
    var maps: seq<Mapping>

    /** What the counts and the vector stand for, and where each mapping is kept. */
    ghost var abs: M.State
    ghost var place: map<M.Handle, nat>

    ghost predicate Valid()
      reads this
    {
      M.Inv(abs) && EntriesCount(entries, abs) && MapsHold(maps, place, abs.maps)
    }

    constructor (numDomains: nat, entriesPerDomain: nat)
      ensures Valid() && abs == M.New(numDomains, entriesPerDomain)
    {
      entries := seq(numDomains, _ => seq(entriesPerDomain, _ => Entry.Free));
      maps := [];
      abs := M.New(numDomains, entriesPerDomain);
      place := map[];
      new;
      M.NewInv(numDomains, entriesPerDomain);
    }

    /** Why an entry cannot be looked up. */
    function Missing(grantor: nat, gref: nat): Option<M.Error>
      reads this
    {
      if grantor >= |entries| then Some(M.BadDomain)
      else if gref >= |entries[grantor]| then Some(M.BadGrantRef)
      else None
    }

    lemma FindAgrees(grantor: nat, gref: nat)
      requires Valid()
      ensures Missing(grantor, gref).Some? ==> abs.Find(grantor, gref) == Failure(Missing(grantor, gref).value)
      ensures Missing(grantor, gref).None? ==>
                && abs.Has(grantor, gref) && Counts(entries[grantor][gref], abs, grantor, gref)
                && abs.Find(grantor, gref) == Success(abs.entries[grantor][gref])
    {
    }

    method SetEntry(grantor: nat, gref: nat, e: Entry)
      requires grantor < |entries| && gref < |entries[grantor]|
      modifies this`entries
      ensures entries == old(entries)[grantor := old(entries)[grantor][gref := e]]
    {
      entries := entries[grantor := entries[grantor][gref := e]];
    }

    method GrantAccess(grantor: nat, gref: nat, grantee: nat, frame: nat, readonly: bool)
      returns (refused: Option<M.Error>)
      requires Valid()
      modifies this`entries, this`abs
      ensures Valid()
              && Enacted(old(abs), abs, M.GrantAccess(old(abs), grantor, gref, grantee, frame, readonly), refused)
    {
      hide M.Inv, MapsHold;
      if grantee >= |entries| {
        return Some(M.BadDomain);
      }
      FindAgrees(grantor, gref);
      refused := Missing(grantor, gref);
      if refused.Some? {
        return;
      }
      if entries[grantor][gref].Access? {
        return Some(M.WrongState);
      }
      M.GrantAccessKeepsInv(abs, grantor, gref, grantee, frame, readonly);
      M.FreeIsUnmapped(abs, grantor, gref);
      CountsWrite(entries, abs, grantor, gref, Access(grantee, frame, readonly, 0, 0),
                  M.Access(grantee, frame, readonly));
      SetEntry(grantor, gref, Access(grantee, frame, readonly, 0, 0));
      abs := abs.With(grantor, gref, M.Access(grantee, frame, readonly));
    }

    method EndAccess(grantor: nat, gref: nat) returns (refused: Option<M.Error>)
      requires Valid()
      modifies this`entries, this`abs
      ensures Valid() && Enacted(old(abs), abs, M.EndAccess(old(abs), grantor, gref), refused)
    {
      hide M.Inv, MapsHold;
      FindAgrees(grantor, gref);
      refused := Missing(grantor, gref);
      if refused.Some? {
        return;
      }
      match entries[grantor][gref] {
        case Free => return Some(M.WrongState);
        case Access(_, _, _, live, _) =>
          if live > 0 {
            return Some(M.InUse);
          }
      }
      M.EndAccessKeepsInv(abs, grantor, gref);
      CountsWrite(entries, abs, grantor, gref, Entry.Free, M.Free);
      SetEntry(grantor, gref, Entry.Free);
      abs := abs.With(grantor, gref, M.Free);
    }

    /** Where the grantee keeps the mapping of this handle, if it holds one. */
    method Position(grantee: nat, handle: nat) returns (index: Option<nat>)
      requires MapsHold(maps, place, abs.maps)
      ensures index == if M.Handle(grantee, handle) in abs.maps then Some(place[M.Handle(grantee, handle)]) else None
    {
      for i := 0 to |maps|
        invariant forall j | 0 <= j < i :: maps[j].active ==> maps[j].Key() != M.Handle(grantee, handle)
      {
        if maps[i].active && maps[i].grantee == grantee && maps[i].handle == handle {
          assert maps[i].Key() == M.Handle(grantee, handle);
          return Some(i);
        }
      }
      return None;
    }

    /** Record a mapping under the grantee's lowest unused handle, in the first inactive slot. The
        search for the handle ends because every number it passes is live. */
    method AllocHandle(grantee: nat, grantor: nat, gref: nat, writable: bool) returns (handle: nat)
      requires MapsHold(maps, place, abs.maps)
      modifies this`maps, this`place
      ensures handle == M.FirstUnused(abs.maps, grantee, 0)
      ensures MapsHold(maps, place, abs.maps[M.Handle(grantee, handle) := M.Mapping(grantor, gref, writable)])
      ensures (exists i | 0 <= i < |old(maps)| :: !old(maps)[i].active) ==> |maps| == |old(maps)|
    {
      ghost var unused := M.FirstUnused(abs.maps, grantee, 0);
      handle := 0;
      var held := Position(grantee, handle);
      while held.Some?
        invariant maps == old(maps) && place == old(place) && handle <= unused
        invariant held.Some? <==> M.Handle(grantee, handle) in abs.maps
        decreases unused - handle
      {
        handle := handle + 1;
        held := Position(grantee, handle);
      }
      var mapping := Mapping(true, grantee, handle, grantor, gref, writable);
      var i := 0;
      while i < |maps| && maps[i].active
        invariant 0 <= i <= |maps|
        invariant forall j | 0 <= j < i :: maps[j].active
      {
        i := i + 1;
      }
      MapsAdd(maps, place, abs.maps, mapping, i, if i < |maps| then maps[i := mapping] else maps + [mapping]);
      place := place[mapping.Key() := i];
      if i < |maps| {
        maps := maps[i := mapping];
      } else {
        maps := maps + [mapping];
      }
    }

    method Map(grantee: nat, grantor: nat, gref: nat, writable: bool) returns (r: Result<nat, M.Error>)
      requires Valid()
      modifies this
      ensures Valid()
      ensures match M.Map(old(abs), grantee, grantor, gref, writable)
              case Success(placed) => r == Success(placed.handle) && abs == placed.state
              case Failure(e) => r == Failure(e) && abs == old(abs)
    {
      hide M.Inv;
      FindAgrees(grantor, gref);
      var missing := Missing(grantor, gref);
      if missing.Some? {
        return Failure(missing.value);
      }
      var e := entries[grantor][gref];
      if e.Free? {
        return Failure(M.WrongState);
      }
      if e.grantee != grantee {
        return Failure(M.PermissionDenied);
      }
      if writable && e.readonly {
        return Failure(M.PermissionDenied);
      }
      var counts := CountsAfterMap(e.maps, e.writableMaps, writable);
      if counts.Failure? {
        return Failure(counts.error);
      }
      SetEntry(grantor, gref, e.(maps := counts.value.0, writableMaps := counts.value.1));
      var handle := AllocHandle(grantee, grantor, gref, writable);
      ghost var h, m := M.Handle(grantee, handle), M.Mapping(grantor, gref, writable);
      M.OverBound(old(abs), grantor, gref);
      CountsAgree(old(abs).maps, h, m);
      OthersUntouched(old(abs).maps, h, m);
      abs := abs.(maps := abs.maps[h := m]);
      M.MapKeepsInv(old(abs), grantee, grantor, gref, writable);
      CountsMapped(old(entries), old(abs), abs, grantor, gref,
                   e.(maps := counts.value.0, writableMaps := counts.value.1));
      return Success(handle);
    }

    method Unmap(grantee: nat, handle: nat) returns (r: Result<M.Unmapped, M.Error>)
      requires Valid()
      modifies this
      ensures Valid()
      ensures match M.Unmap(old(abs), grantee, handle)
              case Success(dropped) => r == Success(dropped.released) && abs == dropped.state
              case Failure(e) => r == Failure(e) && abs == old(abs)
    {
      hide M.Inv;
      var slot := Position(grantee, handle);
      if slot.None? {
        return Failure(M.BadHandle);
      }
      ghost var h := M.Handle(grantee, handle);
      var mapping := maps[slot.value];
      M.BackedAt(abs, h);
      FindAgrees(mapping.grantor, mapping.gref);
      var frame := 0;
      var e := entries[mapping.grantor][mapping.gref];
      ghost var live' := abs.maps - {h};
      assert live'[h := mapping.Value()] == abs.maps;
      CountsAgree(live', h, mapping.Value());
      OthersUntouched(live', h, mapping.Value());
      if e.Access? {
        frame := e.frame;
        var counts := CountsAfterUnmap(e.maps, e.writableMaps, mapping.writable);
        CountsMapped(entries, abs, abs.(maps := live'), mapping.grantor, mapping.gref,
                     e.(maps := counts.0, writableMaps := counts.1));
        SetEntry(mapping.grantor, mapping.gref, e.(maps := counts.0, writableMaps := counts.1));
      }
      MapsDrop(maps, place, abs.maps, h);
      M.DiscardKeepsInv(abs, {h});
      maps := maps[slot.value := mapping.(active := false)];
      place := place - {h};
      abs := M.Discard(abs, {h});
      return Success(M.Unmapped(frame, mapping.writable));
    }

    /** The permission check without the mapping. */
    method Copy(grantee: nat, grantor: nat, gref: nat, write: bool) returns (refused: Option<M.Error>)
      requires Valid()
      ensures M.Permitted(abs, grantee, grantor, gref, write).Failure? ==>
                refused == Some(M.Permitted(abs, grantee, grantor, gref, write).error)
      ensures M.Permitted(abs, grantee, grantor, gref, write).Success? ==> refused == None
    {
      FindAgrees(grantor, gref);
      refused := Missing(grantor, gref);
      if refused.Some? {
        return;
      }
      match entries[grantor][gref] {
        case Access(permitted, _, readonly, _, _) =>
          if permitted != grantee || (write && readonly) {
            return Some(M.PermissionDenied);
          }
          return None;
        case Free => return Some(M.WrongState);
      }
    }

    function GrantedFrame(grantor: nat, gref: nat): Option<nat>
      reads this
    {
      if Missing(grantor, gref).None? && entries[grantor][gref].Access? then Some(entries[grantor][gref].frame)
          else None
    }

    lemma GrantedAgrees(grantor: nat, gref: nat)
      requires Valid()
      ensures GrantedFrame(grantor, gref) == abs.GrantedFrame(grantor, gref)
      ensures GrantedFrame(grantor, gref).Some? ==>
                entries[grantor][gref].grantee == abs.entries[grantor][gref].grantee
    {
    }

    /** Whether a grantor offers this domain the frame, writably if asked. */
    method Authorizes(grantor: nat, grantee: nat, frame: nat, writable: bool) returns (offered: bool)
      requires Valid()
      ensures offered == M.Authorizes(abs, grantor, grantee, frame, writable)
    {
      hide M.Inv, M.Over, M.WritableOver, MapsHold;
      Shape();
      if grantor >= |entries| {
        return false;
      }
      for g := 0 to |entries[grantor]|
        invariant forall i | 0 <= i < g :: !M.Offers(abs, grantor, i, grantee, frame, writable)
      {
        EntryAt(entries, abs, grantor, g);
        var e := entries[grantor][g];
        if e.Access? && e.grantee == grantee && e.frame == frame && (!writable || !e.readonly) {
          assert M.Offers(abs, grantor, g, grantee, frame, writable);
          return true;
        }
      }
      return false;
    }

    // ----- teardown -----

    /** Unmap these mappings one by one. */
    method UnmapEach(handles: seq<M.Handle>) returns (released: seq<M.Unmapped>)
      requires Valid()
      requires forall i, j | 0 <= i < j < |handles| :: handles[i] != handles[j]
      requires forall i | 0 <= i < |handles| :: handles[i] in abs.maps
      modifies this
      ensures Valid() && abs == M.Discard(old(abs), M.SetOf(handles))
      ensures Released(old(abs), handles, released)
    {
      hide M.Inv, EntriesCount, MapsHold;
      ghost var s := abs;
      released := [];
      M.SetOfEnds(s, handles);
      for n := 0 to |handles|
        invariant Valid() && |released| == n
        invariant abs == M.Discard(s, M.SetOf(handles[..n]))
        invariant forall i | 0 <= i < n :: M.FrameOf(s, s.maps[handles[i]]) == Some(released[i].frame)
                                           && released[i].writable == s.maps[handles[i]].writable
      {
        assert handles[n] !in M.SetOf(handles[..n]);
        M.BackedAt(abs, handles[n]);
        var r := Unmap(handles[n].grantee, handles[n].number);
        released := released + [r.value];
        M.SetOfNext(s, handles, n);
      }
    }

    /** Release every mapping the grantee holds. */
    method DrainMapsOf(grantee: nat) returns (released: seq<M.Unmapped>, ghost handles: seq<M.Handle>)
      requires Valid()
      modifies this
      ensures Valid() && abs == M.Discard(old(abs), M.HeldBy(old(abs), grantee))
      ensures Released(old(abs), handles, released) && M.SetOf(handles) == M.HeldBy(old(abs), grantee)
    {
      var held := [];
      for i := 0 to |maps|
        invariant forall a, b | 0 <= a < b < |held| :: held[a] != held[b]
        invariant forall h :: h in held <==> h in abs.maps && h.grantee == grantee && place[h] < i
      {
        if maps[i].active && maps[i].grantee == grantee {
          held := held + [maps[i].Key()];
        }
      }
      assert forall h :: h in held <==> h in M.HeldBy(abs, grantee);
      assert M.SetOf(held) == M.HeldBy(abs, grantee);
      released := UnmapEach(held);
      handles := held;
    }

    /** Release every mapping another domain holds of the target's grants. */
    method DrainForeignMapsOf(target: nat) returns (released: seq<M.Unmapped>, ghost handles: seq<M.Handle>)
      requires Valid()
      modifies this
      ensures Valid() && abs == M.Discard(old(abs), M.ForeignOver(old(abs), target))
      ensures Released(old(abs), handles, released) && M.SetOf(handles) == M.ForeignOver(old(abs), target)
    {
      var held := [];
      for i := 0 to |maps|
        invariant forall a, b | 0 <= a < b < |held| :: held[a] != held[b]
        invariant forall h ::
                    h in held
                    <==> h in abs.maps && abs.maps[h].grantor == target && h.grantee != target && place[h] < i
      {
        if maps[i].active && maps[i].grantor == target && maps[i].grantee != target {
          held := held + [maps[i].Key()];
        }
      }
      assert forall h :: h in held <==> h in M.ForeignOver(abs, target);
      assert M.SetOf(held) == M.ForeignOver(abs, target);
      released := UnmapEach(held);
      handles := held;
    }

    /** End one grant if it stands and nobody maps it. */
    method EndIfGranted(grantor: nat, gref: nat, ghost s: M.State, ghost done: set<(nat, nat)>)
      requires Valid() && abs == M.Ended(s, done) && abs.Has(grantor, gref)
      modifies this`entries, this`abs
      ensures Valid()
      ensures abs == M.Ended(s, done + if M.Over(s.maps, grantor, gref) == {} then {(grantor, gref)} else {})
    {
      hide M.Inv, M.Over, MapsHold;
      FindAgrees(grantor, gref);
      M.EndedOne(s, done, grantor, gref);
      assert done + {} == done;
      if entries[grantor][gref].Access? {
        var _ := EndAccess(grantor, gref);
      }
    }

    /** End every grant the grantor offers that is not mapped. */
    method RevokeAll(grantor: nat)
      requires Valid()
      modifies this`entries, this`abs
      ensures Valid() && abs == M.RevokeAll(old(abs), grantor)
    {
      hide Valid, M.Over;
      ghost var s, done: set<(nat, nat)> := abs, {};
      M.EndedNone(s);
      Shape();
      if grantor < |entries| {
        for gref := 0 to |entries[grantor]|
          invariant Valid() && |entries| == |s.entries| && |entries[grantor]| == |s.entries[grantor]|
          invariant abs == M.Ended(s, done)
          invariant forall d: nat, g: nat :: (d, g) in done <==> d == grantor && g < gref && M.Over(s.maps, d, g) == {}
        {
          EndIfGranted(grantor, gref, s, done);
          done := done + if M.Over(s.maps, grantor, gref) == {} then {(grantor, gref)} else {};
          Shape();
        }
      }
      M.EndedIsRevokeAll(s, done, grantor);
    }

    /** End one grant if it names the grantee and nobody maps it. */
    method EndIfNaming(grantor: nat, gref: nat, grantee: nat, ghost s: M.State, ghost done: set<(nat, nat)>)
      requires Valid() && abs == M.Ended(s, done) && abs.Has(grantor, gref) && (grantor, gref) !in done
      modifies this`entries, this`abs
      ensures Valid()
      ensures abs == M.Ended(s, done + if M.Naming(s, grantor, gref, grantee) && M.Over(s.maps, grantor, gref) == {}
                                       then {(grantor, gref)} else {})
    {
      hide M.Inv, M.Over, EntriesCount, MapsHold;
      FindAgrees(grantor, gref);
      assert done + {} == done;
      if entries[grantor][gref].Access? && entries[grantor][gref].grantee == grantee {
        EndIfGranted(grantor, gref, s, done);
      }
    }

    /** End every grant that names the grantee and is not mapped, whoever offers it. */
    method RevokeGrantsTo(grantee: nat)
      requires Valid()
      modifies this`entries, this`abs
      ensures Valid() && abs == M.RevokeTo(old(abs), grantee)
    {
      hide Valid, M.Naming, M.Over;
      ghost var s, done: set<(nat, nat)> := abs, {};
      M.EndedNone(s);
      Shape();
      for grantor := 0 to |entries|
        invariant Valid() && |entries| == |s.entries|
        invariant abs == M.Ended(s, done)
        invariant forall d: nat, g: nat | s.Has(d, g) ::
                    (d, g) in done <==> d < grantor && M.Naming(s, d, g, grantee) && M.Over(s.maps, d, g) == {}
      {
        Shape();
        for gref := 0 to |entries[grantor]|
          invariant Valid() && |entries| == |s.entries| && |entries[grantor]| == |s.entries[grantor]|
          invariant abs == M.Ended(s, done)
          invariant forall d: nat, g: nat | s.Has(d, g) ::
                      (d, g) in done <==> (d < grantor || (d == grantor && g < gref))
                                          && M.Naming(s, d, g, grantee) && M.Over(s.maps, d, g) == {}
        {
          EndIfNaming(grantor, gref, grantee, s, done);
          done := done + if M.Naming(s, grantor, gref, grantee) && M.Over(s.maps, grantor, gref) == {}
                         then {(grantor, gref)} else {};
          Shape();
        }
      }
      M.EndedIsRevokeTo(s, done, grantee);
    }

    lemma Shape()
      requires Valid()
      ensures |entries| == |abs.entries| && forall d | 0 <= d < |entries| :: |entries[d]| == |abs.entries[d]|
    {
    }
  }
}
