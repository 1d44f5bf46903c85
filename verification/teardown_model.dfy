/** Tearing a domain down step by step: each step is possible only because of the ones before it,
    and together they are the one-shot filter `Destroyed`. */
module TeardownModel {
  import opened Basics
  import opened HypervisorModel
  import opened HypervisorSafety
  import G = GrantModel
  import P = P2mModel

  /** Giving back one mapping's reference removes no entry and no frame. */
  lemma MirrorShrinks(g: G.State, p: P.State, h: G.Handle, owner: nat)
    requires G.Inv(g) && P.Inv(p) && Backed(g, p) && h in g.maps
    ensures G.Unmap(g, h.grantee, h.number).Success?
    ensures P.Shrunk(p, Mirrored(p, G.Unmap(g, h.grantee, h.number).value.released), owner)
  {
    hide P.Inv, G.Inv, Backed;
    MirrorNeverRefused(g, p, h);
  }

  lemma ShrunkReflexive(p: P.State, owner: nat)
    ensures P.Shrunk(p, p, owner)
  {
  }

  lemma RevokeKeepsMaps(g: G.State, t: nat)
    ensures G.RevokeAll(g, t).maps == g.maps
  {
  }

  /** Cutting entries moves no mapping and no frame. */
  lemma CutKeepsBacked(g: G.State, p: P.State, keys: set<P.Key>)
    requires Backed(g, p)
    ensures Backed(g, P.Cut(p, keys))
  {
    hide P.Cut, LooseOf, G.FrameOf, P.Held;
    forall h | h in g.maps
      ensures MapOwned(g, P.Cut(p, keys), h)
    {
      MapOwnedAt(g, p, h);
      P.CutOwners(p, keys, G.FrameOf(g, g.maps[h]).value);
    }
    forall m: nat | P.Cut(p, keys).Allocated(m)
      ensures P.Cut(p, keys).pages[m].loose == LooseOf(g, m)
    {
      P.CutOwners(p, keys, m);
      LooseAt(g, p, m);
      P.CutPage(p, keys, m);
    }
  }

  /** The grant side: draining what others map, then what the target maps, then revoking, is the
      one-shot teardown. */
  lemma GrantSteps(g: G.State, t: nat)
    requires G.Inv(g)
    ensures var g1 := G.Discard(g, G.ForeignOver(g, t));
            var g2 := G.Discard(g1, G.HeldBy(g1, t));
            && g2.entries == g.entries
            && (forall h | h in g2.maps :: h.grantee != t && g2.maps[h].grantor != t)
            && G.RevokeTo(G.RevokeAll(g2, t), t) == G.Teardown(g, t)
  {
    var g1 := G.Discard(g, G.ForeignOver(g, t));
    var g2 := G.Discard(g1, G.HeldBy(g1, t));
    assert g2.maps == g.maps - (G.HeldBy(g, t) + G.ForeignOver(g, t));
    G.DiscardKeepsInv(g, G.HeldBy(g, t) + G.ForeignOver(g, t));
    hide G.Inv, G.RevokeAll, G.RevokeTo, G.Withdraw;
    G.RevocationsWithdraw(g2, t);
  }

  /** The states the pages go through. */
  datatype Stages = Stages(start: P.State, drained: P.State, released: P.State)

  /** The pages once the foreign entries onto the target's frames are gone. */
  function Severed(s: Stages, t: nat): P.State {
    P.Cut(s.drained, P.ForeignInto(s.drained, t))
  }

  /** Own and foreign mappings given back, and the foreign entries severed in between. */
  ghost predicate Reached(g: G.State, s: Stages, t: nat, g2: G.State) {
    && P.Shrunk(s.start, s.drained, t) && SameHands(s.start, s.drained)
    && P.Shrunk(Severed(s, t), s.released, t) && SameHands(Severed(s, t), s.released)
    && P.Inv(s.released) && Backed(g2, s.released)
    && g2.entries == g.entries
    && (forall h | h in g2.maps :: h in g.maps && g2.maps[h] == g.maps[h] && h.grantee != t && g2.maps[h].grantor != t)
  }

  function Unpinned(s: Stages, t: nat): P.State {
    P.UnpinAll(P.Cut(s.released, P.RootedAt(s.released, t)), t)
  }

  lemma SeveredOwners(s: Stages, t: nat, m: nat)
    requires SameHands(s.start, s.drained)
    requires SameHands(Severed(s, t), s.released)
    ensures s.released.OwnerOf(m) == s.start.OwnerOf(m)
    ensures P.Cut(s.released, P.RootedAt(s.released, t)).OwnerOf(m) == s.start.OwnerOf(m)
    ensures s.drained.OwnerOf(m) == s.start.OwnerOf(m)
  {
  }

  /** Severing the foreign entries and then cutting the target's own leaves exactly the entries that
      touch none of its frames. */
  lemma EntriesLeft(g: G.State, s: Stages, t: nat, g2: G.State)
    requires Reached(g, s, t, g2)
    ensures P.Cut(s.released, P.RootedAt(s.released, t)).links == s.start.links - P.Touching(s.start, t)
  {
    hide P.Cut, P.Shrunk, Backed, P.Inv;
    P.CutKeys(s.drained, P.ForeignInto(s.drained, t));
    P.CutKeys(s.released, P.RootedAt(s.released, t));
    forall k | k in s.start.links
      ensures s.released.OwnerOf(k.parent) == s.start.OwnerOf(k.parent)
      ensures s.drained.OwnerOf(k.parent) == s.start.OwnerOf(k.parent)
      ensures s.drained.OwnerOf(s.start.links[k].child) == s.start.OwnerOf(s.start.links[k].child)
    {
      SeveredOwners(s, t, k.parent);
      SeveredOwners(s, t, s.start.links[k].child);
    }
    assert s.drained.links == s.start.links;
  }

  lemma StagesShrink(g: G.State, s: Stages, t: nat, g2: G.State)
    requires Reached(g, s, t, g2)
    ensures P.Shrunk(s.start, Unpinned(s, t), t)
    ensures Unpinned(s, t).links == s.start.links - P.Touching(s.start, t)
    ensures forall m: nat | s.released.Allocated(m) ::
              Unpinned(s, t).Allocated(m) && Unpinned(s, t).pages[m].loose == s.released.pages[m].loose
              && (s.released.pages[m].owner == t ==> !Unpinned(s, t).pages[m].pinned)
    ensures forall m: nat :: Unpinned(s, t).OwnerOf(m) == s.start.OwnerOf(m)
  {
    hide P.Cut, P.Shrunk, P.UnpinAll, P.Held, Backed, P.Inv;
    var severed := Severed(s, t);
    var cut := P.Cut(s.released, P.RootedAt(s.released, t));
    P.CutShrinks(s.drained, P.ForeignInto(s.drained, t), t);
    P.CutShrinks(s.released, P.RootedAt(s.released, t), t);
    P.UnpinAllShrinks(cut, t);
    P.ShrunkTransitive(s.start, s.drained, severed, t);
    P.ShrunkTransitive(s.start, severed, s.released, t);
    P.ShrunkTransitive(s.start, s.released, cut, t);
    P.ShrunkTransitive(s.start, cut, Unpinned(s, t), t);
    EntriesLeft(g, s, t, g2);
    forall m: nat | s.released.Allocated(m)
      ensures cut.Allocated(m) && cut.pages[m].loose == s.released.pages[m].loose
              && cut.pages[m].owner == s.released.pages[m].owner
    {
      P.CutPage(s.released, P.RootedAt(s.released, t), m);
    }
    forall m: nat
      ensures Unpinned(s, t).OwnerOf(m) == s.start.OwnerOf(m)
    {
      SeveredOwners(s, t, m);
      P.UnpinOwners(cut, t, m);
    }
  }

  /** By the time the frames are freed nothing refers to them. */
  lemma NothingLeft(g: G.State, s: Stages, t: nat, g2: G.State, m: nat)
    requires Reached(g, s, t, g2) && P.Inv(Unpinned(s, t))
    requires Unpinned(s, t).OwnerOf(m) == Some(t)
    ensures P.Refs(Unpinned(s, t), m) == 0
  {
    hide P.Cut, P.Shrunk, P.UnpinAll, P.Held, P.Refs, P.Inv, Unpinned;
    StagesShrink(g, s, t, g2);
    SeveredOwners(s, t, m);
    LooseAt(g2, s.released, m);
    OwnedUnreached(g2, s.released, t, m);
    forall k | k in Unpinned(s, t).links
      ensures k.parent != m && Unpinned(s, t).links[k].child != m
    {
      assert k in s.start.links && k !in P.Touching(s.start, t);
      ShrunkLink(s.start, Unpinned(s, t), t, k);
      assert s.start.OwnerOf(m) == Some(t);
    }
    P.NothingHolds(Unpinned(s, t), m);
  }

  lemma ShrunkLink(a: P.State, b: P.State, owner: nat, k: P.Key)
    requires P.Shrunk(a, b, owner) && k in b.links
    ensures k in a.links && b.links[k] == a.links[k]
  {
  }

  lemma OwnedUnreached(g: G.State, p: P.State, t: nat, m: nat)
    requires Backed(g, p) && p.OwnerOf(m) == Some(t) && forall h | h in g.maps :: g.maps[h].grantor != t
    ensures LooseOf(g, m) == P.NONE_LOOSE
  {
  }

  /** The pages end where the one-shot teardown puts them. */
  lemma PageSteps(g: G.State, s: Stages, t: nat, g2: G.State)
    requires Reached(g, s, t, g2) && G.Inv(g) && G.RevokeTo(G.RevokeAll(g2, t), t) == G.Teardown(g, t)
    requires P.Inv(Unpinned(s, t)) && P.Inv(P.FreeAll(Unpinned(s, t), t))
    ensures P.FreeAll(Unpinned(s, t), t) == P.Teardown(s.start, t, Backing(G.Teardown(g, t), |s.start.pages|))
  {
    var end, loose := P.FreeAll(Unpinned(s, t), t), Backing(G.Teardown(g, t), |s.start.pages|);
    hide P.Cut, P.Shrunk, P.UnpinAll, P.FreeAll, P.Held, P.Inv, P.Teardown, Unpinned, G.Teardown, G.Inv, LooseOf,
      G.RevokeAll, G.RevokeTo, P.Refs;
    StagesShrink(g, s, t, g2);
    forall m: nat | Unpinned(s, t).OwnerOf(m) == Some(t)
      ensures P.Refs(Unpinned(s, t), m) == 0
    {
      NothingLeft(g, s, t, g2, m);
    }
    P.FreeAllShrinks(Unpinned(s, t), t);
    P.ShrunkTransitive(s.start, Unpinned(s, t), end, t);
    forall m: nat | end.Allocated(m)
      ensures m < |loose| && end.pages[m].loose == loose[m]
    {
      assert end.OwnerOf(m) != Some(t);
      SeveredOwners(s, t, m);
      ShrunkSize(s.start, end, t);
      LooseAt(g2, s.released, m);
      RevokedReaches(g, g2, t, m);
    }
    P.TeardownUnique(s.start, end, t, loose);
  }

  lemma ShrunkSize(a: P.State, b: P.State, owner: nat)
    requires P.Shrunk(a, b, owner)
    ensures |a.pages| == |b.pages|
  {
  }

  /** Revoking unmapped grants changes what no surviving mapping reaches. */
  lemma RevokedReaches(g: G.State, g2: G.State, t: nat, m: nat)
    requires G.Inv(g) && g2.entries == g.entries && G.RevokeTo(G.RevokeAll(g2, t), t) == G.Teardown(g, t)
    requires forall h | h in g2.maps ::
               h in g.maps && g2.maps[h] == g.maps[h] && h.grantee != t && g2.maps[h].grantor != t
    ensures LooseOf(G.Teardown(g, t), m) == LooseOf(g2, m)
  {
    hide G.Teardown;
    var g' := G.Teardown(g, t);
    assert g'.maps == g2.maps;
    forall h | h in g2.maps
      ensures G.FrameOf(g', g2.maps[h]) == G.FrameOf(g2, g2.maps[h])
    {
      G.BackedAt(g, h);
    }
    assert G.Reaching(g', m, false) == G.Reaching(g2, m, false);
    assert G.Reaching(g', m, true) == G.Reaching(g2, m, true);
  }
}
