/** Lifetimes of merged edges: slots of active states, owner chains, release counts and the
    entries of the edge index. */
module Ownership {
  import opened SolverTypes
  import opened KeyGraph
  import opened EdgeIndex

  datatype Slot = Slot(vertex: Digest, index: int)

  /** `releases` counts how often the result of the edge has been released. */
  datatype EdgeRec = EdgeRec(slot: Slot, owner: Option<EdgeID>, releaserCount: nat, releases: nat)

  type Recs = map<EdgeID, EdgeRec>

  /** Owner chains end: `root` is where they end, and `rank` grows along them. */
  ghost predicate Chains(recs: Recs, root: map<EdgeID, EdgeID>, rank: map<EdgeID, nat>) {
    root.Keys == rank.Keys == recs.Keys && forall e | e in recs :: ChainAt(recs, root, rank, e)
  }

  ghost predicate ChainAt(recs: Recs, root: map<EdgeID, EdgeID>, rank: map<EdgeID, nat>, e: EdgeID)
    requires root.Keys == rank.Keys == recs.Keys && e in recs
  {
    && root[e] in recs && recs[root[e]].owner.None?
    && match recs[e].owner
       case None => root[e] == e
       case Some(o) => o in recs && root[e] == root[o] && rank[e] < rank[o] && recs[e].releases == 1
  }

  /** The slots that resolve to edge r. */
  ghost function SlotsOf(slots: map<Slot, EdgeID>, root: map<EdgeID, EdgeID>, r: EdgeID): set<Slot> {
    set s | s in slots && slots[s] in root && root[slots[s]] == r
  }

  /** An edge that owns itself needs as many releases as there are slots that resolve to it, and its
      result has been released exactly if there are none. */
  ghost predicate Counted(recs: Recs, root: map<EdgeID, EdgeID>, slots: map<Slot, EdgeID>, r: EdgeID)
    requires r in recs
  {
    var n := |SlotsOf(slots, root, r)|;
    recs[r].owner.None? ==>
      if n == 0 then recs[r].releases == 1 else recs[r].releases == 0 && recs[r].releaserCount + 1 == n
  }

  ghost predicate AllCounted(recs: Recs, root: map<EdgeID, EdgeID>, slots: map<Slot, EdgeID>) {
    forall r | r in recs :: Counted(recs, root, slots, r)
  }

  /** Items of the index name only edges that own themselves and are not released. */
  ghost predicate NamesRoots(items: Items, recs: Recs) {
    forall a | a in items && items[a].edge.Some? ::
      items[a].edge.value in recs && recs[items[a].edge.value].owner.None? && recs[items[a].edge.value].releases == 0
  }

  /** An edge that owns itself and is in use. */
  predicate Live(recs: Recs, e: EdgeID) {
    e in recs && recs[e].owner.None? && recs[e].releases == 0
  }

  ghost predicate SlotsKnown(slots: map<Slot, EdgeID>, recs: Recs) {
    forall s | s in slots :: slots[s] in recs
  }

  lemma AddSlot(recs: Recs, root: map<EdgeID, EdgeID>, slots: map<Slot, EdgeID>, s: Slot, e: EdgeID)
    requires AllCounted(recs, root, slots) == true && SlotsKnown(slots, recs) && root.Keys == recs.Keys
    requires s !in slots && e !in recs && forall x | x in root :: root[x] in recs
    ensures AllCounted(recs[e := EdgeRec(s, None, 0, 0)], root[e := e], slots[s := e])
    ensures SlotsOf(slots[s := e], root[e := e], e) == {s}
  {
    var recs', root', slots' := recs[e := EdgeRec(s, None, 0, 0)], root[e := e], slots[s := e];
    forall r | r in recs' ensures Counted(recs', root', slots', r) {
      if r == e {
        assert SlotsOf(slots', root', e) == {s};
      } else {
        assert Counted(recs, root, slots, r);
        assert SlotsOf(slots', root', r) == SlotsOf(slots, root, r);
      }
    }
  }

  /** root after everything that ended at src ends at target. */
  ghost function Redirected(root: map<EdgeID, EdgeID>, target: EdgeID, src: EdgeID): map<EdgeID, EdgeID> {
    map e | e in root :: if root[e] == src then target else root[e]
  }

  function Owned(recs: Recs, target: EdgeID, src: EdgeID): Recs
    requires target in recs && src in recs && target != src
  {
    recs[target := recs[target].(releaserCount := recs[target].releaserCount + recs[src].releaserCount + 1)]
        [src := recs[src].(owner := Some(target), releases := recs[src].releases + 1)]
  }

  lemma MergeCounts(recs: Recs, root: map<EdgeID, EdgeID>, slots: map<Slot, EdgeID>, target: EdgeID, src: EdgeID)
    requires AllCounted(recs, root, slots) == true && target in recs && src in recs && target != src
    requires root.Keys == recs.Keys && recs[target].owner.None? && recs[src].owner.None?
    requires SlotsOf(slots, root, target) != {} && SlotsOf(slots, root, src) != {}
    ensures AllCounted(Owned(recs, target, src), Redirected(root, target, src), slots)
  {
    var recs', root' := Owned(recs, target, src), Redirected(root, target, src);
    assert Counted(recs, root, slots, target) && Counted(recs, root, slots, src);
    forall r | r in recs' ensures Counted(recs', root', slots, r) {
      assert Counted(recs, root, slots, r);
      if r == target {
        assert SlotsOf(slots, root', r) == SlotsOf(slots, root, target) + SlotsOf(slots, root, src);
      } else if r != src {
        assert SlotsOf(slots, root', r) == SlotsOf(slots, root, r);
      }
    }
  }

  /** One release of edge r. */
  function ReleasedOnce(recs: Recs, r: EdgeID): Recs
    requires r in recs
  {
    recs[r := if recs[r].releaserCount > 0 then recs[r].(releaserCount := recs[r].releaserCount - 1)
              else recs[r].(releases := recs[r].releases + 1)]
  }

  lemma ReleaseCounts(recs: Recs, root: map<EdgeID, EdgeID>, slots: map<Slot, EdgeID>, s: Slot)
    requires AllCounted(recs, root, slots) == true && root.Keys == recs.Keys
    requires s in slots && slots[s] in root && root[slots[s]] in recs && recs[root[slots[s]]].owner.None?
    ensures AllCounted(ReleasedOnce(recs, root[slots[s]]), root, slots - {s})
    ensures recs[root[slots[s]]].releases == 0
    ensures recs[root[slots[s]]].releaserCount == 0 <==> SlotsOf(slots, root, root[slots[s]]) == {s}
  {
    var r := root[slots[s]];
    var recs' := ReleasedOnce(recs, r);
    assert Counted(recs, root, slots, r) && s in SlotsOf(slots, root, r);
    if |SlotsOf(slots, root, r)| == 1 { OneSlot(SlotsOf(slots, root, r), s); }
    forall q | q in recs' ensures Counted(recs', root, slots - {s}, q) {
      assert Counted(recs, root, slots, q);
      assert SlotsOf(slots - {s}, root, q) == SlotsOf(slots, root, q) - {s};
    }
  }

  lemma OneSlot(ss: set<Slot>, s: Slot)
    requires |ss| == 1 && s in ss
    ensures ss == {s}
  {
    assert |ss - {s}| == 0;
  }

  function Outranked(rank: map<EdgeID, nat>, target: EdgeID, src: EdgeID): map<EdgeID, nat>
    requires target in rank && src in rank
  {
    rank[target := if rank[src] < rank[target] then rank[target] else rank[src] + 1]
  }

  lemma MergeChains(recs: Recs, root: map<EdgeID, EdgeID>, rank: map<EdgeID, nat>, target: EdgeID, src: EdgeID)
    requires Chains(recs, root, rank) == true && target in recs && src in recs && target != src
    requires recs[target].owner.None? && recs[src].owner.None? && recs[src].releases == 0
    ensures Chains(Owned(recs, target, src), Redirected(root, target, src), Outranked(rank, target, src))
  {
    var recs', root', rank' := Owned(recs, target, src), Redirected(root, target, src), Outranked(rank, target, src);
    assert recs'.Keys == recs.Keys && root'.Keys == root.Keys && rank'.Keys == rank.Keys;
    forall e | e in recs ensures ChainAt(recs', root', rank', e) {
      assert ChainAt(recs, root, rank, e) && ChainAt(recs, root, rank, target) && ChainAt(recs, root, rank, src);
      if recs[e].owner.Some? { assert ChainAt(recs, root, rank, recs[e].owner.value); }
    }
  }

  lemma NewChain(recs: Recs, root: map<EdgeID, EdgeID>, rank: map<EdgeID, nat>, s: Slot, e: EdgeID)
    requires Chains(recs, root, rank) == true && e !in recs
    ensures Chains(recs[e := EdgeRec(s, None, 0, 0)], root[e := e], rank[e := 0])
    ensures root.Keys == recs.Keys && forall x | x in root :: root[x] in recs
  {
  }

  lemma NamesMore(items: Items, recs: Recs, s: Slot, e: EdgeID)
    requires NamesRoots(items, recs) && e !in recs
    ensures NamesRoots(items, recs[e := EdgeRec(s, None, 0, 0)])
  {
  }

  lemma ReleasedChains(recs: Recs, root: map<EdgeID, EdgeID>, rank: map<EdgeID, nat>, r: EdgeID)
    requires Chains(recs, root, rank) == true && r in recs && recs[r].owner.None?
    ensures Chains(ReleasedOnce(recs, r), root, rank)
  {
  }

  lemma ChainDomains(recs: Recs, root: map<EdgeID, EdgeID>, rank: map<EdgeID, nat>)
    requires Chains(recs, root, rank) == true
    ensures root.Keys == rank.Keys == recs.Keys
  {
  }

  /** Edge e has left the index, with the items that have no use without it. */
  ghost predicate Left(index: Index, items: Items, backRefs: map<EdgeID, set<Id>>, e: EdgeID)
    reads index`items, index`backRefs
  {
    && index.backRefs == backRefs - {e}
    && Shrunk(WithoutEdges(items, if e in backRefs then backRefs[e] else {}), index.items, {})
  }

  function SlotsAt(slots: map<Slot, EdgeID>, d: Digest): set<Slot> {
    set s | s in slots && s.vertex == d
  }

  /** Every edge of the state is the edge of a slot of another state as well. */
  ghost predicate Shared(slots: map<Slot, EdgeID>, root: map<EdgeID, EdgeID>, d: Digest) {
    forall s | s in slots && s.vertex == d :: UsedElsewhere(slots, root, s)
  }

  ghost predicate UsedElsewhere(slots: map<Slot, EdgeID>, root: map<EdgeID, EdgeID>, s: Slot)
    requires s in slots
  {
    slots[s] in root && exists t | t in slots :: t.vertex != s.vertex && Settled(slots, root, t, root[slots[s]])
  }

  lemma StillShared(before: map<Slot, EdgeID>, slots: map<Slot, EdgeID>, root: map<EdgeID, EdgeID>, d: Digest, s: Slot)
    requires Shared(before, root, d) && s in slots && s in before && s.vertex == d && slots[s] == before[s]
    requires forall t | t in before && t.vertex != d :: t in slots && slots[t] == before[t]
    ensures slots[s] in root && SlotsOf(slots, root, root[slots[s]]) != {s}
  {
    assert UsedElsewhere(before, root, s);
    var t :| t in before && t.vertex != d && Settled(before, root, t, root[before[s]]);
    assert t in SlotsOf(slots, root, root[slots[s]]);
  }

  predicate SameOwner(a: EdgeRec, b: EdgeRec) {
    a.owner == b.owner && a.slot == b.slot
  }

  /** The slot resolves to edge e. */
  ghost predicate Settled(slots: map<Slot, EdgeID>, root: map<EdgeID, EdgeID>, s: Slot, e: EdgeID) {
    s in slots && slots[s] in root && root[slots[s]] == e
  }

  class Solver {
    var actives: set<Digest>
    var slots: map<Slot, EdgeID>   // the edges of all active states
    var recs: Recs
    var nextEdge: EdgeID
    const index: Index
    ghost var root: map<EdgeID, EdgeID>
    ghost var rank: map<EdgeID, nat>

    ghost predicate Tracked()
      reads this
    {
      && Chains(recs, root, rank) && AllCounted(recs, root, slots) && SlotsKnown(slots, recs)
      && (forall s | s in slots :: s.vertex in actives)
      && (forall e | e in recs :: e < nextEdge)
    }

    ghost predicate Valid()
      reads this, index
    {
      Tracked() && index.Valid() && NamesRoots(index.items, recs)
    }

    constructor (ignoreCache: EdgeID -> bool)
      ensures Valid() && slots == map[] && recs == map[] && fresh(index)
      ensures index.items == map[] && index.backRefs == map[] && index.indexIDs == map[]
        && index.ignoreCache == ignoreCache
    {
      actives, slots, recs, nextEdge := {}, map[], map[], 0;
      index := new Index(ignoreCache);
      root, rank := map[], map[];
    }

    /** A vertex is loaded: its state becomes active. */
    method Activate(d: Digest)
      requires Valid() == true
      modifies `actives
      ensures Valid() == true && actives == old(actives) + {d}
    {
      actives := actives + {d};
    }

    /** Follows the owners of an edge to the edge that owns itself. */
    method Resolve(e: EdgeID) returns (r: EdgeID)
      requires Chains(recs, root, rank) == true && e in recs
      ensures r == root[e] && r in recs && recs[r].owner.None?
    {
      r := e;
      while recs[r].owner.Some?
        invariant r in recs && root[r] == root[e]
        decreases MaxRank(rank) - rank[r]
      {
        RankBounded(rank, recs[r].owner.value);
        r := recs[r].owner.value;
      }
    }

    /** The edge of a slot: what the stored edge resolves to, or a new edge. */
    method GetEdge(s: Slot) returns (r: EdgeID)
      requires Valid() == true && s.vertex in actives
      modifies this
      ensures Valid() == true && s in slots && slots[s] in root && root[slots[s]] == r
      ensures r in recs && recs[r].releases == 0 && recs[r].owner.None?
      ensures s in old(slots) ==>
        r == old(root)[old(slots)[s]] && slots == old(slots) && recs == old(recs) && root == old(root)
      ensures s !in old(slots) ==> r !in old(recs) && slots == old(slots)[s := r] && SlotsOf(slots, root, r) == {s}
                                   && recs == old(recs)[r := EdgeRec(s, None, 0, 0)]
      ensures actives == old(actives)
    {
      if s in slots {
        r := Resolve(slots[s]);
        SlotOfRoot(recs, root, slots, s);
      } else {
        r := NewEdge(s);
      }
    }

    method NewEdge(s: Slot) returns (e: EdgeID)
      requires Valid() == true && s.vertex in actives && s !in slots
      modifies this
      ensures Valid() == true && e !in old(recs) && slots == old(slots)[s := e] && root == old(root)[e := e]
      ensures forall x | x in old(root) :: root[x] != e
      ensures recs == old(recs)[e := EdgeRec(s, None, 0, 0)] && SlotsOf(slots, root, e) == {s}
        && actives == old(actives)
    {
      hide Tracked, Index.Valid, NamesRoots, SlotsOf;
      e := nextEdge;
      NewAtEnd();
      NamesMore(index.items, recs, s, e);
      TrackNew(s);
    }

    lemma NewAtEnd()
      requires Tracked() == true
      ensures nextEdge !in recs && nextEdge !in root && forall x | x in root :: root[x] != nextEdge
    {
      assert root.Keys == recs.Keys;
      forall x | x in root ensures root[x] in recs { assert ChainAt(recs, root, rank, x); }
    }

    method TrackNew(s: Slot)
      requires Tracked() == true && s.vertex in actives && s !in slots && nextEdge !in recs
      modifies `recs, `root, `rank, `slots, `nextEdge
      ensures Tracked() == true && slots == old(slots)[s := old(nextEdge)]
        && root == old(root)[old(nextEdge) := old(nextEdge)]
      ensures recs == old(recs)[old(nextEdge) := EdgeRec(s, None, 0, 0)] && SlotsOf(slots, root, old(nextEdge)) == {s}
    {
      hide Chains, AllCounted, SlotsOf;
      var e := nextEdge;
      NewChain(recs, root, rank, s, e);
      AddSlot(recs, root, slots, s, e);
      recs, root, rank := recs[e := EdgeRec(s, None, 0, 0)], root[e := e], rank[e := 0];
      slots, nextEdge := slots[s := e], nextEdge + 1;
    }

    /** `target` answers for everything that resolves to `src` from now on; `src` leaves the index and
        its result is released. */
    method TakeOwnership(target: EdgeID, src: EdgeID)
      requires Valid() == true && Live(recs, target) && Live(recs, src) && target != src
      modifies `recs, `root, `rank, index
      ensures Valid() == true
      ensures recs == Owned(old(recs), target, src) && root == Redirected(old(root), target, src)
      ensures recs[src].releases == 1
      ensures Left(index, old(index.items), old(index.backRefs), src) && index.indexIDs == old(index.indexIDs)
    {
      hide Index.Valid, Tracked, NamesRoots, Left;
      ghost var before := recs;
      Own(target, src);
      ReleaseFromIndex(src, before);
    }

    method Own(target: EdgeID, src: EdgeID)
      requires Tracked() == true && Live(recs, target) && Live(recs, src) && target != src
      modifies `recs, `root, `rank
      ensures Tracked() == true && recs == Owned(old(recs), target, src) && root == Redirected(old(root), target, src)
      ensures recs[src].releases == 1
    {
      hide Chains, AllCounted, SlotsOf;
      ChainDomains(recs, root, rank);
      MergeChains(recs, root, rank, target, src);
      LiveHasSlots(recs, root, slots, target);
      LiveHasSlots(recs, root, slots, src);
      MergeCounts(recs, root, slots, target, src);
      rank := Outranked(rank, target, src);
      recs, root := Owned(recs, target, src), Redirected(root, target, src);
    }

    method ReleaseFromIndex(e: EdgeID, ghost before: Recs)
      requires index.Valid() == true && NamesRoots(index.items, before) && before.Keys <= recs.Keys
      requires forall x | x in before && x != e ::
        recs[x].owner == before[x].owner && recs[x].releases == before[x].releases
      modifies index
      ensures index.Valid() == true && NamesRoots(index.items, recs)
      ensures forall a | a in index.items :: index.items[a].edge != Some(e)
      ensures Left(index, old(index.items), old(index.backRefs), e) && index.indexIDs == old(index.indexIDs)
    {
      hide Index.Valid;
      index.Release(e);
    }

    /** A slot of an active state that has an edge resolves to src. */
    ghost predicate Resolves(s: Slot, src: EdgeID)
      reads `actives, `slots, `root
    {
      s.vertex in actives && Settled(slots, root, s, src)
    }

    /** Makes a slot resolve to `target`; the edge it resolved to, or a new one, is merged into it. Nothing happens if
        the state of the slot is not active. */
    method SetEdge(s: Slot, target: EdgeID)
      requires Valid() == true && Live(recs, target)
      modifies this, index
      ensures Valid() == true && actives == old(actives) && Live(recs, target) && index.indexIDs == old(index.indexIDs)
      ensures s.vertex !in actives || old(Resolves(s, target)) ==>
        slots == old(slots) && root == old(root) && recs == old(recs) && unchanged(index)
      ensures forall e | e != target && old(Resolves(s, e)) ::
        && slots == old(slots) && recs == Owned(old(recs), target, e) && root == Redirected(old(root), target, e)
        && Left(index, old(index.items), old(index.backRefs), e)
      ensures s.vertex in actives ==> s in slots && slots[s] in root && root[slots[s]] == target
      ensures s.vertex in actives && s !in old(slots) ==>
        && slots[s] !in old(recs) && slots == old(slots)[s := slots[s]]
        && recs == Owned(old(recs)[slots[s] := EdgeRec(s, None, 0, 0)], target, slots[s])
        && root == Redirected(old(root)[slots[s] := slots[s]], target, slots[s])
    {
      hide Tracked, Index.Valid, NamesRoots, Left;
      if s.vertex !in actives { return; }
      if s in slots {
        KnownSlot(s);
        var e := Resolve(slots[s]);
        if e == target { return; }
        TakeOwnership(target, e);
      } else {
        var e := NewEdge(s);
        TakeOwnership(target, e);
      }
    }

    lemma KnownSlot(s: Slot)
      requires Tracked() == true && s in slots
      ensures Chains(recs, root, rank) && slots[s] in recs && slots[s] in root && Live(recs, root[slots[s]])
    {
      assert ChainAt(recs, root, rank, slots[s]);
      SlotOfRoot(recs, root, slots, s);
    }

    /** Another edge stored under a key that k matches; or e is stored. An edge that is not in use is stored as well,
        and exactly then the index names an edge that it should not. */
    method LookUp(k: Key, e: EdgeID)
      returns (other: Option<EdgeID>, ghost id: Id, ghost mid: Items, ghost matches: set<Id>)
      requires Valid() == true && e in recs
      modifies index
      ensures index.Valid() == true && (NamesRoots(index.items, recs) <==> other.Some? || Live(recs, e))
      ensures other.Some? ==> Live(recs, other.value) && other.value != e
      ensures Looked(index.ignoreCache, k, e, old(index.items), old(index.indexIDs), other, id, mid, matches,
                     index.items, index.indexIDs)
      ensures index.backRefs == if other.Some? then old(index.backRefs) else Referring(old(index.backRefs), e, id)
    {
      hide Chains, AllCounted, SlotsKnown, DepsKnown, KeepsEdges, MemoGrows, Matches, NoOther, Cyclic, OnlyUnknown,
        Identified,
           Index.Valid, LinkedUnder, Grew, NoNewEdge, NewlyLinked;
      ghost var steps;
      other, id, mid, matches, steps := index.LoadOrStore(k, e);
      KeptRoots(old(index.items), index.items, id, e, recs);
    }

    /** src is owned by dest exactly if the state of its own slot is active and the slot has still resolved to it. Else
        nothing about src has changed, and the same slots resolve to it. */
    twostate predicate Joined(dest: EdgeID, src: EdgeID)
      requires src in old(recs) && dest in old(recs) && dest != src
      reads this
    {
      if old(Resolves(recs[src].slot, src)) then
        && slots == old(slots) && recs == Owned(old(recs), dest, src) && root == Redirected(old(root), dest, src)
      else
        && src in recs && recs[src] == old(recs)[src]
        && forall s | s in old(slots) ::
          s in slots && (Settled(slots, root, s, src) <==> Settled(old(slots), old(root), s, src))
    }

    method Join(dest: EdgeID, src: EdgeID)
      requires Valid() == true && Live(recs, dest) && src in recs && src != dest
      modifies this, index
      ensures Valid() == true && Live(recs, dest) && actives == old(actives) && index.indexIDs == old(index.indexIDs)
      ensures Joined(dest, src)
        && (old(Resolves(recs[src].slot, src)) ==> Left(index, old(index.items), old(index.backRefs), src))
    {
      hide Valid, Left;
      RootsKnown();
      var s := recs[src].slot;
      assert s.vertex in actives && s in slots ==> Resolves(s, root[slots[s]]);
      SetEdge(s, dest);
    }

    lemma RootsKnown()
      requires Valid() == true
      ensures (forall x | x in root :: root[x] in recs) && root.Keys == recs.Keys
      ensures forall s | s in slots :: slots[s] in recs
    {
    }

    /** What the scheduler does after the keys of edge e changed: looks for another edge with the same keys and, unless
        one depends on the other, merges the two, in either direction. */
    method TryMerge(k: Key, e: EdgeID, dependent: bool, swap: bool)
      returns (other: Option<EdgeID>, ghost id: Id, ghost mid: Items, ghost matches: set<Id>, ghost now: Items)
      requires Valid() == true && e in recs && (swap ==> Live(recs, e))
      modifies this, index
      ensures Tracked() == index.Valid() == true && actives == old(actives)
      ensures Valid() <==> other.Some? || Live(old(recs), e)
      ensures other.Some? ==> Live(old(recs), other.value) && other.value != e
      ensures other.None? || dependent ==>
        slots == old(slots) && recs == old(recs) && root == old(root) && now == index.items
      ensures other.Some? && !dependent && swap ==>
        Joined(e, other.value) && (old(Resolves(recs[other.value].slot, other.value)) ==>
          Left(index, now, old(index.backRefs), other.value))
      ensures other.Some? && !dependent && !swap ==>
        Joined(other.value, e) && (old(Resolves(recs[e].slot, e)) ==> Left(index, now, old(index.backRefs), e))
      ensures Looked(index.ignoreCache, k, e, old(index.items), old(index.indexIDs), other, id, mid, matches, now,
                     index.indexIDs)
      ensures other.None? ==> index.backRefs == Referring(old(index.backRefs), e, id)
    {
      hide Looked, Left, Tracked, Index.Valid, NamesRoots, SlotsOf, Resolves;
      other, id, mid, matches := LookUp(k, e);
      now := index.items;
      if other.Some? && !dependent {
        if swap { Join(e, other.value); } else { Join(other.value, e); }
      }
    }

    /** Releases one slot; the edge behind it is released with the last slot that resolves to it. */
    method ReleaseSlot(s: Slot)
      requires Valid() == true && s in slots
      modifies this, index
      ensures Valid() == true && slots == old(slots) - {s} && root == old(root) && actives == old(actives)
      ensures recs == ReleasedOnce(old(recs), old(root)[old(slots)[s]]) && recs.Keys == old(recs).Keys
      ensures recs[root[old(slots)[s]]].releases == (if SlotsOf(old(slots), root, root[old(slots)[s]]) == {s} then 1
        else 0)
      ensures SlotsOf(old(slots), root, root[old(slots)[s]]) != {s} ==> unchanged(index)
    {
      hide Chains, AllCounted, Index.Valid, SlotsOf;
      ChainDomains(recs, root, rank);
      var r := Resolve(slots[s]);
      ReleasedChains(recs, root, rank, r);
      ReleaseCounts(recs, root, slots, s);
      var last := recs[r].releaserCount == 0;
      ghost var before := recs;
      recs, slots := ReleasedOnce(recs, r), slots - {s};
      if last { ReleaseFromIndex(r, before); }
    }

    /** Releases a state: all its slots, and the state is no longer active. */
    method ReleaseState(d: Digest)
      requires Valid() == true
      modifies this, index
      ensures Valid() == true && actives == old(actives) - {d} && root == old(root)
      ensures slots == map s | s in old(slots) && s.vertex != d :: old(slots)[s]
      ensures recs.Keys == old(recs).Keys && forall r | r in recs :: SameOwner(recs[r], old(recs)[r])
      ensures Shared(old(slots), old(root), d) ==> unchanged(index)
    {
      hide Chains, AllCounted, Index.Valid, SlotsOf, NamesRoots, Shared;
      ChainDomains(recs, root, rank);
      var todo := SlotsAt(slots, d);
      while todo != {}
        invariant Valid() == true && actives == old(actives) && root == old(root) && root.Keys == recs.Keys
        invariant todo == SlotsAt(slots, d) && (Shared(old(slots), old(root), d) ==> unchanged(index))
        invariant slots.Keys <= old(slots).Keys
        invariant forall s | s in old(slots) && s.vertex != d :: s in slots
        invariant forall s | s in slots :: slots[s] == old(slots)[s]
        invariant recs.Keys == old(recs).Keys && forall r | r in recs :: SameOwner(recs[r], old(recs)[r])
        decreases todo
      {
        var s :| s in todo;
        if Shared(old(slots), old(root), d) { StillShared(old(slots), slots, root, d, s); }
        ReleaseSlot(s);
        todo := todo - {s};
      }
      assert forall s | s in slots :: s.vertex == d ==> s in todo;
      actives := actives - {d};
    }
  }

  /** The edge has been released once if it is owned or no slot resolves to it, and otherwise not, and the index does
      not name it once it has been released. */
  ghost predicate ReleasedRight(sv: Solver, e: EdgeID)
    requires e in sv.recs
    reads sv, sv.index
  {
    && sv.recs[e].releases == (if sv.recs[e].owner.Some? || SlotsOf(sv.slots, sv.root, e) == {} then 1 else 0)
    && (sv.recs[e].releases == 1 ==> forall a | a in sv.index.items :: sv.index.items[a].edge != Some(e))
  }

  /** In every valid state every edge has been released the right number of times. */
  lemma ReleasedExactlyOnce(sv: Solver, e: EdgeID)
    requires sv.Valid() && e in sv.recs
    ensures ReleasedRight(sv, e)
  {
    assert Counted(sv.recs, sv.root, sv.slots, e);
  }

  /** Whatever is loaded, asked for, merged and released, in any order, with any keys and in either direction, every
      edge has been released the right number of times, until a released edge is stored in the index. */
  method Run(ignoreCache: EdgeID -> bool, steps: nat) returns (sv: Solver, clean: bool)
    ensures clean ==> sv.Valid() && forall e | e in sv.recs :: ReleasedRight(sv, e)
  {
    hide Solver.Valid, ReleasedRight;
    sv := new Solver(ignoreCache);
    clean := true;
    for n := 0 to steps
      invariant fresh(sv) && fresh(sv.index) && (clean ==> sv.Valid() == true)
    {
      var step: Step := *;
      if clean { clean := Take(sv, step); }
    }
    if clean {
      forall e | e in sv.recs ensures ReleasedRight(sv, e) { ReleasedExactlyOnce(sv, e); }
    }
  }

  datatype Step =
    | Load(d: Digest) | Ask(s: Slot) | Merge(k: Key, e: EdgeID, dependent: bool, swap: bool) | Drop(d: Digest)

  /** Edges are asked for at active states; any edge, also one that is owned or released, may be looked up. An edge that
      owns another one is in use. */
  method Take(sv: Solver, step: Step) returns (clean: bool)
    requires sv.Valid() == true
    modifies sv, sv.index
    ensures sv.Valid() <==> clean
    ensures !clean ==> step.Merge? && !Live(old(sv.recs), step.e)
  {
    hide Solver.Valid, Looked, SlotsOf, Left;
    clean := true;
    match step
    case Load(d) => sv.Activate(d);
    case Ask(s) => if s.vertex in sv.actives { var r := sv.GetEdge(s); }
    case Merge(k, e, dependent, swap) =>
      if e in sv.recs && (swap ==> Live(sv.recs, e)) {
        var live := Live(sv.recs, e);
        var other, id, mid, matches, now := sv.TryMerge(k, e, dependent, swap);
        clean := other.Some? || live;
      }
    case Drop(d) => sv.ReleaseState(d);
  }

  /** An edge whose state has been released can still be looked up; then the index names a released edge. */
  method StoreReleased(ignoreCache: EdgeID -> bool, k: Key) returns (sv: Solver, e: EdgeID)
    ensures sv.Tracked() && sv.index.Valid() && !sv.Valid() && e in sv.recs && sv.recs[e].releases == 1
    ensures exists a | a in sv.index.items :: sv.index.items[a].edge == Some(e)
  {
    hide Solver.Valid, Solver.Tracked, SlotsOf, ReleasedRight, Left;
    sv, e := LoadAndRelease(ignoreCache);
    var other, id, mid, matches, now := sv.TryMerge(k, e, false, false);
    NamesIt(sv.index.ignoreCache, k, e, sv.index.items, other, id, mid, matches, now, sv.index.indexIDs);
  }

  lemma NamesIt(ignoreCache: EdgeID -> bool, k: Key, e: EdgeID, items: Items, other: Option<EdgeID>, id: Id, mid: Items,
                matches: set<Id>, now: Items, known: map<Key, seq<Id>>)
    requires exists before, memo :: Looked(ignoreCache, k, e, before, memo, other, id, mid, matches, now, known)
    requires other.None?
    ensures id in now && now[id].edge == Some(e)
  {
  }

  /** The only edge, whose state has been released. */
  method LoadAndRelease(ignoreCache: EdgeID -> bool) returns (sv: Solver, e: EdgeID)
    ensures sv.Valid() && sv.recs.Keys == {e} && sv.recs[e].releases == 1 && fresh(sv) && fresh(sv.index)
  {
    hide Solver.Valid;
    sv := new Solver(ignoreCache);
    sv.Activate("v");
    e := sv.GetEdge(Slot("v", 0));
    sv.ReleaseState("v");
    assert SlotsOf(sv.slots, sv.root, e) == {};
    ReleasedExactlyOnce(sv, e);
  }

  // ---- merges and dependencies ----

  datatype Vertex = Vertex(digest: Digest, inputs: seq<Vertex>)

  /** w is v or an input of v, at any depth. Such edges are not merged. */
  predicate IsDep(v: Vertex, w: Vertex) {
    v.digest == w.digest || exists i | 0 <= i < |v.inputs| :: IsDep(v.inputs[i], w)
  }

  /** Following the inputs along the path leads from v to a vertex with the digest. */
  ghost predicate Leads(v: Vertex, path: seq<nat>, d: Digest)
    decreases |path|
  {
    if path == [] then v.digest == d else path[0] < |v.inputs| && Leads(v.inputs[path[0]], path[1..], d)
  }

  lemma {:induction false} IsDepExactly(v: Vertex, w: Vertex)
    ensures IsDep(v, w) <==> exists path :: Leads(v, path, w.digest)
    decreases v
  {
    if v.digest == w.digest {
      assert Leads(v, [], w.digest);
      assert exists p :: Leads(v, p, w.digest);
    } else if IsDep(v, w) {
      var i :| 0 <= i < |v.inputs| && IsDep(v.inputs[i], w);
      IsDepExactly(v.inputs[i], w);
      var path :| Leads(v.inputs[i], path, w.digest);
      var longer: seq<nat> := [i] + path;
      assert longer[1..] == path;
      assert Leads(v, longer, w.digest);
      assert exists p :: Leads(v, p, w.digest);
    } else {
      forall path ensures !Leads(v, path, w.digest) {
        if path != [] && path[0] < |v.inputs| {
          var rest := path[1..];
          IsDepExactly(v.inputs[path[0]], w);
          assert !IsDep(v.inputs[path[0]], w) && !Leads(v.inputs[path[0]], rest, w.digest);
        }
      }
    }
  }

  function FirstSlot(v: Vertex): Slot { Slot(v.digest, 0) }

  /** X and Y are the same operations as the inputs of the other one, on other inputs. */
  function X(): Vertex { Vertex("x", [Vertex("y1", [Vertex("w", [])])]) }
  function Y(): Vertex { Vertex("y", [Vertex("x1", [Vertex("z", [])])]) }

  lemma Independent()
    ensures !IsDep(X(), Y().inputs[0]) && !IsDep(Y().inputs[0], X()) && !IsDep(Y(), X().inputs[0])
      && !IsDep(X().inputs[0], Y())
  {
    assert "x" != "x1" && "y" != "y1" && "x1" != "y1" && "x" != "y1" && "y" != "x1" by {
      assert |"x"| == |"y"| == 1 && |"x1"| == |"y1"| == 2 && "x1"[0] != "y1"[0];
    }
    assert "w" != "x" && "w" != "y" && "z" != "x" && "z" != "y" by {
      assert "w"[0] != "x"[0] && "w"[0] != "y"[0] && "z"[0] != "x"[0] && "z"[0] != "y"[0];
    }
    assert |"w"| == |"z"| == 1;
  }

  function RootOf(d: KeySel): Id { Root(d.key.digest, d.key.output) }

  /** The key of an operation f on one input that is known by the key d. */
  function KeyOn(ptr: nat, f: Digest, d: KeySel): Key { Key(ptr, f, 0, [Input([d])]) }

  /** The only links from the item of d lead to item id, which names e, and one of them is for f. */
  ghost predicate Route(items: Items, memo: map<Key, seq<Id>>, f: Digest, d: KeySel, id: Id, e: EdgeID) {
    && d.key.deps == [] && d.key in memo && (forall m :: m in memo[d.key] <==> m == RootOf(d))
    && HasLink(items, RootOf(d), LinkTo(Link(0, f, 0, d.selector), id))
    && (forall lt | HasLink(items, RootOf(d), lt) :: lt.target == id)
    && id in items && items[id].edge == Some(e)
  }

  lemma MatchIsLink(items: Items, memo: map<Key, seq<Id>>, ptr: nat, f: Digest, d: KeySel, m: Id)
    requires Matches(items, memo, KeyOn(ptr, f, d), m) && d.key in memo && forall c | c in memo[d.key] :: c == RootOf(d)
    ensures HasLink(items, RootOf(d), LinkTo(Link(0, f, 0, d.selector), m))
  {
    var k := KeyOn(ptr, f, d);
    assert MatchesInput(items, memo, k, 0, m);
  }

  /** The first edge for an input that is not known yet is stored. */
  lemma NewRoute(ignoreCache: EdgeID -> bool, ptr: nat, f: Digest, d: KeySel, e: EdgeID, before: Items,
                 memo: map<Key, seq<Id>>, r: Option<EdgeID>, id: Id, mid: Items, matches: set<Id>, now: Items,
                 known: map<Key, seq<Id>>)
    requires Looked(ignoreCache, KeyOn(ptr, f, d), e, before, memo, r, id, mid, matches, now, known)
    requires d.key.deps == [] && d.key !in memo && forall lt :: !HasLink(before, RootOf(d), lt)
    ensures r.None? && Route(now, known, f, d, id, e) && known == memo[d.key := known[d.key]] && id !in before
    ensures NewLinks(before, now, {RootOf(d)}, {id})
  {
    var k := KeyOn(ptr, f, d);
    assert k.deps[0].alts[0] == d && !DepsKnown(memo, k) && OnlyUnknown(memo, k, d.key);
    assert Matches(before, memo, d.key, RootOf(d)) && DepIds(memo, d.key) == {};
    assert forall m :: m in known[d.key] <==> m == RootOf(d);
    assert forall lt :: !HasLink(mid, RootOf(d), lt);
    forall m | m in matches ensures HasLink(mid, RootOf(d), LinkTo(Link(0, f, 0, d.selector), m)) {
      MatchIsLink(mid, known, ptr, f, d, m);
    }
    assert matches == {};
    assert LinkedAt(now, known, k, id, 0, 0) && RootOf(d) in now;
    assert forall z | z in DepIds(known, k) :: z == RootOf(d);
  }

  /** The edge is found by every key of the same operation on the same input. */
  lemma FoundRoute(ignoreCache: EdgeID -> bool, ptr: nat, f: Digest, d: KeySel, e: EdgeID, before: Items,
                   memo: map<Key, seq<Id>>, r: Option<EdgeID>, id: Id, mid: Items, matches: set<Id>, now: Items,
                   known: map<Key, seq<Id>>, id0: Id, e0: EdgeID)
    requires Looked(ignoreCache, KeyOn(ptr, f, d), e, before, memo, r, id, mid, matches, now, known)
    requires Route(before, memo, f, d, id0, e0) && e != e0 && !ignoreCache(e)
    ensures r == Some(e0) && id == id0 && known == memo && NewLinks(before, now, {RootOf(d)}, {id})
    ensures Route(now, known, f, d, id, e0)
  {
    var k := KeyOn(ptr, f, d);
    assert k.deps[0].alts[0] == d && DepsKnown(memo, k) && LinkFor(k, 0, d) == Link(0, f, 0, d.selector);
    assert MatchesVia(before, memo, k, 0, d, id0);
    assert MatchesInput(before, memo, k, 0, id0) && Matches(before, memo, k, id0);
    forall m | m in matches ensures m == id0 { MatchIsLink(mid, known, ptr, f, d, m); }
    assert forall z | z in DepIds(known, k) :: z == RootOf(d);
  }

  /** Looking up a key on another input does not disturb the route. */
  lemma OtherRoute(before: Items, now: Items, memo: map<Key, seq<Id>>, known: map<Key, seq<Id>>, f: Digest, d: KeySel,
                   id0: Id, e0: EdgeID, o: Id, id: Id)
    requires Route(before, memo, f, d, id0, e0) && KeepsEdges(before, now, id) && id != id0 && o != RootOf(d)
    requires NewLinks(before, now, {o}, {id}) && (forall z | z in before :: z in now && before[z].links <= now[z].links)
    requires d.key in known && known[d.key] == memo[d.key]
    ensures Route(now, known, f, d, id0, e0)
  {
  }

  /** An edge that is not in the index leaves it as it is, as far as the route goes. */
  lemma LeftRoute(index: Index, items: Items, backRefs: map<EdgeID, set<Id>>, src: EdgeID, f: Digest, d: KeySel, id: Id,
                  e: EdgeID)
    requires Route(items, index.indexIDs, f, d, id, e) && Left(index, items, backRefs, src) && src !in backRefs
    ensures Route(index.items, index.indexIDs, f, d, id, e) && index.backRefs == backRefs
  {
    assert WithoutEdges(items, {}) == items;
    assert id in index.items;
  }

  /** The slot has an edge, which resolves to e. */
  ghost predicate ResolvesTo(sv: Solver, s: Slot, e: EdgeID)
    reads sv
  {
    Settled(sv.slots, sv.root, s, e)
  }

  /** A vertex is loaded and its edge asked for. */
  method Load(sv: Solver, s: Slot) returns (e: EdgeID)
    requires sv.Valid() == true && s !in sv.slots
    modifies sv
    ensures sv.Valid() == true && sv.actives == old(sv.actives) + {s.vertex} && e !in old(sv.recs)
    ensures sv.slots == old(sv.slots)[s := e] && sv.root == old(sv.root)[e := e]
    ensures sv.recs == old(sv.recs)[e := EdgeRec(s, None, 0, 0)]
  {
    hide Solver.Valid;
    sv.Activate(s.vertex);
    e := sv.NewEdge(s);
  }

  /** Skipping merges between a vertex and its inputs does not keep the edges free of cycles. X is f on y1 and x1 is
      f on z; Y is g on x1 and y1 is g on w. If y1 and z share a key a, and x1 and w share a key b, then x1 is merged
      into the edge of X and y1 into the edge of Y, though neither depends on the other. After that the input of X
      resolves to the edge of Y and the other way round. */
  method MergesCanCycle(f: Digest, g: Digest, a: KeySel, b: KeySel) returns (sv: Solver, x: EdgeID, y: EdgeID)
    requires a.key.deps == b.key.deps == [] && RootOf(a) != RootOf(b)
    ensures sv.Valid() && x != y
    ensures !IsDep(X(), Y().inputs[0]) && !IsDep(Y().inputs[0], X()) && !IsDep(Y(), X().inputs[0])
      && !IsDep(X().inputs[0], Y())
    ensures ResolvesTo(sv, FirstSlot(X()), x) && ResolvesTo(sv, FirstSlot(Y()), y)
    ensures ResolvesTo(sv, FirstSlot(X().inputs[0]), y) && ResolvesTo(sv, FirstSlot(Y().inputs[0]), x)
  {
    hide Solver.Valid, IsDep;
    Independent();
    sv := new Solver(_ => false);
    var x1, y1;
    x, y, x1, y1 := LoadFour(sv, FirstSlot(X()), FirstSlot(Y()), FirstSlot(Y().inputs[0]), FirstSlot(X().inputs[0]));
    ghost var i, j := StoreBoth(sv, f, g, a, b, x, y);
    MergeBoth(sv, f, g, a, b, x, y, x1, y1, i, j);
  }

  method LoadFour(sv: Solver, p: Slot, q: Slot, r: Slot, t: Slot) returns (x: EdgeID, y: EdgeID, z: EdgeID, w: EdgeID)
    requires sv.Valid() == true && sv.slots == map[] && sv.recs == map[] && p != q && p != r && p != t && q != r
      && q != t && r != t
    modifies sv
    ensures sv.Valid() == true && x != y && x != z && x != w && y != z && y != w && z != w
    ensures {p.vertex, q.vertex, r.vertex, t.vertex} <= sv.actives && sv.slots == map[p := x, q := y, r := z, t := w]
    ensures sv.recs == map[x := EdgeRec(p, None, 0, 0), y := EdgeRec(q, None, 0, 0), z := EdgeRec(r, None, 0, 0),
                           w := EdgeRec(t, None, 0, 0)]
    ensures forall e | e in {x, y, z, w} :: e in sv.root && sv.root[e] == e
  {
    hide Solver.Valid;
    x := Load(sv, p);
    y := Load(sv, q);
    z := Load(sv, r);
    w := Load(sv, t);
  }

  method MergeBoth(sv: Solver, f: Digest, g: Digest, a: KeySel, b: KeySel, ghost x: EdgeID, ghost y: EdgeID, x1: EdgeID,
                   y1: EdgeID, ghost i: Id, ghost j: Id)
    requires sv.Valid() == true && x1 in sv.recs && y1 in sv.recs && sv.Resolves(sv.recs[x1].slot, x1)
    requires sv.Resolves(sv.recs[y1].slot, y1) && sv.index.backRefs.Keys == {x, y} && x != y && x1 != y1
    requires x1 !in {x, y} && y1 !in {x, y} && RootOf(a) != RootOf(b)
    requires !sv.index.ignoreCache(x1) && !sv.index.ignoreCache(y1)
    requires Route(sv.index.items, sv.index.indexIDs, f, a, i, x)
      && Route(sv.index.items, sv.index.indexIDs, g, b, j, y)
    modifies sv, sv.index
    ensures sv.Valid() == true && sv.slots == old(sv.slots)
    ensures sv.root == Redirected(Redirected(old(sv.root), x, x1), y, y1)
  {
    hide Solver.Valid, Route;
    MergeFound(sv, 2, f, a, x1, x, i, g, b, y, j);
    MergeFound(sv, 3, g, b, y1, y, j, f, a, x, i);
  }

  /** Both operations are stored, each with its own input. */
  method StoreBoth(sv: Solver, f: Digest, g: Digest, a: KeySel, b: KeySel, x: EdgeID, y: EdgeID)
    returns (ghost i: Id, ghost j: Id)
    requires sv.Valid() == true && Live(sv.recs, x) && Live(sv.recs, y) && x != y
    requires a.key.deps == b.key.deps == [] && RootOf(a) != RootOf(b)
    requires sv.index.items == map[] && sv.index.backRefs == map[] && sv.index.indexIDs == map[]
    modifies sv, sv.index
    ensures sv.Valid() == true && sv.slots == old(sv.slots) && sv.recs == old(sv.recs) && sv.root == old(sv.root)
    ensures sv.actives == old(sv.actives) && sv.index.backRefs.Keys == {x, y}
    ensures Route(sv.index.items, sv.index.indexIDs, f, a, i, x) && Route(sv.index.items, sv.index.indexIDs, g, b, j, y)
  {
    hide Solver.Valid, Looked, Left;
    i := StoreFirst(sv, 0, f, a, x);
    ghost var items, memo := sv.index.items, sv.index.indexIDs;
    assert forall lt | HasLink(items, RootOf(b), lt) :: HasLink(map[], RootOf(b), lt);
    j := StoreFirst(sv, 1, g, b, y);
    OtherRoute(items, sv.index.items, memo, sv.index.indexIDs, f, a, i, x, RootOf(b), j);
  }

  method StoreFirst(sv: Solver, ptr: nat, f: Digest, d: KeySel, e: EdgeID) returns (ghost id: Id)
    requires sv.Valid() == true && Live(sv.recs, e) && d.key.deps == []
    requires d.key !in sv.index.indexIDs && forall lt :: !HasLink(sv.index.items, RootOf(d), lt)
    modifies sv, sv.index
    ensures sv.Valid() == true && sv.slots == old(sv.slots) && sv.recs == old(sv.recs) && sv.root == old(sv.root)
    ensures sv.actives == old(sv.actives) && sv.index.backRefs.Keys == old(sv.index.backRefs).Keys + {e}
    ensures Route(sv.index.items, sv.index.indexIDs, f, d, id, e) && id !in old(sv.index.items)
    ensures NewLinks(old(sv.index.items), sv.index.items, {RootOf(d)}, {id})
    ensures KeepsEdges(old(sv.index.items), sv.index.items, id)
      && sv.index.indexIDs == old(sv.index.indexIDs)[d.key := sv.index.indexIDs[d.key]]
    ensures forall z | z in old(sv.index.items) ::
      z in sv.index.items && old(sv.index.items)[z].links <= sv.index.items[z].links
  {
    hide Solver.Valid, Route, Left, Looked, NewLinks, KeepsEdges, HasLink;
    ghost var items, memo := sv.index.items, sv.index.indexIDs;
    var other; ghost var mid, matches, now;
    other, id, mid, matches, now := sv.TryMerge(KeyOn(ptr, f, d), e, false, false);
    NewRoute(sv.index.ignoreCache, ptr, f, d, e, items, memo, other, id, mid, matches, now, sv.index.indexIDs);
    StillThere(sv.index.ignoreCache, ptr, f, d, e, items, memo, other, id, mid, matches, now, sv.index.indexIDs);
  }

  /** An edge of the same operation on the same input is merged into the edge that is stored. */
  method MergeFound(sv: Solver, ptr: nat, f: Digest, d: KeySel, e: EdgeID, ghost to: EdgeID, ghost id: Id,
                    ghost g: Digest, ghost o: KeySel, ghost y: EdgeID, ghost j: Id)
    requires sv.Valid() == true && e in sv.recs && sv.Resolves(sv.recs[e].slot, e) && e !in sv.index.backRefs
    requires Route(sv.index.items, sv.index.indexIDs, f, d, id, to)
      && Route(sv.index.items, sv.index.indexIDs, g, o, j, y)
    requires e != to && to != y && RootOf(d) != RootOf(o) && !sv.index.ignoreCache(e)
    modifies sv, sv.index
    ensures sv.Valid() == true && sv.slots == old(sv.slots) && sv.actives == old(sv.actives) && to in old(sv.recs)
    ensures sv.recs == Owned(old(sv.recs), to, e) && sv.root == Redirected(old(sv.root), to, e)
    ensures sv.index.backRefs == old(sv.index.backRefs)
    ensures Route(sv.index.items, sv.index.indexIDs, f, d, id, to)
      && Route(sv.index.items, sv.index.indexIDs, g, o, j, y)
  {
    hide Solver.Valid, Route, Left, Looked;
    ghost var items, memo, refs := sv.index.items, sv.index.indexIDs, sv.index.backRefs;
    var other, i, mid, matches, now := sv.TryMerge(KeyOn(ptr, f, d), e, false, false);
    FoundRoute(sv.index.ignoreCache, ptr, f, d, e, items, memo, other, i, mid, matches, now, sv.index.indexIDs, id, to);
    StillThere(sv.index.ignoreCache, ptr, f, d, e, items, memo, other, i, mid, matches, now, sv.index.indexIDs);
    OtherItem(items, memo, f, d, id, to, g, o, j, y);
    OtherRoute(items, now, memo, sv.index.indexIDs, g, o, j, y, RootOf(d), i);
    LeftRoute(sv.index, now, refs, e, f, d, id, to);
    LeftRoute(sv.index, now, refs, e, g, o, j, y);
  }

  lemma OtherItem(items: Items, memo: map<Key, seq<Id>>, f: Digest, d: KeySel, id: Id, x: EdgeID, g: Digest, o: KeySel,
                  j: Id, y: EdgeID)
    requires Route(items, memo, f, d, id, x) && Route(items, memo, g, o, j, y) && x != y
    ensures id != j && o.key in memo
  {
  }

  lemma StillThere(ignoreCache: EdgeID -> bool, ptr: nat, f: Digest, d: KeySel, e: EdgeID, before: Items,
                   memo: map<Key, seq<Id>>, r: Option<EdgeID>, id: Id, mid: Items, matches: set<Id>, now: Items,
                   known: map<Key, seq<Id>>)
    requires Looked(ignoreCache, KeyOn(ptr, f, d), e, before, memo, r, id, mid, matches, now, known)
    ensures KeepsEdges(before, now, id) && forall z | z in before :: z in now && before[z].links <= now[z].links
  {
  }

  /** An edge that is merged need not become owned. Two outputs have come to share an edge, the state it was made for is
      released, and then it is merged into another edge: its own slot is gone, and the other slot still resolves to it.
      */
  method UnownedAfterMerge(f: Digest, g: Digest, a: KeySel, b: KeySel)
    returns (sv: Solver, e: EdgeID, other: Option<EdgeID>, shared: Slot)
    requires a.key.deps == b.key.deps == [] && RootOf(a) != RootOf(b)
    ensures sv.Valid() && other.Some? && other.value != e && Live(sv.recs, e) && ResolvesTo(sv, shared, e)
      && shared.vertex in sv.actives
  {
    hide Solver.Valid;
    sv := new Solver(_ => false);
    var own := Slot("a", 0);
    shared := Slot("b", 0);
    var t, e2, e3;
    e, t, e2, e3 := LoadFour(sv, own, Slot("c", 0), shared, Slot("d", 0));
    ghost var i, j := StoreBoth(sv, f, g, a, b, e, t);
    MergeFound(sv, 2, f, a, e2, e, i, g, b, t, j);
    other := ReleaseAndMerge(sv, g, b, e, t, j, own, shared);
  }

  method ReleaseAndMerge(sv: Solver, g: Digest, b: KeySel, e: EdgeID, ghost t: EdgeID, ghost j: Id, own: Slot,
                         shared: Slot)
    returns (other: Option<EdgeID>)
    requires sv.Valid() == true && Live(sv.recs, e) && sv.recs[e].slot == own && e != t && own.vertex != shared.vertex
    requires SlotsAt(sv.slots, own.vertex) == {own} && ResolvesTo(sv, own, e) && ResolvesTo(sv, shared, e)
    requires Route(sv.index.items, sv.index.indexIDs, g, b, j, t) && !sv.index.ignoreCache(e)
      && shared.vertex in sv.actives
    modifies sv, sv.index
    ensures sv.Valid() && other.Some? && other.value != e && Live(sv.recs, e) && ResolvesTo(sv, shared, e)
    ensures shared.vertex in sv.actives
  {
    hide Solver.Valid, Looked, Route, Left;
    assert Settled(sv.slots, sv.root, shared, e);
    forall s | s in sv.slots && s.vertex == own.vertex ensures UsedElsewhere(sv.slots, sv.root, s) {
      assert s in SlotsAt(sv.slots, own.vertex);
    }
    sv.ReleaseState(own.vertex);
    assert SlotsAt(sv.slots, own.vertex) == {};
    StillLive(sv, e, shared);
    ghost var items, memo := sv.index.items, sv.index.indexIDs;
    ghost var id, mid, matches, now;
    other, id, mid, matches, now := sv.TryMerge(KeyOn(3, g, b), e, false, false);
    FoundRoute(sv.index.ignoreCache, 3, g, b, e, items, memo, other, id, mid, matches, now, sv.index.indexIDs, j, t);
  }

  lemma StillLive(sv: Solver, e: EdgeID, s: Slot)
    requires sv.Valid() == true && e in sv.recs && sv.recs[e].owner.None? && ResolvesTo(sv, s, e)
    ensures Live(sv.recs, e)
  {
    SlotOfRoot(sv.recs, sv.root, sv.slots, s);
  }

  lemma SlotOfRoot(recs: Recs, root: map<EdgeID, EdgeID>, slots: map<Slot, EdgeID>, s: Slot)
    requires AllCounted(recs, root, slots) == true && s in slots && slots[s] in root && root[slots[s]] in recs
    requires recs[root[slots[s]]].owner.None?
    ensures recs[root[slots[s]]].releases == 0
  {
    assert Counted(recs, root, slots, root[slots[s]]) && s in SlotsOf(slots, root, root[slots[s]]);
  }

  lemma LiveHasSlots(recs: Recs, root: map<EdgeID, EdgeID>, slots: map<Slot, EdgeID>, r: EdgeID)
    requires AllCounted(recs, root, slots) == true && r in recs && recs[r].owner.None? && recs[r].releases == 0
    ensures SlotsOf(slots, root, r) != {}
  {
    assert Counted(recs, root, slots, r);
  }

  lemma KeptRoots(before: Items, now: Items, id: Id, e: EdgeID, recs: Recs)
    requires NamesRoots(before, recs) && KeepsEdges(before, now, id) == true && id in now && now[id].edge.Some?
    requires now[id].edge == Some(e) || (id in before && now[id].edge == before[id].edge)
    ensures NamesRoots(now, recs) <==> now[id].edge != Some(e) || Live(recs, e)
  {
  }

  ghost function MaxRank(rank: map<EdgeID, nat>): nat {
    if rank == map[] then 0
    else
      var e :| e in rank;
      var rest := MaxRank(rank - {e});
      if rest < rank[e] then rank[e] else rest
  }

  lemma {:induction false} RankBounded(rank: map<EdgeID, nat>, e: EdgeID)
    requires e in rank
    ensures rank[e] <= MaxRank(rank)
  {
    var x :| x in rank && MaxRank(rank) == (if MaxRank(rank - {x}) < rank[x] then rank[x] else MaxRank(rank - {x}));
    if x != e { RankBounded(rank - {x}, e); }
  }
}
