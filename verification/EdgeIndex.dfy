/** The index that detects edges with the same cache keys: items linked by how one key is
    derived from another, queried for matches and collected when no edge uses them. */
module EdgeIndex {
  import opened SolverTypes
  import opened KeyGraph

  /** Every edge that is named by an item is registered for that item. */
  ghost predicate Registered(items: Items, backRefs: map<EdgeID, set<Id>>) {
    forall a | a in items && items[a].edge.Some? ::
      items[a].edge.value in backRefs && a in backRefs[items[a].edge.value]
  }

  /** Minted identifiers are below the counter. */
  ghost predicate Below(ids: set<Id>, n: nat) {
    forall a | a in ids :: a.Minted? ==> a.n < n
  }

  ghost predicate MemoOK(memo: map<Key, seq<Id>>, n: nat) {
    forall k | k in memo :: memo[k] != [] && forall a | a in memo[k] :: a.Minted? ==> a.n < n
  }

  ghost function IdSet(memo: map<Key, seq<Id>>, k: Key): set<Id> {
    Elems(IdsOf(memo, k))
  }

  ghost function Elems(ids: seq<Id>): set<Id> {
    set c | c in ids
  }

  lemma NoNewEdgeTwice(a: Items, b: Items, c: Items)
    requires NoNewEdge(a, b) == NoNewEdge(b, c) == Grew(b, c) == true
    ensures NoNewEdge(a, c)
  {
  }

  lemma MemoGrowsNot(memo: map<Key, seq<Id>>)
    ensures MemoGrows(memo, memo)
  {
  }

  lemma MemoGrowsBy(a: map<Key, seq<Id>>, b: map<Key, seq<Id>>, k: Key, ids: seq<Id>)
    requires MemoGrows(a, b) == true && k !in a
    ensures MemoGrows(a, b[k := ids])
  {
  }

  lemma DepIdsGrow(a: map<Key, seq<Id>>, b: map<Key, seq<Id>>, k: Key, i: nat, j: nat)
    requires MemoGrows(a, b) && i < |k.deps| && j < |k.deps[i].alts|
    ensures DepIds(a, k) <= DepIds(b, k) && IdSet(b, k.deps[i].alts[j].key) <= DepIds(b, k)
  {
    forall c | c in DepIds(a, k) ensures c in DepIds(b, k) {
      var x, y :| 0 <= x < |k.deps| && 0 <= y < |k.deps[x].alts| && c in IdsOf(a, k.deps[x].alts[y].key);
      assert c in IdsOf(b, k.deps[x].alts[y].key);
    }
  }

  /** A key is not one of its own inputs. */
  lemma SameDepIds(memo: map<Key, seq<Id>>, k: Key, ids: seq<Id>)
    ensures DepIds(memo[k := ids], k) == DepIds(memo, k)
    ensures DepsKnown(memo, k) ==> DepsKnown(memo[k := ids], k)
  {
    forall i, j | 0 <= i < |k.deps| && 0 <= j < |k.deps[i].alts| ensures k.deps[i].alts[j].key != k {
      assert k.deps[i].alts[j].key < k;
    }
    forall c | c in DepIds(memo, k) ensures c in DepIds(memo[k := ids], k) {
      var x, y :| 0 <= x < |k.deps| && 0 <= y < |k.deps[x].alts| && c in IdsOf(memo, k.deps[x].alts[y].key);
      assert c in IdsOf(memo[k := ids], k.deps[x].alts[y].key);
    }
    forall c | c in DepIds(memo[k := ids], k) ensures c in DepIds(memo, k) {
      var x, y :| 0 <= x < |k.deps| && 0 <= y < |k.deps[x].alts| && c in IdsOf(memo[k := ids], k.deps[x].alts[y].key);
      assert c in IdsOf(memo, k.deps[x].alts[y].key);
    }
  }

  function Referring(backRefs: map<EdgeID, set<Id>>, e: EdgeID, id: Id): map<EdgeID, set<Id>> {
    backRefs[e := (if e in backRefs then backRefs[e] else {}) + {id}]
  }

  /** Apart from item id, items name the same edges as before. */
  ghost predicate KeepsEdges(before: Items, now: Items, id: Id) {
    && (forall a | a in now && a != id && now[a].edge.Some? :: a in before && before[a].edge == now[a].edge)
    && (forall a | a in before && a != id :: a in now && now[a].edge == before[a].edge)
  }

  lemma SetEdgeInverse(items: Items, id: Id, e: EdgeID)
    requires Inverse(items, {}) == true && id in items
    ensures Inverse(items[id := items[id].(edge := Some(e))], {})
  {
    var now := items[id := items[id].(edge := Some(e))];
    forall b, a | b in now && a in now[b].deps ensures a in now && LinksTo(now[a], b) {
      var lt :| lt in items[a].links && lt.target == b;
      assert lt in now[a].links;
    }
  }

  lemma SetEdgeLinked(items: Items, memo: map<Key, seq<Id>>, k: Key, id: Id, e: EdgeID)
    requires LinkedUnder(items, memo, k, id) == true && id in items
    ensures LinkedUnder(items[id := items[id].(edge := Some(e))], memo, k, id)
  {
    var now := items[id := items[id].(edge := Some(e))];
    forall i, j | 0 <= i < |k.deps| && 0 <= j < |k.deps[i].alts| ensures LinkedAt(now, memo, k, id, i, j) {
      assert LinkedAt(items, memo, k, id, i, j);
    }
  }

  // ---- how keys are identified ----

  /** Exactly one input of k has no identifiers, and its own inputs have. */
  ghost predicate OnlyUnknown(memo: map<Key, seq<Id>>, k: Key, q: Key) {
    && q !in memo && DepsKnown(memo, q)
    && forall i, j | 0 <= i < |k.deps| && 0 <= j < |k.deps[i].alts| ::
      k.deps[i].alts[j].key in memo || k.deps[i].alts[j].key == q
  }

  /** The identifiers of k are its matches, or one new identifier exactly if it has none. */
  ghost predicate Identifies(items: Items, memo: map<Key, seq<Id>>, k: Key, ids: seq<Id>) {
    if exists m :: Matches(items, memo, k, m) then forall m :: m in ids <==> Matches(items, memo, k, m)
    else |ids| == 1 && ids[0] !in items
  }

  /** Key q has been given identifiers, and links have been added only from its inputs to its own items. */
  ghost predicate Identified(before: Items, memo: map<Key, seq<Id>>, q: Key, now: Items, known: map<Key, seq<Id>>) {
    && q in known && known == memo[q := known[q]] && Identifies(before, memo, q, known[q])
    && (forall m | m in known[q] :: m in now) && NewLinks(before, now, DepIds(memo, q), Elems(known[q]))
  }

  /** Either nothing has happened yet or the one unknown input of k has been identified. */
  ghost predicate Identifying(before: Items, memo: map<Key, seq<Id>>, k: Key, now: Items, known: map<Key, seq<Id>>) {
    forall q | OnlyUnknown(memo, k, q) :: (now == before && known == memo) || Identified(before, memo, q, now, known)
  }

  /** One more input has been identified. */
  lemma IdentifyingOn(before: Items, memo: map<Key, seq<Id>>, k: Key, mid: Items, known: map<Key, seq<Id>>,
                      i: nat, j: nat, now: Items, last: map<Key, seq<Id>>)
    requires Identifying(before, memo, k, mid, known) && i < |k.deps| && j < |k.deps[i].alts|
    requires k.deps[i].alts[j].key in known ==> now == mid && last == known
    requires k.deps[i].alts[j].key !in known && DepsKnown(known, k.deps[i].alts[j].key) ==>
               Identified(mid, known, k.deps[i].alts[j].key, now, last)
    ensures Identifying(before, memo, k, now, last)
  {
    hide Identified, DepsKnown;
    forall q | OnlyUnknown(memo, k, q)
      ensures (now == before && last == memo) || Identified(before, memo, q, now, last) {
      if Identified(before, memo, q, mid, known) { IdentifiedKeys(before, memo, q, mid, known); }
    }
  }

  lemma IdentifiedKeys(before: Items, memo: map<Key, seq<Id>>, q: Key, now: Items, known: map<Key, seq<Id>>)
    requires Identified(before, memo, q, now, known)
    ensures known.Keys == memo.Keys + {q}
  {
  }

  lemma IdentifyingAll(before: Items, memo: map<Key, seq<Id>>, k: Key, now: Items, known: map<Key, seq<Id>>)
    requires Identifying(before, memo, k, now, known) && DepsKnown(known, k) && !DepsKnown(memo, k)
    ensures forall q | OnlyUnknown(memo, k, q) :: Identified(before, memo, q, now, known)
  {
    hide Identified;
  }

  lemma IdentifyingNot(items: Items, memo: map<Key, seq<Id>>, k: Key)
    ensures Identifying(items, memo, k, items, memo)
  {
  }

  lemma MatchesIdentify(items: Items, memo: map<Key, seq<Id>>, k: Key, matches: seq<Id>, ids: seq<Id>)
    requires forall m :: m in matches <==> Matches(items, memo, k, m)
    requires if matches == [] then |ids| == 1 && ids[0] !in items else ids == matches
    ensures Identifies(items, memo, k, ids)
  {
    hide Matches;
    if matches != [] { assert Matches(items, memo, k, matches[0]); }
  }

  lemma MoreTargets(before: Items, now: Items, sources: set<Id>, id: Id, targets: set<Id>)
    requires NewLinks(before, now, sources, {id}) && id in targets
    ensures NewLinks(before, now, sources, targets)
  {
    hide HasLink;
  }

  /** No match belongs to another edge that e may be merged into. A match without an edge hides the others. */
  ghost predicate NoOther(items: Items, matches: set<Id>, e: EdgeID, ignoreCache: EdgeID -> bool) {
    || (forall m | m in matches && m in items :: items[m].edge == Some(e))
    || (exists m | m in matches && m in items :: items[m].edge.None?)
    || (ignoreCache(e) && exists m | m in matches && m in items ::
          items[m].edge.Some? && items[m].edge.value != e && !ignoreCache(items[m].edge.value))
  }

  lemma HasBeenLinked(before: Items, now: Items, memo: map<Key, seq<Id>>, k: Key, id: Id)
    requires LinkedUnder(now, memo, k, id) && NewLinks(before, now, DepIds(memo, k), {id}) == Grew(before, now) == true
    requires now.Keys == before.Keys + {id}
    ensures NewlyLinked(before, now, DepIds(memo, k), id)
  {
    forall z | z in DepIds(memo, k) && z in now ensures LinksTo(now[z], id) {
      var i, j :| 0 <= i < |k.deps| && 0 <= j < |k.deps[i].alts| && z in IdsOf(memo, k.deps[i].alts[j].key);
      assert LinkedAt(now, memo, k, id, i, j);
    }
  }

  lemma SetEdgeFrom(before: Items, now: Items, sources: set<Id>, id: Id, e: EdgeID)
    requires NewlyLinked(before, now, sources, id) && id in now
    ensures NewlyLinked(before, now[id := now[id].(edge := Some(e))], sources, id)
  {
    var last := now[id := now[id].(edge := Some(e))];
    forall z, lt | HasLink(last, z, lt) && !HasLink(before, z, lt) ensures z in sources && lt.target in {id} {
      assert HasLink(now, z, lt);
    }
  }

  lemma IsDepId(memo: map<Key, seq<Id>>, k: Key, i: nat, j: nat, c: Id)
    requires i < |k.deps| && j < |k.deps[i].alts| && c in IdsOf(memo, k.deps[i].alts[j].key)
    ensures c in DepIds(memo, k)
  {
  }

  lemma EmptyItemLinks(before: Items, now: Items, id: Id, sources: set<Id>, targets: set<Id>)
    requires now == before || now == before[id := Item(None, {}, {})]
    ensures NewLinks(before, now, sources, targets)
  {
  }

  /** What LoadOrStore answers and leaves behind: `mid` are the items when the inputs of k have been identified, `now`
      those in the end. */
  ghost predicate Looked(ignoreCache: EdgeID -> bool, k: Key, e: EdgeID, before: Items, memo: map<Key, seq<Id>>,
                         r: Option<EdgeID>, id: Id, mid: Items, matches: set<Id>, now: Items,
                         known: map<Key, seq<Id>>) {
    && id in now && now[id].edge == (if r.Some? then r else Some(e))
    && (r.Some? ==> id in before && before[id].edge == r)
    && LinkedUnder(now, known, k, id) && DepsKnown(known, k) && NewlyLinked(mid, now, DepIds(known, k), id)
    && KeepsEdges(before, now, id) && Grew(before, mid)
    && (forall m :: m in matches <==> Matches(mid, known, k, m))
    && (if matches == {} then id !in mid else id in matches)
    && (r.None? ==> NoOther(mid, matches, e, ignoreCache))
    && (DepsKnown(memo, k) ==> mid == before && known == memo)
    && forall q | !DepsKnown(memo, k) && OnlyUnknown(memo, k, q) :: Identified(before, memo, q, mid, known)
  }

  lemma NoSteps(items: Items)
    ensures Steps(items, [], items)
  {
  }

  class Index {
    var items: Items
    var backRefs: map<EdgeID, set<Id>>
    var indexIDs: map<Key, seq<Id>>   // CacheKey.indexIDs of every key
    var nextID: nat
    const ignoreCache: EdgeID -> bool

    constructor (ignoreCache: EdgeID -> bool)
      ensures Valid() && items == map[] && backRefs == map[] && indexIDs == map[] && this.ignoreCache == ignoreCache
    {
      this.ignoreCache := ignoreCache;
      items, backRefs, indexIDs, nextID := map[], map[], map[], 0;
    }

    ghost predicate Valid()
      reads this
    {
      && Inverse(items, {}) && Used(items, {}) && Registered(items, backRefs)
      && Below(items.Keys, nextID) && MemoOK(indexIDs, nextID)
    }

    /** Valid, but items in `bare` may have neither an edge nor a link yet. */
    ghost predicate Linking(bare: set<Id>)
      reads this
    {
      && Inverse(items, {}) && Used(items, bare) && Registered(items, backRefs)
      && Below(items.Keys, nextID) && MemoOK(indexIDs, nextID)
    }

    // ---- linking keys ----

    method AddLink(c: Id, l: Link, id: Id, ghost bare: set<Id>)
      requires Linking(bare) == true && c in items && id in items
      modifies `items
      ensures Linking(bare) == true && items == AddedLink(old(items), c, l, id)
      ensures Grew(old(items), items) == true && items.Keys == old(items).Keys && LinkTo(l, id) in items[c].links
      ensures forall sources: set<Id> | c in sources :: NewLinks(old(items), items, sources, {id})
    {
      hide Inverse, MemoOK;
      AddLinkInverse(items, c, l, id);
      items := AddedLink(items, c, l, id);
    }

    /** Links from the items of one alternative of input i to item id. */
    method LinkAlternative(id: Id, k: Key, i: nat, j: nat, ghost bare: set<Id>)
      requires Linking(bare) == true && id in items && i < |k.deps| && j < |k.deps[i].alts|
      modifies `items
      ensures Linking(bare) == Grew(old(items), items) == true && items.Keys == old(items).Keys
      ensures LinkedAt(items, indexIDs, k, id, i, j) == NewLinks(old(items), items, DepIds(indexIDs, k), {id}) == true
    {
      hide Linking, Grew, NewLinks, DepIds;
      GrewNot(items);
      ghost var sources := DepIds(indexIDs, k);
      NewLinksNot(items, sources, {id});
      var d := k.deps[i].alts[j];
      var ids := IdsOf(indexIDs, d.key);
      for n := 0 to |ids|
        invariant Linking(bare) == Grew(old(items), items) == true && items.Keys == old(items).Keys
        invariant forall m | 0 <= m < n && ids[m] in items :: LinkTo(LinkFor(k, i, d), id) in items[ids[m]].links
        invariant NewLinks(old(items), items, sources, {id})
      {
        if ids[n] in items {
          ghost var before := items;
          AddLink(ids[n], LinkFor(k, i, d), id, bare);
          IsDepId(indexIDs, k, i, j, ids[n]);
          NewLinksTwice(old(items), before, items, sources, {id});
          GrewTwice(old(items), before, items);
          GrewLinks(before, items);
        }
      }
    }

    /** Adds links from the items of all inputs of k to item id. */
    method EnforceLinked(id: Id, k: Key, ghost bare: set<Id>)
      requires Linking(bare) == true && DepsKnown(indexIDs, k) && (id.Minted? ==> id.n < nextID)
      modifies `items
      ensures Linking(bare + {id} - DepIds(indexIDs, k)) == true
      ensures Grew(old(items), items) == NoNewEdge(old(items), items) == true && items.Keys == old(items).Keys + {id}
      ensures LinkedUnder(items, indexIDs, k, id) == NewLinks(old(items), items, DepIds(indexIDs, k), {id}) == true
      ensures NewlyLinked(old(items), items, DepIds(indexIDs, k), id)
    {
      hide Linking, Grew, LinkedAt, NewLinks, DepIds;
      EnsureItem(id, bare);
      ghost var start := items;
      GrewNot(start);
      ghost var sources := DepIds(indexIDs, k);
      EmptyItemLinks(old(items), items, id, sources, {id});
      for i := 0 to |k.deps|
        invariant Linking(bare + {id}) == Grew(old(items), items) == true && items.Keys == start.Keys
        invariant Grew(start, items) == NewLinks(old(items), items, sources, {id}) == true
        invariant forall a, b | 0 <= a < i && 0 <= b < |k.deps[a].alts| :: LinkedAt(items, indexIDs, k, id, a, b)
      {
        for j := 0 to |k.deps[i].alts|
          invariant Linking(bare + {id}) == Grew(old(items), items) == true && items.Keys == start.Keys
          invariant Grew(start, items) == NewLinks(old(items), items, sources, {id}) == true
          invariant forall a, b | 0 <= a < i && 0 <= b < |k.deps[a].alts| :: LinkedAt(items, indexIDs, k, id, a, b)
          invariant forall b | 0 <= b < j :: LinkedAt(items, indexIDs, k, id, i, b)
        {
          ghost var before := items;
          LinkAlternative(id, k, i, j, bare + {id});
          GrewTwice(old(items), before, items);
          GrewTwice(start, before, items);
          NewLinksTwice(old(items), before, items, sources, {id});
          StayLinkedAt(before, items, indexIDs, k, id);
        }
      }
      LinkedAreUsed(k, id, bare);
      NoEdgeAdded(old(items), start, items);
      HasBeenLinked(old(items), items, indexIDs, k, id);
    }

    method EnsureItem(id: Id, ghost bare: set<Id>)
      requires Linking(bare) == true && (id.Minted? ==> id.n < nextID)
      modifies `items
      ensures Linking(bare + {id}) == Grew(old(items), items) == NoNewEdge(old(items), items) == true
      ensures items.Keys == old(items).Keys + {id}
      ensures items == if id in old(items) then old(items) else old(items)[id := Item(None, {}, {})]
    {
      if id !in items {
        items := items[id := Item(None, {}, {})];
        AddItemInverse(old(items), id);
      }
    }

    /** Items that link to id are not bare any more. */
    lemma LinkedAreUsed(k: Key, id: Id, bare: set<Id>)
      requires Linking(bare + {id}) == LinkedUnder(items, indexIDs, k, id) == true
      ensures Linking(bare + {id} - DepIds(indexIDs, k))
    {
      hide Inverse, MemoOK;
      forall a | a in items && a in DepIds(indexIDs, k) ensures items[a].links != {} {
        var i, j :| 0 <= i < |k.deps| && 0 <= j < |k.deps[i].alts| && a in IdsOf(indexIDs, k.deps[i].alts[j].key);
        assert LinkedAt(items, indexIDs, k, id, i, j);
      }
    }

    lemma WiderLinking(bare: set<Id>, more: set<Id>)
      requires Linking(bare) == true
      ensures Linking(bare + more)
    {
    }

    /** Matches are items, so their identifiers are not new. */
    lemma MatchesBelow(k: Key, bare: set<Id>)
      requires Linking(bare) == true && k.deps != []
      ensures forall m | Matches(items, indexIDs, k, m) :: m.Minted? ==> m.n < nextID
    {
      forall m | Matches(items, indexIDs, k, m) ensures m.Minted? ==> m.n < nextID {
        assert MatchesInput(items, indexIDs, k, 0, m);
      }
    }

    // ---- matching keys ----

    /** The items linked from the identifiers of one alternative of input i. */
    method TargetsOf(k: Key, i: nat, d: KeySel) returns (ts: set<Id>)
      ensures forall m :: m in ts <==> MatchesVia(items, indexIDs, k, i, d, m)
    {
      ts := {};
      var ids := IdsOf(indexIDs, d.key);
      for n := 0 to |ids|
        invariant forall m :: m in ts <==>
          exists x | 0 <= x < n :: ids[x] in items && LinkTo(LinkFor(k, i, d), m) in items[ids[x]].links
      {
        if ids[n] in items {
          var more := set lt | lt in items[ids[n]].links && lt.link == LinkFor(k, i, d) :: lt.target;
          assert forall m :: m in more <==> LinkTo(LinkFor(k, i, d), m) in items[ids[n]].links;
          ts := ts + more;
        }
      }
    }

    method TargetsOfInput(k: Key, i: nat) returns (ts: set<Id>)
      requires i < |k.deps|
      ensures forall m :: m in ts <==> MatchesInput(items, indexIDs, k, i, m)
    {
      hide MatchesVia;
      ts := {};
      for j := 0 to |k.deps[i].alts|
        invariant forall m :: m in ts <==>
          exists x | 0 <= x < j :: MatchesVia(items, indexIDs, k, i, k.deps[i].alts[x], m)
      {
        var more := TargetsOf(k, i, k.deps[i].alts[j]);
        ts := ts + more;
      }
    }

    /** The items that match every input of k. */
    method FindMatches(k: Key) returns (matches: set<Id>)
      requires k.deps != []
      ensures forall m :: m in matches <==> Matches(items, indexIDs, k, m)
    {
      hide MatchesInput;
      matches := TargetsOfInput(k, 0);
      for i := 1 to |k.deps|
        invariant forall m :: m in matches <==> forall x | 0 <= x < i :: MatchesInput(items, indexIDs, k, x, m)
      {
        if matches == {} { return; }
        var ts := TargetsOfInput(k, i);
        matches := matches * ts;
      }
    }

    /** All items that match k. The inputs of k are given identifiers first. */
    method GetAllMatches(k: Key, ghost bare: set<Id>) returns (ids: seq<Id>, ghost steps: seq<LinkStep>)
      requires Linking(bare) == true
      modifies `items, `indexIDs, `nextID
      ensures Linking(bare + DepIds(indexIDs, k)) == true && DepsKnown(indexIDs, k)
      ensures Grew(old(items), items) == NoNewEdge(old(items), items) == MemoGrows(old(indexIDs), indexIDs) == true
      ensures nextID >= old(nextID) && forall m | m in ids :: m.Minted? ==> m.n < nextID
      ensures forall m :: m in ids <==> Matches(items, indexIDs, k, m)
      ensures forall x | x in indexIDs && x !in old(indexIDs) :: x < k
      ensures DepsKnown(old(indexIDs), k) ==> items == old(items) && indexIDs == old(indexIDs)
      ensures forall q | !DepsKnown(old(indexIDs), k) && OnlyUnknown(old(indexIDs), k, q) ::
                Identified(old(items), old(indexIDs), q, items, indexIDs)
      ensures Steps(old(items), steps, items)
      decreases k, 1
    {
      hide Linking, Grew, NoNewEdge, MemoGrows, OnlyUnknown, Identified, Steps;
      steps := [];
      NoSteps(items);
      GrewNot(items);
      MemoGrowsNot(indexIDs);
      if k.deps == [] {
        ids := [Root(k.digest, k.output)];
        WiderLinking(bare, DepIds(indexIDs, k));
        return;
      }
      steps := IdentifyInputs(k, bare);
      var matches := FindMatches(k);
      MatchesBelow(k, bare + DepIds(indexIDs, k));
      ids := [];
      ghost var all := matches;
      while matches != {}
        invariant forall m :: m in all <==> m in ids || m in matches
        decreases matches
      {
        var m :| m in matches;
        ids, matches := ids + [m], matches - {m};
      }
    }

    method IdentifyInputs(k: Key, ghost bare: set<Id>) returns (ghost steps: seq<LinkStep>)
      requires Linking(bare) == true
      modifies `items, `indexIDs, `nextID
      ensures Linking(bare + DepIds(indexIDs, k)) == true && DepsKnown(indexIDs, k)
      ensures Grew(old(items), items) == NoNewEdge(old(items), items) == MemoGrows(old(indexIDs), indexIDs) == true
      ensures nextID >= old(nextID) && forall x | x in indexIDs && x !in old(indexIDs) :: x < k
      ensures DepsKnown(old(indexIDs), k) ==> items == old(items) && indexIDs == old(indexIDs)
      ensures forall q | !DepsKnown(old(indexIDs), k) && OnlyUnknown(old(indexIDs), k, q) ::
                Identified(old(items), old(indexIDs), q, items, indexIDs)
      ensures Steps(old(items), steps, items)
      decreases k, 0
    {
      hide Linking, Grew, NoNewEdge, DepIds, Identifying, Identified, OnlyUnknown, Steps;
      steps := [];
      NoSteps(items);
      GrewNot(items);
      IdentifyingNot(items, indexIDs, k);
      ghost var seen: set<Id> := {};
      assert bare + seen == bare;
      for i := 0 to |k.deps|
        invariant Linking(bare + seen) == true && nextID >= old(nextID) && seen <= DepIds(indexIDs, k)
        invariant Grew(old(items), items) == NoNewEdge(old(items), items) == true && MemoGrows(old(indexIDs), indexIDs)
        invariant forall a, b | 0 <= a < i && 0 <= b < |k.deps[a].alts| :: k.deps[a].alts[b].key in indexIDs
        invariant forall x | x in indexIDs && x !in old(indexIDs) :: x < k
        invariant Identifying(old(items), old(indexIDs), k, items, indexIDs)
        invariant DepsKnown(old(indexIDs), k) ==> items == old(items) && indexIDs == old(indexIDs)
        invariant Steps(old(items), steps, items)
      {
        for j := 0 to |k.deps[i].alts|
          invariant Linking(bare + seen) == true && nextID >= old(nextID) && seen <= DepIds(indexIDs, k)
          invariant Grew(old(items), items) == NoNewEdge(old(items), items) == true
            && MemoGrows(old(indexIDs), indexIDs)
          invariant forall a, b | 0 <= a < i && 0 <= b < |k.deps[a].alts| :: k.deps[a].alts[b].key in indexIDs
          invariant forall b | 0 <= b < j :: k.deps[i].alts[b].key in indexIDs
          invariant forall x | x in indexIDs && x !in old(indexIDs) :: x < k
          invariant Identifying(old(items), old(indexIDs), k, items, indexIDs)
          invariant DepsKnown(old(indexIDs), k) ==> items == old(items) && indexIDs == old(indexIDs)
          invariant Steps(old(items), steps, items)
        {
          ghost var before, memo := items, indexIDs;
          ghost var mid, known, more := EnforceIndexID(k.deps[i].alts[j].key, bare + seen);
          StepsThen(old(items), steps, before, more, items);
          steps := steps + more;
          IdentifyingOn(old(items), old(indexIDs), k, before, memo, i, j, items, indexIDs);
          GrewTwice(old(items), before, items);
          NoNewEdgeTwice(old(items), before, items);
          DepIdsGrow(memo, indexIDs, k, i, j);
          ghost var ids := IdSet(indexIDs, k.deps[i].alts[j].key);
          assert bare + seen + ids == bare + (seen + ids);
          seen := seen + ids;
        }
      }
      WiderLinking(bare + seen, DepIds(indexIDs, k));
      assert bare + seen + DepIds(indexIDs, k) == bare + DepIds(indexIDs, k);
      if !DepsKnown(old(indexIDs), k) { IdentifyingAll(old(items), old(indexIDs), k, items, indexIDs); }
    }

    /** Gives k identifiers: those of the items it matches, or a new one. `mid` are the items, and `known` the
        identifiers, when all its inputs have been identified. */
    method EnforceIndexID(k: Key, ghost bare: set<Id>)
      returns (ghost mid: Items, ghost known: map<Key, seq<Id>>, ghost steps: seq<LinkStep>)
      requires Linking(bare) == true
      modifies `items, `indexIDs, `nextID
      ensures k in indexIDs && Linking(bare + IdSet(indexIDs, k)) == true
      ensures Grew(old(items), items) == NoNewEdge(old(items), items) == MemoGrows(old(indexIDs), indexIDs) == true
      ensures nextID >= old(nextID) && forall x | x in indexIDs && x !in old(indexIDs) :: x < k || x == k
      ensures k in old(indexIDs) ==> items == old(items) && indexIDs == old(indexIDs)
      ensures k !in old(indexIDs) ==>
        Grew(old(items), mid) == MemoGrows(old(indexIDs), known) == DepsKnown(known, k) == true
      ensures k !in old(indexIDs) ==> Identified(mid, known, k, items, indexIDs)
      ensures DepsKnown(old(indexIDs), k) ==> mid == old(items) && known == old(indexIDs)
      ensures Steps(old(items), steps, items)
      decreases k, 2
    {
      hide Linking, Grew, NoNewEdge, MemoGrows, IdSet, Identified, DepsKnown, Steps;
      steps := [];
      NoSteps(items);
      GrewNot(items);
      MemoGrowsNot(indexIDs);
      mid, known := items, indexIDs;
      if k in indexIDs {
        WiderLinking(bare, IdSet(indexIDs, k));
        return;
      }
      var matches;
      matches, steps := GetAllMatches(k, bare);
      mid, known := items, indexIDs;
      ghost var more := LinkIdentifiers(k, matches, bare);
      StepsThen(old(items), steps, mid, more, items);
      steps := steps + more;
      GrewTwice(old(items), mid, items);
      NoNewEdgeTwice(old(items), mid, items);
      MemoGrowsBy(old(indexIDs), known, k, IdsOf(indexIDs, k));
    }

    method LinkIdentifiers(k: Key, matches: seq<Id>, ghost bare: set<Id>) returns (ghost steps: seq<LinkStep>)
      requires Linking(bare + DepIds(indexIDs, k)) == true && DepsKnown(indexIDs, k)
      requires forall m | m in matches :: m.Minted? ==> m.n < nextID
      requires forall m :: m in matches <==> Matches(items, indexIDs, k, m)
      modifies `items, `indexIDs, `nextID
      ensures k in indexIDs && Linking(bare + IdSet(indexIDs, k)) == true
      ensures Grew(old(items), items) == NoNewEdge(old(items), items) == true
      ensures indexIDs == old(indexIDs)[k := if matches == [] then [Minted(old(nextID))] else matches]
      ensures nextID >= old(nextID) && Identified(old(items), old(indexIDs), k, items, indexIDs)
      ensures Steps(old(items), steps, items)
    {
      hide Inverse, Used, Registered, Grew, NoNewEdge, LinkedUnder, NewLinks, Matches, Steps;
      var ids := matches;
      if matches == [] {
        ids := [Minted(nextID)];
        nextID := nextID + 1;
      }
      MatchesIdentify(items, indexIDs, k, matches, ids);
      SameDepIds(indexIDs, k, ids);
      GrewNot(items);
      indexIDs := indexIDs[k := ids];
      steps := LinkAll(k, ids, bare);
    }

    method LinkAll(k: Key, ids: seq<Id>, ghost bare: set<Id>) returns (ghost steps: seq<LinkStep>)
      requires Linking(bare + DepIds(indexIDs, k)) == true && DepsKnown(indexIDs, k) && ids != []
      requires forall m | m in ids :: m.Minted? ==> m.n < nextID
      modifies `items
      ensures Linking(bare + Elems(ids)) == true
      ensures Grew(old(items), items) == NoNewEdge(old(items), items) == true
      ensures NewLinks(old(items), items, DepIds(indexIDs, k), Elems(ids)) && forall m | m in ids :: m in items
      ensures Steps(old(items), steps, items)
    {
      hide Linking, Grew, NoNewEdge, LinkedUnder, DepIds, DepsKnown, NewLinks, NewlyLinked, Steps;
      steps := [];
      NoSteps(items);
      GrewNot(items);
      ghost var sources := DepIds(indexIDs, k);
      ghost var open := bare + sources;
      NewLinksNot(items, sources, Elems(ids));
      for n := 0 to |ids|
        invariant Linking(open) == true && Grew(old(items), items) == NoNewEdge(old(items), items) == true
        invariant if n == 0 then open == bare + sources else open <= bare + Elems(ids)
        invariant NewLinks(old(items), items, sources, Elems(ids)) && forall m | 0 <= m < n :: ids[m] in items
        invariant Steps(old(items), steps, items)
      {
        ghost var before := items;
        EnforceLinked(ids[n], k, open);
        ghost var step := LinkStep(before, sources, ids[n], items);
        OneStep(step);
        StepsThen(old(items), steps, before, [step], items);
        steps := steps + [step];
        GrewTwice(old(items), before, items);
        NoNewEdgeTwice(old(items), before, items);
        MoreTargets(before, items, sources, ids[n], Elems(ids));
        NewLinksTwice(old(items), before, items, sources, Elems(ids));
        open := open + {ids[n]} - sources;
      }
      WiderLinking(open, bare + Elems(ids));
      assert open + (bare + Elems(ids)) == bare + Elems(ids);
    }

    // ---- storing edges ----

    /** The last of the matching items that does not belong to e, and its edge, which may be none. */
    method FindOther(ids: seq<Id>, e: EdgeID) returns (other: Option<EdgeID>, otherID: Id)
      requires ids != []
      ensures otherID in ids
      ensures other.Some? ==> other.value != e && otherID in items && items[otherID].edge == other
      ensures other.None? ==> (forall id | id in ids && id in items :: items[id].edge == Some(e)) ||
                              exists id | id in ids && id in items :: items[id].edge.None?
    {
      other, otherID := None, ids[0];
      for n := 0 to |ids|
        invariant otherID in ids
        invariant other.Some? ==> other.value != e && otherID in items && items[otherID].edge == other
        invariant other.None? ==> (forall m | 0 <= m < n && ids[m] in items :: items[ids[m]].edge == Some(e)) ||
                                  exists m | 0 <= m < n && ids[m] in items :: items[ids[m]].edge.None?
      {
        if ids[n] in items && items[ids[n]].edge != Some(e) {
          other, otherID := items[ids[n]].edge, ids[n];
        }
      }
    }

    /** Finds another edge with the same key, or stores e under the key. Either way the item of the
        edge can then be found through every alternative of every input of the key. `mid` are the items when the
        inputs have been identified and `matches` those that match the key. */
    method LoadOrStore(k: Key, e: EdgeID)
      returns (r: Option<EdgeID>, ghost id: Id, ghost mid: Items, ghost matches: set<Id>, ghost steps: seq<LinkStep>)
      requires Valid() == true
      modifies this
      ensures Valid() == true && id in items && items[id].edge == (if r.Some? then r else Some(e))
      ensures LinkedUnder(items, indexIDs, k, id) == DepsKnown(indexIDs, k) == true
      ensures r.Some? ==> r.value != e && id in old(items) && old(items)[id].edge == r && backRefs == old(backRefs)
                          && (ignoreCache(r.value) || !ignoreCache(e))
      ensures r.None? ==> backRefs == Referring(old(backRefs), e, id)
      ensures KeepsEdges(old(items), items, id) == true
      ensures Grew(old(items), mid) == NoNewEdge(old(items), mid) == MemoGrows(old(indexIDs), indexIDs) == true
      ensures forall m :: m in matches <==> Matches(mid, indexIDs, k, m)
      ensures if matches == {} then id !in mid else id in matches
      ensures r.None? ==> NoOther(mid, matches, e, ignoreCache)
      ensures NewlyLinked(mid, items, DepIds(indexIDs, k), id) == true
      ensures Steps(old(items), steps, mid)
      ensures Cyclic(mid) <==> old(Cyclic(items)) || exists i | 0 <= i < |steps| :: Closes(steps[i])
      ensures Cyclic(items) <==> Cyclic(mid) || exists z | z in DepIds(indexIDs, k) && z in items :: Reaches(mid, id, z)
      ensures DepsKnown(old(indexIDs), k) ==> mid == old(items) && indexIDs == old(indexIDs)
      ensures forall q | !DepsKnown(old(indexIDs), k) && OnlyUnknown(old(indexIDs), k, q) ::
                Identified(old(items), old(indexIDs), q, mid, indexIDs)
    {
      hide Linking, Grew, NoNewEdge, LinkedUnder, DepIds, Matches, Valid, KeepsEdges, OnlyUnknown, Identified,
        MemoGrows,
        NewlyLinked, Cyclic, Reaches, Closes, Steps;
      StartLinking();
      var ids;
      ids, steps := GetAllMatches(k, {});
      CyclesByStep(old(items), steps, items);
      mid, matches := items, Elems(ids);
      NothingBare(k);
      var other: Option<EdgeID>, otherID := None, Root("", 0);
      if ids != [] { other, otherID := FindOther(ids, e); }
      if other.Some? && (ignoreCache(other.value) || !ignoreCache(e)) {
        LinkOther(k, otherID, old(items));
        r, id := other, otherID;
      } else {
        var newID := Minted(nextID);
        if ids != [] {
          newID := ids[0];
        } else {
          NotUsed(DepIds(indexIDs, k));
          UseNextID(DepIds(indexIDs, k));
        }
        Store(k, e, newID, old(items));
        r, id := None, newID;
      }
      CyclesExactly(mid, items, DepIds(indexIDs, k), id);
    }

    lemma NotUsed(bare: set<Id>)
      requires Linking(bare)
      ensures Minted(nextID) !in items
    {
    }

    lemma StartLinking()
      requires Valid() == true
      ensures Linking({})
    {
    }

    lemma NothingBare(k: Key)
      requires Linking({} + DepIds(indexIDs, k)) == true
      ensures Linking(DepIds(indexIDs, k))
    {
      assert {} + DepIds(indexIDs, k) == DepIds(indexIDs, k);
    }

    method UseNextID(ghost bare: set<Id>)
      requires Linking(bare) == true
      modifies `nextID
      ensures Linking(bare) == true && nextID == old(nextID) + 1
    {
      nextID := nextID + 1;
    }

    method LinkOther(k: Key, id: Id, ghost before: Items)
      requires Linking(DepIds(indexIDs, k)) == DepsKnown(indexIDs, k) == true && id in items && items[id].edge.Some?
      requires Grew(before, items) == NoNewEdge(before, items) == true
      modifies `items
      ensures Valid() == true && id in items && items[id].edge == old(items)[id].edge
      ensures id in before && before[id].edge == items[id].edge
      ensures LinkedUnder(items, indexIDs, k, id) == KeepsEdges(before, items, id) == true
      ensures NewlyLinked(old(items), items, DepIds(indexIDs, k), id) == true
    {
      hide Inverse, LinkedUnder, MemoOK, DepIds, DepsKnown, NewLinks;
      EnforceLinked(id, k, DepIds(indexIDs, k));
      GrewTwice(before, old(items), items);
      NoNewEdgeTwice(before, old(items), items);
      HasBeenLinked(old(items), items, indexIDs, k, id);
      assert DepIds(indexIDs, k) + {id} - DepIds(indexIDs, k) <= {id};
    }

    method Store(k: Key, e: EdgeID, id: Id, ghost before: Items)
      requires Linking(DepIds(indexIDs, k)) == DepsKnown(indexIDs, k) == true && (id.Minted? ==> id.n < nextID)
      requires Grew(before, items) == NoNewEdge(before, items) == true
      modifies `items, `backRefs
      ensures Valid() == true && id in items && items[id].edge == Some(e)
      ensures backRefs == Referring(old(backRefs), e, id)
      ensures LinkedUnder(items, indexIDs, k, id) == KeepsEdges(before, items, id) == true
      ensures NewlyLinked(old(items), items, DepIds(indexIDs, k), id) == true
    {
      hide Linking, LinkedUnder, DepIds, DepsKnown, NewLinks, NewlyLinked, KeepsEdges, Valid;
      EnforceLinked(id, k, DepIds(indexIDs, k));
      GrewTwice(before, old(items), items);
      NoNewEdgeTwice(before, old(items), items);
      HasBeenLinked(old(items), items, indexIDs, k, id);
      SetEdgeFrom(old(items), items, DepIds(indexIDs, k), id, e);
      SetEdgeLinked(items, indexIDs, k, id, e);
      NameEdge(id, e, DepIds(indexIDs, k) + {id} - DepIds(indexIDs, k), before);
    }

    method NameEdge(id: Id, e: EdgeID, ghost bare: set<Id>, ghost before: Items)
      requires Linking(bare) == true && id in items && bare <= {id}
        && Grew(before, items) == NoNewEdge(before, items) == true
      modifies `items, `backRefs
      ensures items == old(items)[id := old(items)[id].(edge := Some(e))] && backRefs == Referring(old(backRefs), e, id)
      ensures Valid() == true && KeepsEdges(before, items, id) == true
    {
      hide Inverse, MemoOK;
      SetEdgeInverse(items, id, e);
      items := items[id := items[id].(edge := Some(e))];
      backRefs := Referring(backRefs, e, id);
    }

    // ---- release ----

    /** The links of id to a dying item are dropped; if nothing keeps id alive, it goes too. */
    method ReleaseLink(id: Id, target: Id, ghost dying: set<Id>, ghost core: set<Id>)
      requires Collecting(items, dying, core) == true && target in dying && id in items && LinksTo(items[id], target)
      modifies `items
      ensures Collecting(items, dying, core) == Shrunk(old(items), items, dying) == true
      ensures SameLinksTo(old(items), items, dying - {target}) == true
      ensures forall a | a in old(items) && a != id && LinksTo(old(items)[a], target) ::
        a in items && LinksTo(items[a], target)
      ensures id in items ==> !LinksTo(items[id], target)
      ensures LinkPairs(items) < LinkPairs(old(items))
      decreases LinkPairs(items), 1
    {
      hide Collecting, Shrunk, SameLinksTo, LinkPairs, LinksTo;
      DropCollecting(items, id, target, dying, core);
      DropShrinks(items, id, target, dying);
      items := Dropped(items, id, target);
      if items[id].edge.None? && items[id].links == {} {
        ghost var dropped := items;
        RemoveEmpty(id, dying + {id}, core);
        assert dying + {id} - {id} == dying;
        ShrunkTwice(old(items), dropped, items, dying);
        SameLinkers(dropped, items, target, dying);
        SameLinksTwice(old(items), dropped, items, dying - {target});
      }
    }

    /** An item without an edge and links is taken out of the index, with the links to it. */
    method RemoveEmpty(t: Id, ghost dying: set<Id>, ghost core: set<Id>)
      requires Collecting(items, dying, core) == true && t in dying
      requires forall d | d in items[t].deps :: d in items && LinksTo(items[d], t)
      modifies `items
      ensures Collecting(items, dying - {t}, core) == Shrunk(old(items), items, dying - {t}) == true
      ensures SameLinksTo(old(items), items, dying - {t}) == true && t !in items
      ensures LinkPairs(items) <= LinkPairs(old(items))
      decreases LinkPairs(items), 2
    {
      hide Inverse, Used, Core, Shrunk, LinkPairs;
      LinkersAreDeps(items, t, dying);
      ShrunkNot(items, dying);
      var todo := items[t].deps;
      while todo != {}
        invariant Collecting(items, dying, core) == Shrunk(old(items), items, dying) == true
        invariant SameLinksTo(old(items), items, dying - {t}) && LinkPairs(items) <= LinkPairs(old(items))
        invariant forall d | d in todo :: d in items && LinksTo(items[d], t)
        invariant forall d | d in items && LinksTo(items[d], t) :: d in todo
        decreases todo
      {
        var d :| d in todo;
        ghost var before := items;
        ReleaseLink(d, t, dying, core);
        ShrunkTwice(old(items), before, items, dying);
        ShrunkLinkers(before, items, t, dying);
        todo := todo - {d};
      }
      ForgetItem(items, t, dying, core);
      ForgetShrinks(old(items), items, t, dying);
      items := items - {t};
    }

    method ReleaseEdge(id: Id, ghost core: set<Id>)
      requires Inverse(items, {}) == Used(items, {}) == Core(items, core) == true
      modifies `items
      ensures Inverse(items, {}) == Used(items, {}) == Core(items, core) == true
      ensures Shrunk(WithoutEdges(old(items), {id}), items, {}) == true
    {
      hide Inverse, Core, Shrunk;
      StripInverse(items, {id});
      StripCore(items, {id}, core);
      ShrunkNot(WithoutEdges(items, {id}), {});
      ghost var stripped := WithoutEdges(items, {id});
      if id in items {
        var it := items[id];
        items := items[id := it.(edge := None)];
        assert items == stripped;
        if it.links == {} {
          EmptyIsDying(items, id, core);
          RemoveEmpty(id, {id}, core);
          assert {id} - {id} == {};
        }
      } else {
        assert items == stripped;
      }
    }

    lemma EmptyIsDying(items: Items, id: Id, core: set<Id>)
      requires Inverse(items, {}) == Core(items, core) == true && Used(items, {id})
      requires id in items && items[id].edge.None? && items[id].links == {}
      ensures Collecting(items, {id}, core)
      ensures forall d | d in items[id].deps :: d in items && LinksTo(items[d], id)
    {
    }

    /** e leaves the index. What is left are exactly the items that still have a use, and they lose
        nothing but links to items that are gone. */
    method Release(e: EdgeID)
      requires Valid() == true
      modifies this
      ensures Valid() == true
      ensures e !in backRefs && backRefs == old(backRefs) - {e} && nextID == old(nextID) && indexIDs == old(indexIDs)
      ensures forall a | a in items :: items[a].edge != Some(e)
      ensures Collected(WithoutEdges(old(items), if e in old(backRefs) then old(backRefs)[e] else {}), items) == true
    {
      hide Inverse, Used, Core, Shrunk, Collected, WidestCore;
      var todo := if e in backRefs then backRefs[e] else {};
      ghost var refs, done: set<Id> := todo, {};
      ghost var core := WidestCore(WithoutEdges(items, refs));
      WidestCoreIsCore(WithoutEdges(items, refs));
      StrippedCore(items, refs, core);
      assert WithoutEdges(items, {}) == items;
      ShrunkNot(items, {});
      while todo != {}
        invariant Inverse(items, {}) == Used(items, {}) == Core(items, core) == true
        invariant Shrunk(WithoutEdges(old(items), done), items, {}) == true && done + todo == refs
        invariant backRefs == old(backRefs) && nextID == old(nextID) && indexIDs == old(indexIDs)
        decreases todo
      {
        var id :| id in todo;
        ghost var before := items;
        ReleaseEdge(id, core);
        StripMore(old(items), done, before, id, items);
        todo, done := todo - {id}, done + {id};
      }
      assert done == refs;
      CoreIsIn(items, core);
      ExactlyCollected(WithoutEdges(old(items), refs), items);
      backRefs := backRefs - {e};
      StrippedRegistered(old(items), items, old(backRefs), e, refs);
    }

    lemma StrippedRegistered(before: Items, now: Items, backRefs: map<EdgeID, set<Id>>, e: EdgeID, refs: set<Id>)
      requires Registered(before, backRefs) == Shrunk(WithoutEdges(before, refs), now, {}) == true
      requires e in backRefs ==> refs == backRefs[e]
      ensures Registered(now, backRefs - {e}) && now.Keys <= before.Keys
      ensures forall a | a in now :: now[a].edge != Some(e)
    {
    }

    /** Once every stored edge has been released the index is empty, exactly if it held no cycle. */
    method ReleaseAll()
      requires Valid() == true
      modifies this
      ensures Valid() == true && backRefs == map[]
      ensures items == map[] <==> !old(Cyclic(items))
    {
      hide Inverse, Used, Core, Shrunk, Registered, Collected;
      ghost var core: set<Id> := {};
      EmptyCore(items);
      if Cyclic(items) { core :| core != {} && Core(items, core); }
      var todo := backRefs.Keys;
      while todo != {}
        invariant Valid() == Core(items, core) == true && todo == backRefs.Keys
        invariant Fewer(old(items), items)
        decreases todo
      {
        var e :| e in todo;
        ghost var before := items;
        ghost var refs := backRefs[e];
        Release(e);
        CollectedFewer(before, refs, items, core);
        todo := todo - {e};
      }
      NothingLeft(old(items), items, backRefs, core);
    }
  }

  lemma EmptyCore(items: Items)
    ensures Core(items, {})
  {
  }

  ghost predicate Fewer(before: Items, now: Items) {
    forall a | a in now :: a in before && now[a].links <= before[a].links
  }

  lemma CollectedFewer(before: Items, refs: set<Id>, now: Items, core: set<Id>)
    requires Collected(WithoutEdges(before, refs), now) == Core(before, core) == true
    ensures Fewer(before, now) && Core(now, core)
  {
    hide Core;
    StripCore(before, refs, core);
    CoreStays(WithoutEdges(before, refs), now, core);
  }

  /** What is left without edges links back to what is left. */
  lemma LeftLinksBack(before: Items, now: Items, backRefs: map<EdgeID, set<Id>>, a: Id)
    requires Inverse(now, {}) && Used(now, {}) && Registered(now, backRefs) && Fewer(before, now)
    requires backRefs == map[] && a in now
    ensures a in before && LinksInto(before[a], now.Keys)
  {
    assert now[a].edge.None?;
    var lt :| lt in now[a].links;
    assert lt in before[a].links && lt.target in now;
  }

  lemma NothingLeft(before: Items, now: Items, backRefs: map<EdgeID, set<Id>>, core: set<Id>)
    requires Inverse(now, {}) == Used(now, {}) == Registered(now, backRefs) == Core(now, core) == Fewer(before, now)
      == true
    requires backRefs == map[] && (Cyclic(before) ==> core != {})
    ensures now == map[] <==> !Cyclic(before)
  {
    hide Inverse, Used, Registered, Fewer, Cyclic, LinksInto;
    if now != map[] {
      forall a | a in now.Keys ensures a in before && LinksInto(before[a], now.Keys) {
        LeftLinksBack(before, now, backRefs, a);
      }
      MakesCycle(before, now.Keys);
    }
  }

  /** Keys without cycles can still make a cycle of items. If an input of c can be given by d or by a, where a is the
      same operation on d, then c matches the item of a, and linking c to that item links the item to itself. When
      all edges have been released, it is still there. */
  method AlternativesCanCycle(ignoreCache: EdgeID -> bool, d: KeySel, a: Key, s: Digest, c: Key, e: EdgeID, f: EdgeID)
    returns (index: Index)
    requires d.key.deps == [] && a.deps == [Input([d])] && c.deps == [Input([d, KeySel(s, a)])]
    requires c.digest == a.digest && c.output == a.output
    ensures index.Valid() && index.backRefs == map[] && index.items != map[]
  {
    hide Index.Valid, LinkedUnder, Identified, NewlyLinked, Matches, OnlyUnknown, Cyclic, Reaches, KeepsEdges, NoOther;
    index := new Index(ignoreCache);
    SmallerKeys(d, a, s, c);
    FirstUnknown(d, a);
    var r, x, mid, ms, more := index.LoadOrStore(a, e);
    AfterFirst(d, a, mid, index.indexIDs, index.items, x, ms);
    ghost var items, memo := index.items, index.indexIDs;
    SecondUnknown(memo, d, a, s, c);
    var r', y, mid', ms', more' := index.LoadOrStore(c, f);
    AfterSecond(d, a, s, c, items, memo, x, mid', index.indexIDs, ms');
    SelfLink(d, a, s, c, index.items, index.indexIDs, x);
    index.ReleaseAll();
  }

  lemma SmallerKeys(d: KeySel, a: Key, s: Digest, c: Key)
    requires a.deps == [Input([d])] && c.deps == [Input([d, KeySel(s, a)])]
    ensures a != d.key
  {
    assert a.deps[0].alts[0].key < a;
  }

  lemma FirstUnknown(d: KeySel, a: Key)
    requires d.key.deps == [] && a.deps == [Input([d])]
    ensures OnlyUnknown(map[], a, d.key) && !DepsKnown(map[], a)
  {
    var none: map<Key, seq<Id>> := map[];
    assert a.deps[0].alts[0].key !in none;
  }

  /** The only link leads from the item of d to the item of a. */
  ghost predicate OneLink(d: KeySel, a: Key, items: Items, memo: map<Key, seq<Id>>, x: Id) {
    var root := Root(d.key.digest, d.key.output);
    && d.key in memo && memo == map[d.key := memo[d.key]]
    && (forall m :: m in memo[d.key] <==> m == root)
    && HasLink(items, root, LinkTo(LinkFor(a, 0, d), x)) && x in items
    && forall z, lt | HasLink(items, z, lt) :: z == root && lt.target == x
  }

  lemma AfterFirst(d: KeySel, a: Key, mid: Items, memo: map<Key, seq<Id>>, items: Items, x: Id, ms: set<Id>)
    requires d.key.deps == [] && a.deps == [Input([d])]
    requires Identified(map[], map[], d.key, mid, memo) && NewlyLinked(mid, items, DepIds(memo, a), x)
    requires LinkedUnder(items, memo, a, x) && x in items
    ensures d.key in memo && OneLink(d, a, items, memo, x)
  {
    var root := Root(d.key.digest, d.key.output);
    var none: map<Key, seq<Id>> := map[];
    assert Matches(map[], none, d.key, root);
    assert DepIds(none, d.key) == {};
    assert forall z, lt :: !HasLink(mid, z, lt);
    forall z | z in DepIds(memo, a) ensures z == root {}
    assert LinkedAt(items, memo, a, x, 0, 0);
    assert d.key == a.deps[0].alts[0].key;
  }

  lemma SecondUnknown(memo: map<Key, seq<Id>>, d: KeySel, a: Key, s: Digest, c: Key)
    requires d.key in memo && memo.Keys == {d.key} && a != d.key
    requires a.deps == [Input([d])] && c.deps == [Input([d, KeySel(s, a)])]
    ensures OnlyUnknown(memo, c, a) && !DepsKnown(memo, c)
  {
    assert c.deps[0].alts[1].key !in memo;
  }

  /** The only match of c is the item of a. */
  lemma AfterSecond(d: KeySel, a: Key, s: Digest, c: Key, items: Items, memo: map<Key, seq<Id>>, x: Id,
                    mid: Items, known: map<Key, seq<Id>>, ms: set<Id>)
    requires a.deps == [Input([d])] && c.deps == [Input([d, KeySel(s, a)])] && c.digest == a.digest
      && c.output == a.output
    requires d.key in memo && a != d.key && OneLink(d, a, items, memo, x) && Identified(items, memo, a, mid, known)
    requires Grew(items, mid) && forall m :: m in ms <==> Matches(mid, known, c, m)
    ensures a in known && x in known[a] && ms == {x}
  {
    OneMatch(d, a, items, memo, x);
    assert Matches(items, memo, a, x);
    assert forall m | m in known[a] :: m == x by { hide Matches; }
    MatchIsTarget(d, a, s, c, items, mid, known, x);
    var root := Root(d.key.digest, d.key.output);
    assert HasLink(mid, root, LinkTo(LinkFor(c, 0, d), x));
    assert d in c.deps[0].alts && MatchesVia(mid, known, c, 0, d, x);
    assert MatchesInput(mid, known, c, 0, x);
  }

  lemma MatchIsTarget(d: KeySel, a: Key, s: Digest, c: Key, items: Items, mid: Items, known: map<Key, seq<Id>>, x: Id)
    requires c.deps == [Input([d, KeySel(s, a)])] && a in known && forall m | m in known[a] :: m == x
    requires exists sources: set<Id> :: NewLinks(items, mid, sources, Elems(known[a]))
    requires forall z, lt | HasLink(items, z, lt) :: lt.target == x
    ensures forall m | Matches(mid, known, c, m) :: m == x
  {
    var sources: set<Id> :| NewLinks(items, mid, sources, Elems(known[a]));
    forall m | Matches(mid, known, c, m) ensures m == x {
      assert MatchesInput(mid, known, c, 0, m);
      var via :| via in c.deps[0].alts && MatchesVia(mid, known, c, 0, via, m);
      var z :| z in IdsOf(known, via.key) && z in mid && LinkTo(LinkFor(c, 0, via), m) in mid[z].links;
      assert HasLink(mid, z, LinkTo(LinkFor(c, 0, via), m));
    }
  }

  lemma OneMatch(d: KeySel, a: Key, items: Items, memo: map<Key, seq<Id>>, x: Id)
    requires a.deps == [Input([d])] && d.key in memo && OneLink(d, a, items, memo, x)
    ensures forall m :: Matches(items, memo, a, m) <==> m == x
  {
    forall m ensures Matches(items, memo, a, m) <==> m == x {
      if Matches(items, memo, a, m) {
        assert MatchesInput(items, memo, a, 0, m);
        var via :| via in a.deps[0].alts && MatchesVia(items, memo, a, 0, via, m);
        var z :| z in IdsOf(memo, via.key) && z in items && LinkTo(LinkFor(a, 0, via), m) in items[z].links;
        assert HasLink(items, z, LinkTo(LinkFor(a, 0, via), m));
      }
    }
    assert d in a.deps[0].alts && MatchesVia(items, memo, a, 0, d, x);
    assert MatchesInput(items, memo, a, 0, x);
  }

  lemma SelfLink(d: KeySel, a: Key, s: Digest, c: Key, items: Items, memo: map<Key, seq<Id>>, x: Id)
    requires c.deps == [Input([d, KeySel(s, a)])] && a in memo && x in memo[a] && x in items
      && LinkedUnder(items, memo, c, x)
    ensures Cyclic(items)
  {
    assert LinkedAt(items, memo, c, x, 0, 1);
    assert LinkTo(LinkFor(c, 0, KeySel(s, a)), x) in items[x].links;
    MakesCycle(items, {x});
  }
}
