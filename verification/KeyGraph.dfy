/** Graphs of cache keys: how one key is derived from others, which keys match, and what is left when
    a key is no longer used. Shared by the edge index and the cache key storage. */
module KeyGraph {
  import opened SolverTypes

  type EdgeID = nat

  /** Cache keys form a graph without cycles; `ptr` is the identity of the key object. */
  datatype Key = Key(ptr: nat, digest: Digest, output: int, deps: seq<Input>)
  datatype Input = Input(alts: seq<KeySel>)   // the alternative keys of one input
  datatype KeySel = KeySel(selector: Digest, key: Key)

  /** Identifiers of items: derived from a key without inputs, or minted. */
  datatype Id = Root(digest: Digest, output: int) | Minted(n: nat)

  datatype Link = Link(input: nat, digest: Digest, output: int, selector: Digest)
  datatype LinkTo = LinkTo(link: Link, target: Id)
  datatype Item = Item(edge: Option<EdgeID>, links: set<LinkTo>, deps: set<Id>)

  type Items = map<Id, Item>

  ghost predicate LinksTo(it: Item, b: Id) {
    exists lt | lt in it.links :: lt.target == b
  }

  /** Links and deps are inverse and nothing dangles; items in `dying` may still name deps that no longer link to them.
      */
  ghost predicate Inverse(items: Items, dying: set<Id>) {
    && (forall a, lt | a in items && lt in items[a].links :: lt.target in items && a in items[lt.target].deps)
    && (forall b, a | b in items && b !in dying && a in items[b].deps :: a in items && LinksTo(items[a], b))
  }

  /** Every item outside `bare` has an edge or a link. */
  ghost predicate Used(items: Items, bare: set<Id>) {
    forall a | a in items && a !in bare :: items[a].edge.Some? || items[a].links != {}
  }

  function IdsOf(memo: map<Key, seq<Id>>, k: Key): seq<Id> {
    if k in memo then memo[k] else []
  }

  function LinkFor(k: Key, i: nat, d: KeySel): Link {
    Link(i, k.digest, k.output, d.selector)
  }

  /** Item m is linked from one of the identifiers of d, as input i of k. */
  ghost predicate MatchesVia(items: Items, memo: map<Key, seq<Id>>, k: Key, i: nat, d: KeySel, m: Id) {
    exists c | c in IdsOf(memo, d.key) :: c in items && LinkTo(LinkFor(k, i, d), m) in items[c].links
  }

  ghost predicate MatchesInput(items: Items, memo: map<Key, seq<Id>>, k: Key, i: nat, m: Id)
    requires i < |k.deps|
  {
    exists d | d in k.deps[i].alts :: MatchesVia(items, memo, k, i, d, m)
  }

  /** The matches of a key: linked, for every input, from at least one alternative of that input. */
  ghost predicate Matches(items: Items, memo: map<Key, seq<Id>>, k: Key, m: Id) {
    if k.deps == [] then m == Root(k.digest, k.output)
    else forall i | 0 <= i < |k.deps| :: MatchesInput(items, memo, k, i, m)
  }

  /** The identifiers of the first n inputs of k. */
  ghost function DepIds(memo: map<Key, seq<Id>>, k: Key): set<Id> {
    set i, j, c | 0 <= i < |k.deps| && 0 <= j < |k.deps[i].alts| && c in IdsOf(memo, k.deps[i].alts[j].key) :: c
  }

  /** Every input of k has identifiers. */
  ghost predicate DepsKnown(memo: map<Key, seq<Id>>, k: Key) {
    forall i, j | 0 <= i < |k.deps| && 0 <= j < |k.deps[i].alts| :: k.deps[i].alts[j].key in memo
  }

  /** Identifiers of keys never change. */
  ghost predicate MemoGrows(a: map<Key, seq<Id>>, b: map<Key, seq<Id>>) {
    forall k | k in a :: k in b && b[k] == a[k]
  }

  /** The items for input j of input list i of k all link to id. */
  ghost predicate LinkedAt(items: Items, memo: map<Key, seq<Id>>, k: Key, id: Id, i: nat, j: nat)
    requires i < |k.deps| && j < |k.deps[i].alts|
  {
    forall c | c in IdsOf(memo, k.deps[i].alts[j].key) && c in items ::
      LinkTo(LinkFor(k, i, k.deps[i].alts[j]), id) in items[c].links
  }

  /** Whatever alternative of an input is asked for, the item id is found under key k. */
  ghost predicate LinkedUnder(items: Items, memo: map<Key, seq<Id>>, k: Key, id: Id) {
    forall i, j | 0 <= i < |k.deps| && 0 <= j < |k.deps[i].alts| :: LinkedAt(items, memo, k, id, i, j)
  }

  /** Items, links and deps have only been added, and the edges are the same. */
  ghost predicate Grew(a: Items, b: Items) {
    forall x | x in a :: x in b && b[x].edge == a[x].edge && a[x].links <= b[x].links && a[x].deps <= b[x].deps
  }

  /** New items have no edge. */
  ghost predicate NoNewEdge(a: Items, b: Items) {
    forall x | x in b && x !in a :: b[x].edge.None?
  }

  function AddedLink(items: Items, c: Id, l: Link, id: Id): Items
    requires c in items && id in items
  {
    map x | x in items ::
      Item(items[x].edge,
           if x == c then items[x].links + {LinkTo(l, id)} else items[x].links,
           if x == id then items[x].deps + {c} else items[x].deps)
  }

  lemma StillLinksTo(was: Item, now: Item, b: Id)
    requires LinksTo(was, b) && was.links <= now.links
    ensures LinksTo(now, b)
  {
  }

  lemma AddLinkInverse(items: Items, c: Id, l: Link, id: Id)
    requires Inverse(items, {}) == true && c in items && id in items
    ensures var now := AddedLink(items, c, l, id);
      Inverse(now, {}) && Grew(items, now) && now.Keys == items.Keys && LinkTo(l, id) in now[c].links
  {
    hide Inverse, Grew;
    AddLinkGrows(items, c, l, id);
    AddLinkStaysInverse(items, c, l, id);
  }

  lemma AddLinkGrows(items: Items, c: Id, l: Link, id: Id)
    requires c in items && id in items
    ensures var now := AddedLink(items, c, l, id);
      Grew(items, now) && now.Keys == items.Keys && LinkTo(l, id) in now[c].links
  {
  }

  lemma AddLinkStaysInverse(items: Items, c: Id, l: Link, id: Id)
    requires Inverse(items, {}) == true && c in items && id in items
    ensures Inverse(AddedLink(items, c, l, id), {})
  {
    var now := AddedLink(items, c, l, id);
    forall a, lt | a in now && lt in now[a].links ensures lt.target in now && a in now[lt.target].deps {
      if lt !in items[a].links { assert a == c && lt.target == id; }
    }
    forall b, a | b in now && a in now[b].deps ensures a in now && LinksTo(now[a], b) {
      AddedDep(items, c, l, id, b, a);
    }
  }

  lemma AddedDep(items: Items, c: Id, l: Link, id: Id, b: Id, a: Id)
    requires Inverse(items, {}) && c in items && id in items && b in items && a in AddedLink(items, c, l, id)[b].deps
    ensures a in items && LinksTo(AddedLink(items, c, l, id)[a], b)
  {
    var now := AddedLink(items, c, l, id);
    if b == id && a == c {
      assert LinkTo(l, id) in now[c].links;
    } else {
      assert a in items[b].deps && LinksTo(items[a], b);
      StillLinksTo(items[a], now[a], b);
    }
  }

  lemma GrewNot(a: Items)
    ensures Grew(a, a) && NoNewEdge(a, a)
  {
  }

  lemma GrewTwice(a: Items, b: Items, c: Items)
    requires Grew(a, b) == Grew(b, c) == true
    ensures Grew(a, c)
  {
  }

  lemma GrewLinks(a: Items, b: Items)
    requires Grew(a, b) == true
    ensures forall x | x in a :: x in b && a[x].links <= b[x].links
  {
  }

  lemma StayLinkedAt(a: Items, b: Items, memo: map<Key, seq<Id>>, k: Key, id: Id)
    requires Grew(a, b) == true && a.Keys == b.Keys
    ensures forall i, j | 0 <= i < |k.deps| && 0 <= j < |k.deps[i].alts| && LinkedAt(a, memo, k, id, i, j) ::
              LinkedAt(b, memo, k, id, i, j)
  {
  }

  lemma NoEdgeAdded(a: Items, b: Items, c: Items)
    requires NoNewEdge(a, b) && Grew(b, c) && b.Keys == c.Keys
    ensures NoNewEdge(a, c)
  {
  }

  lemma AddItemInverse(items: Items, id: Id)
    requires Inverse(items, {}) == true && id !in items
    ensures Inverse(items[id := Item(None, {}, {})], {})
  {
  }

  /** An edge stored under k is found by every key that shares an alternative for each of its inputs. */
  lemma SharedAlternativesMatch(items: Items, memo: map<Key, seq<Id>>, k: Key, id: Id, other: Key)
    requires LinkedUnder(items, memo, k, id) == true && other.digest == k.digest && other.output == k.output
    requires |other.deps| == |k.deps| > 0
    requires forall i | 0 <= i < |k.deps| ::
               exists d | d in k.deps[i].alts && d in other.deps[i].alts :: exists c | c in IdsOf(memo, d.key) ::
                 c in items
    ensures Matches(items, memo, other, id)
  {
    forall i | 0 <= i < |other.deps| ensures MatchesInput(items, memo, other, i, id) {
      var d :| d in k.deps[i].alts && d in other.deps[i].alts && exists c | c in IdsOf(memo, d.key) :: c in items;
      var c :| c in IdsOf(memo, d.key) && c in items;
      var j :| 0 <= j < |k.deps[i].alts| && k.deps[i].alts[j] == d;
      assert LinkedAt(items, memo, k, id, i, j);
      assert LinkTo(LinkFor(other, i, d), id) in items[c].links;
      assert MatchesVia(items, memo, other, i, d, id);
    }
  }

  // ---- collecting unused items ----

  ghost function LinkPairs(items: Items): set<(Id, LinkTo)> {
    set a, lt | a in items && lt in items[a].links :: (a, lt)
  }

  /** The items on the way out have neither an edge nor a link. */
  ghost predicate Dying(items: Items, dying: set<Id>) {
    forall a | a in dying :: a in items && items[a].edge.None? && items[a].links == {}
  }

  /** Every item of the set links back into the set. */
  ghost predicate Core(items: Items, core: set<Id>) {
    core <= items.Keys && forall a {:trigger items[a]} | a in core :: LinksInto(items[a], core)
  }

  ghost predicate LinksInto(it: Item, core: set<Id>) {
    exists lt | lt in it.links :: lt.target in core
  }

  ghost predicate Collecting(items: Items, dying: set<Id>, core: set<Id>) {
    Inverse(items, dying) && Used(items, dying) && Dying(items, dying) && Core(items, core) && core !! dying
  }

  /** Items and links have only been removed: links only to items that are gone or dying, and items
      only if they had no edge and only such links. Nothing else about the survivors has changed. */
  ghost predicate Shrunk(before: Items, now: Items, dying: set<Id>) {
    && now.Keys <= before.Keys
    && (forall a | a in now ::
          && now[a].edge == before[a].edge && now[a].deps == before[a].deps && now[a].links <= before[a].links
          && forall lt | lt in before[a].links && lt !in now[a].links :: lt.target !in now || lt.target in dying)
    && (forall a | a in before && a !in now ::
          && before[a].edge.None?
          && forall lt | lt in before[a].links :: lt.target !in now || lt.target in dying)
  }

  /** Links to dying items are the same. */
  ghost predicate SameLinksTo(before: Items, now: Items, dying: set<Id>) {
    forall a, lt | a in before && lt in before[a].links && lt.target in dying :: a in now && lt in now[a].links
  }

  /** The index after the links of id to target have been dropped. */
  function Dropped(items: Items, id: Id, target: Id): Items
    requires id in items
  {
    items[id := items[id].(links := set lt | lt in items[id].links && lt.target != target)]
  }

  /** A dropped link leaves an index that is still being collected; an item left with nothing joins the dying ones. */
  lemma DropInverse(items: Items, id: Id, target: Id, dying: set<Id>)
    requires Inverse(items, dying) == true && id in items && target in dying
    ensures var now := Dropped(items, id, target);
      && Inverse(now, dying) && Inverse(now, dying + {id})
      && (id !in dying ==> forall d | d in now[id].deps :: d in now && LinksTo(now[d], id))
  {
    var now := Dropped(items, id, target);
    forall b, a | b in now && b !in dying && a in now[b].deps ensures a in now && LinksTo(now[a], b) {
      assert a in items[b].deps && LinksTo(items[a], b);
      var lt :| lt in items[a].links && lt.target == b;
      assert lt in now[a].links;
    }
  }

  lemma DropCore(items: Items, id: Id, target: Id, dying: set<Id>, core: set<Id>)
    requires Core(items, core) == true && core !! dying && id in items && target in dying
    ensures Core(Dropped(items, id, target), core)
    ensures id in core ==> Dropped(items, id, target)[id].links != {}
  {
    var now := Dropped(items, id, target);
    forall a | a in core ensures a in now && LinksInto(now[a], core) {
      assert LinksInto(items[a], core);
      var lt :| lt in items[a].links && lt.target in core;
      assert lt in now[a].links;
    }
  }

  lemma DropCollecting(items: Items, id: Id, target: Id, dying: set<Id>, core: set<Id>)
    requires Collecting(items, dying, core) == true && target in dying && id in items && LinksTo(items[id], target)
    ensures var now := Dropped(items, id, target);
      && id !in dying
      && (if now[id].edge.None?
        && now[id].links == {} then Collecting(now, dying + {id}, core) else Collecting(now, dying, core))
      && (forall d | d in now[id].deps :: d in now && LinksTo(now[d], id))
      && !LinksTo(now[id], target)
      && forall a | a in items && a != id && LinksTo(items[a], target) :: a in now && LinksTo(now[a], target)
  {
    hide Inverse, Core;
    DropInverse(items, id, target, dying);
    DropCore(items, id, target, dying, core);
  }

  lemma BecomesDying(g: Items, id: Id, core: set<Id>)
    requires id in g && Inverse(g, {}) == Core(g, core) == true
    requires Used(g, if g[id].edge.None? && g[id].links == {} then {id} else {}) == true
    ensures Collecting(g, if g[id].edge.None? && g[id].links == {} then {id} else {}, core)
    ensures forall d | d in g[id].deps :: d in g && LinksTo(g[d], id)
  {
  }

  lemma SameLinkers(before: Items, now: Items, t: Id, dying: set<Id>)
    requires SameLinksTo(before, now, dying) == true && t in dying
    ensures forall a | a in before && LinksTo(before[a], t) :: a in now && LinksTo(now[a], t)
    ensures SameLinksTo(before, now, dying - {t})
  {
    forall a | a in before && LinksTo(before[a], t) ensures a in now && LinksTo(now[a], t) {
      var lt :| lt in before[a].links && lt.target == t;
      assert a in now && lt in now[a].links;
    }
  }

  lemma SameLinksTwice(a: Items, b: Items, c: Items, dying: set<Id>)
    requires SameLinksTo(a, b, dying) == SameLinksTo(b, c, dying) == true
    ensures SameLinksTo(a, c, dying)
  {
  }

  lemma DropShrinks(items: Items, id: Id, target: Id, dying: set<Id>)
    requires id in items && LinksTo(items[id], target) && target in dying
    ensures var now := Dropped(items, id, target);
      Shrunk(items, now, dying) && SameLinksTo(items, now, dying - {target}) && LinkPairs(now) < LinkPairs(items)
  {
    var now := Dropped(items, id, target);
    var lt :| lt in items[id].links && lt.target == target;
    assert (id, lt) in LinkPairs(items) && (id, lt) !in LinkPairs(now);
  }

  lemma LinkersAreDeps(items: Items, t: Id, dying: set<Id>)
    requires Inverse(items, dying) == true && t in items
    ensures forall d | d in items && LinksTo(items[d], t) :: d in items[t].deps
  {
  }

  lemma ShrunkNot(items: Items, dying: set<Id>)
    ensures Shrunk(items, items, dying) && SameLinksTo(items, items, dying)
  {
  }

  lemma ShrunkLinkers(before: Items, now: Items, t: Id, dying: set<Id>)
    requires Shrunk(before, now, dying) == true
    ensures forall d | d in now && LinksTo(now[d], t) :: d in before && LinksTo(before[d], t)
  {
  }

  lemma ShrunkTwice(a: Items, b: Items, c: Items, dying: set<Id>)
    requires Shrunk(a, b, dying) == Shrunk(b, c, dying) == true
    ensures Shrunk(a, c, dying)
  {
  }

  /** A dying item that nothing links to can be forgotten. */
  lemma ForgetItem(items: Items, t: Id, dying: set<Id>, core: set<Id>)
    requires Collecting(items, dying, core) == true && t in dying
    requires forall d | d in items :: !LinksTo(items[d], t)
    ensures Collecting(items - {t}, dying - {t}, core)
  {
    hide Inverse, Core;
    ForgetInverse(items, t, dying);
    ForgetCore(items, t, core);
  }

  lemma ForgetInverse(items: Items, t: Id, dying: set<Id>)
    requires Inverse(items, dying) == true && t in items && items[t].links == {}
    requires forall d | d in items :: !LinksTo(items[d], t)
    ensures Inverse(items - {t}, dying - {t})
  {
    var now := items - {t};
    forall a, lt | a in now && lt in now[a].links ensures lt.target in now && a in now[lt.target].deps {
      assert !LinksTo(items[a], t);
    }
    forall b, a | b in now && b !in dying - {t} && a in now[b].deps ensures a in now && LinksTo(now[a], b) {
      assert a in items && LinksTo(items[a], b);
    }
  }

  lemma ForgetCore(items: Items, t: Id, core: set<Id>)
    requires Core(items, core) == true && t !in core
    ensures Core(items - {t}, core)
  {
    forall a | a in core ensures a in items - {t} && LinksInto((items - {t})[a], core) {
      assert LinksInto(items[a], core);
    }
  }

  lemma ForgetShrinks(before: Items, items: Items, t: Id, dying: set<Id>)
    requires Shrunk(before, items, dying) == SameLinksTo(before, items, dying - {t}) == true
    requires t in items && items[t].links == {} && items[t].edge.None? && LinkPairs(items) <= LinkPairs(before)
    ensures Shrunk(before, items - {t}, dying - {t}) && SameLinksTo(before, items - {t}, dying - {t})
    ensures LinkPairs(items - {t}) <= LinkPairs(before)
  {
    forall p | p in LinkPairs(items - {t}) ensures p in LinkPairs(before) {
      assert p in LinkPairs(items);
    }
  }

  /** The index with the given items stripped of their edges. */
  function WithoutEdges(items: Items, ids: set<Id>): Items {
    map a | a in items :: if a in ids then items[a].(edge := None) else items[a]
  }

  lemma StripInverse(items: Items, ids: set<Id>)
    requires Inverse(items, {}) == true
    ensures Inverse(WithoutEdges(items, ids), {})
  {
    var now := WithoutEdges(items, ids);
    forall b, a | b in now && a in now[b].deps ensures a in now && LinksTo(now[a], b) {
      assert a in items[b].deps && LinksTo(items[a], b);
      StillLinksTo(items[a], now[a], b);
    }
  }

  lemma StripCore(items: Items, ids: set<Id>, core: set<Id>)
    requires Core(items, core) == true
    ensures Core(WithoutEdges(items, ids), core)
  {
    var now := WithoutEdges(items, ids);
    forall a | a in core ensures a in now && LinksInto(now[a], core) {
      assert LinksInto(items[a], core);
    }
  }

  lemma StripMore(before: Items, ids: set<Id>, now: Items, id: Id, next: Items)
    requires Shrunk(WithoutEdges(before, ids), now, {}) == Shrunk(WithoutEdges(now, {id}), next, {}) == true
    ensures Shrunk(WithoutEdges(before, ids + {id}), next, {})
  {
    assert Shrunk(WithoutEdges(before, ids + {id}), WithoutEdges(now, {id}), {});
    ShrunkTwice(WithoutEdges(before, ids + {id}), WithoutEdges(now, {id}), next, {});
  }

  /** The items contain a cycle: some items all link back to each other. */
  ghost predicate Cyclic(items: Items) {
    exists core: set<Id> :: core != {} && Core(items, core)
  }

  // ---- when links make a cycle ----

  ghost predicate HasLink(items: Items, z: Id, lt: LinkTo) {
    z in items && lt in items[z].links
  }

  /** Links have been added only from items in `sources` to items in `targets`. */
  ghost predicate NewLinks(before: Items, now: Items, sources: set<Id>, targets: set<Id>) {
    forall z, lt | HasLink(now, z, lt) && !HasLink(before, z, lt) :: z in sources && lt.target in targets
  }

  lemma NewLinksTwice(a: Items, b: Items, c: Items, sources: set<Id>, targets: set<Id>)
    requires NewLinks(a, b, sources, targets) == NewLinks(b, c, sources, targets) == true
    ensures NewLinks(a, c, sources, targets)
  {
    hide HasLink;
    forall z, lt | HasLink(c, z, lt) && !HasLink(a, z, lt) ensures z in sources && lt.target in targets {
      if HasLink(b, z, lt) {}
    }
  }

  lemma NewLinksNot(items: Items, sources: set<Id>, targets: set<Id>)
    ensures NewLinks(items, items, sources, targets)
  {
  }

  /** A way along links. */
  ghost predicate Path(items: Items, p: seq<Id>) {
    p != [] && forall i | 0 <= i < |p| - 1 :: p[i] in items && LinksTo(items[p[i]], p[i + 1])
  }

  ghost predicate Reaches(items: Items, a: Id, b: Id) {
    exists p: seq<Id> :: Path(items, p) && p[0] == a && p[|p| - 1] == b
  }

  lemma ReachesMore(items: Items, a: Id, b: Id, c: Id)
    requires Reaches(items, a, b) && b in items && LinksTo(items[b], c)
    ensures Reaches(items, a, c)
  {
    var p: seq<Id> :| Path(items, p) && p[0] == a && p[|p| - 1] == b;
    assert Path(items, p + [c]);
  }

  /** Item id has been linked from every item in `sources`, and nothing else has changed. */
  ghost predicate NewlyLinked(before: Items, now: Items, sources: set<Id>, id: Id) {
    && now.Keys == before.Keys + {id} && NewLinks(before, now, sources, {id})
    && (forall z | z in before :: before[z].links <= now[z].links)
    && (forall z | z in sources && z in now :: LinksTo(now[z], id))
  }

  lemma MoreLinksCore(before: Items, now: Items, core: set<Id>)
    requires Core(before, core) && before.Keys <= now.Keys && forall z | z in before :: before[z].links <= now[z].links
    ensures Core(now, core)
  {
    forall a | a in core ensures LinksInto(now[a], core) {
      assert LinksInto(before[a], core);
    }
  }

  lemma PathCycles(before: Items, now: Items, sources: set<Id>, id: Id, z: Id)
    requires NewlyLinked(before, now, sources, id) && z in sources && z in now && Reaches(before, id, z)
    ensures Cyclic(now)
  {
    var p: seq<Id> :| Path(before, p) && p[0] == id && p[|p| - 1] == z;
    var core := set x | x in p;
    forall a | a in core ensures a in now && LinksInto(now[a], core) {
      var i :| 0 <= i < |p| && p[i] == a;
      var b := if i == |p| - 1 then id else p[i + 1];
      assert b in core && LinksTo(now[a], b) by {
        assert i < |p| - 1 ==> LinksTo(before[a], p[i + 1]) && before[a].links <= now[a].links;
      }
    }
    assert id in core;
    MakesCycle(now, core);
  }

  lemma OldLinkInto(before: Items, now: Items, sources: set<Id>, id: Id, a: Id, core: set<Id>) returns (lt: LinkTo)
    requires NewlyLinked(before, now, sources, id) && a in now && LinksInto(now[a], core)
      && (a !in sources || id !in core)
    ensures a in before && lt in before[a].links && lt.target in core
  {
    lt :| lt in now[a].links && lt.target in core;
    assert HasLink(now, a, lt);
  }

  lemma MakesCycle(items: Items, core: set<Id>)
    requires core != {} && forall a | a in core :: a in items && LinksInto(items[a], core)
    ensures Cyclic(items)
  {
    assert Core(items, core);
  }

  lemma NewCycleHasTarget(before: Items, now: Items, sources: set<Id>, id: Id, core: set<Id>)
    requires NewlyLinked(before, now, sources, id) == true && Core(now, core) && core != {} && !Cyclic(before)
    ensures id in core
  {
    hide NewlyLinked, Cyclic;
    if id !in core {
      forall a | a in core ensures a in before && LinksInto(before[a], core) {
        var lt := OldLinkInto(before, now, sources, id, a, core);
      }
      MakesCycle(before, core);
    }
  }

  /** The members of a set that id leads to. */
  ghost function Reached(items: Items, id: Id, core: set<Id>): set<Id> {
    set x | x in core && Reaches(items, id, x)
  }

  lemma ReachedLinksOn(before: Items, now: Items, sources: set<Id>, id: Id, core: set<Id>, a: Id)
    requires NewlyLinked(before, now, sources, id) == true && a in now && LinksInto(now[a], core) && a !in sources
    requires Reaches(before, id, a)
    ensures a in before && LinksInto(before[a], Reached(before, id, core))
  {
    hide NewlyLinked, Reaches;
    var lt := OldLinkInto(before, now, sources, id, a, core);
    ReachesMore(before, id, a, lt.target);
  }

  /** A new cycle leads from id back to an item that id was linked from. */
  lemma CycleComesBack(before: Items, now: Items, sources: set<Id>, id: Id, core: set<Id>)
    requires NewlyLinked(before, now, sources, id) == true && Core(now, core) && core != {} && !Cyclic(before)
    ensures exists z | z in sources && z in now :: Reaches(before, id, z)
  {
    hide NewlyLinked, Reaches, Cyclic, LinksInto;
    NewCycleHasTarget(before, now, sources, id, core);
    ReachesItself(before, id);
    assert id in Reached(before, id, core);
    if forall z | z in sources && z in now :: !Reaches(before, id, z) {
      forall a | a in Reached(before, id, core) ensures a in before && LinksInto(before[a], Reached(before, id, core)) {
        ReachedLinksOn(before, now, sources, id, core, a);
      }
      MakesCycle(before, Reached(before, id, core));
    }
  }

  lemma ReachesItself(items: Items, a: Id)
    ensures Reaches(items, a, a)
  {
    assert Path(items, [a]);
  }

  /** Linking makes a cycle exactly if there was one or id leads to an item it is linked from. */
  lemma CyclesExactly(before: Items, now: Items, sources: set<Id>, id: Id)
    requires NewlyLinked(before, now, sources, id) == true
    ensures Cyclic(now) <==> Cyclic(before) || exists z | z in sources && z in now :: Reaches(before, id, z)
  {
    hide Core, NewlyLinked, Reaches;
    if Cyclic(before) {
      var core: set<Id> :| core != {} && Core(before, core);
      KeepsCore(before, now, sources, id, core);
    } else if Cyclic(now) {
      var core: set<Id> :| core != {} && Core(now, core);
      CycleComesBack(before, now, sources, id, core);
    }
    if z :| z in sources && z in now && Reaches(before, id, z) { PathCycles(before, now, sources, id, z); }
  }

  /** One linking of item id from all of `sources`. */
  datatype LinkStep = LinkStep(before: Items, sources: set<Id>, id: Id, now: Items)

  /** The steps lead from a to b. */
  ghost predicate Steps(a: Items, steps: seq<LinkStep>, b: Items) {
    && (if steps == [] then a == b else steps[0].before == a && steps[|steps| - 1].now == b)
    && (forall i | 0 <= i < |steps| :: NewlyLinked(steps[i].before, steps[i].now, steps[i].sources, steps[i].id))
    && (forall i | 0 < i < |steps| :: steps[i - 1].now == steps[i].before)
  }

  lemma StepsThen(a: Items, s: seq<LinkStep>, b: Items, t: seq<LinkStep>, c: Items)
    requires Steps(a, s, b) && Steps(b, t, c)
    ensures Steps(a, s + t, c)
  {
    hide NewlyLinked;
  }

  lemma OneStep(st: LinkStep)
    requires NewlyLinked(st.before, st.now, st.sources, st.id)
    ensures Steps(st.before, [st], st.now)
  {
    hide NewlyLinked;
  }

  /** The step links an item to one that it leads to. */
  ghost predicate Closes(st: LinkStep) {
    exists z | z in st.sources && z in st.now :: Reaches(st.before, st.id, z)
  }

  /** Linking makes a cycle exactly if there was one or one of the steps closes one. */
  lemma {:induction false} CyclesByStep(a: Items, steps: seq<LinkStep>, b: Items)
    requires Steps(a, steps, b)
    ensures Cyclic(b) <==> Cyclic(a) || exists i | 0 <= i < |steps| :: Closes(steps[i])
    decreases |steps|
  {
    hide NewlyLinked, Cyclic, Reaches;
    if steps != [] {
      var n := |steps| - 1;
      var last := steps[n];
      CyclesExactly(last.before, last.now, last.sources, last.id);
      CyclesByStep(a, steps[..n], last.before);
      assert forall i | 0 <= i < n :: steps[..n][i] == steps[i];
    }
  }

  lemma KeepsCore(before: Items, now: Items, sources: set<Id>, id: Id, core: set<Id>)
    requires NewlyLinked(before, now, sources, id) && Core(before, core) == true
    ensures Core(now, core)
  {
    MoreLinksCore(before, now, core);
  }

  /** Every member of the set has an edge or links back into the set. */
  ghost predicate Supported(items: Items, ids: set<Id>) {
    ids <= items.Keys && forall a {:trigger items[a]} | a in ids :: items[a].edge.Some? || LinksInto(items[a], ids)
  }

  /** Item a has a use: it is in a set whose members have an edge or links back into the set. */
  ghost predicate Kept(items: Items, a: Id) {
    exists ids: set<Id> :: a in ids && Supported(items, ids)
  }

  /** What collection must leave of a graph: exactly the items with a use, without the links to the others. */
  ghost predicate Collected(before: Items, now: Items) {
    && (forall a | a in before :: a in now <==> Kept(before, a))
    && Shrunk(before, now, {})
  }

  /** All items that lie on, or lead to, a cycle. */
  ghost function WidestCore(items: Items): set<Id> {
    set a | a in items && InCore(items, a)
  }

  ghost predicate InCore(items: Items, a: Id) {
    exists core: set<Id> :: a in core && Core(items, core)
  }

  lemma CoreIsInWidest(items: Items, core: set<Id>)
    requires Core(items, core) == true
    ensures core <= WidestCore(items)
  {
    forall b | b in core ensures b in WidestCore(items) {
      assert InCore(items, b);
    }
  }

  lemma WidestCoreIsCore(items: Items)
    ensures Core(items, WidestCore(items))
  {
    var widest := WidestCore(items);
    forall a | a in widest ensures LinksInto(items[a], widest) {
      WidestCoreLinks(items, a);
    }
  }

  lemma WidestCoreLinks(items: Items, a: Id)
    requires a in items && InCore(items, a)
    ensures LinksInto(items[a], WidestCore(items))
  {
    hide WidestCore;
    var core: set<Id> :| a in core && Core(items, core);
    assert LinksInto(items[a], core);
    CoreIsInWidest(items, core);
  }

  /** Collection that never takes a cycle, and leaves nothing without an edge or a link, leaves exactly
      the items with a use. */
  lemma ExactlyCollected(before: Items, now: Items)
    requires Shrunk(before, now, {}) == Inverse(now, {}) == Used(now, {}) == true
    requires WidestCore(before) <= now.Keys
    ensures Collected(before, now)
  {
    forall a | a in now.Keys ensures before[a].edge.Some? || LinksInto(before[a], now.Keys) {
      if now[a].edge.None? {
        var lt :| lt in now[a].links;
        assert lt in before[a].links && lt.target in now;
      }
    }
    assert Supported(before, now.Keys);
    forall a | a in before && Kept(before, a) ensures a in now {
      var ids: set<Id> :| a in ids && Supported(before, ids);
      GoneIsCore(before, now, ids);
      CoreIsInWidest(before, ids - now.Keys);
    }
  }

  /** The members of a supported set that are gone link only to each other. */
  lemma GoneIsCore(before: Items, now: Items, ids: set<Id>)
    requires Shrunk(before, now, {}) == Supported(before, ids) == true
    ensures Core(before, ids - now.Keys)
  {
    forall a | a in ids - now.Keys ensures LinksInto(before[a], ids - now.Keys) {
      assert before[a].edge.None?;
      var lt :| lt in before[a].links && lt.target in ids;
      assert lt.target !in now;
    }
  }

  /** A cycle survives collection with its links. */
  lemma CoreStays(before: Items, now: Items, core: set<Id>)
    requires Collected(before, now) == Core(before, core) == true
    ensures Core(now, core)
  {
    forall a | a in core ensures a in now {
      assert Supported(before, core);
      assert Kept(before, a);
    }
    forall a | a in core ensures LinksInto(now[a], core) {
      assert LinksInto(before[a], core);
      var lt :| lt in before[a].links && lt.target in core;
      assert lt in now[a].links;
    }
  }

  /** Edges do not matter for cycles. */
  lemma StrippedCore(items: Items, refs: set<Id>, core: set<Id>)
    requires Core(WithoutEdges(items, refs), core) == true
    ensures Core(items, core)
  {
    forall a | a in core ensures LinksInto(items[a], core) {
      assert LinksInto(WithoutEdges(items, refs)[a], core);
    }
  }

  lemma CoreIsIn(items: Items, core: set<Id>)
    requires Core(items, core) == true
    ensures core <= items.Keys
  {
  }
}
