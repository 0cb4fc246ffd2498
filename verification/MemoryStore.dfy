/** The in-memory storage of cache keys: results per key, links between keys in both directions, and
    removal of the branches that hold no result. */
module MemoryStore {
  import opened SolverTypes
  import opened KeyGraph

  type ResultID = string
  type Time = int

  datatype StoreKey = StoreKey(results: map<ResultID, Time>, links: set<LinkTo>, backlinks: set<Id>) {
    predicate Empty() { results == map[] && links == {} }
  }

  type Keys = map<Id, StoreKey>

  /** A link to a key, told to who walks the links backwards; the root key stands for digest and output. */
  datatype Backlink = Backlink(from: Id, input: nat, root: Id, selector: Digest)

  /** The storage as a key graph, where a key counts as used if it holds a result or is in `bare`. */
  ghost function Graph(byID: Keys, bare: set<Id>): Items {
    map a | a in byID ::
      Item(if byID[a].results != map[] || a in bare then Some(0) else None, byID[a].links, byID[a].backlinks)
  }

  /** The keys that hold neither a result nor a link. */
  ghost function Bare(byID: Keys): set<Id> {
    set a | a in byID && byID[a].Empty()
  }

  ghost predicate BareHolds(byID: Keys, bare: set<Id>) {
    forall a | a in byID && a in bare :: byID[a].Empty()
  }

  /** byResult lists, for each result that is held at all, exactly the keys that hold it. */
  ghost predicate ResultsInverse(byID: Keys, byResult: map<ResultID, set<Id>>) {
    && (forall r | r in byResult :: byResult[r] != {} && forall a | a in byResult[r] ::
      a in byID && r in byID[a].results)
    && (forall a, r | a in byID && r in byID[a].results :: r in byResult && a in byResult[r])
  }

  ghost predicate SameResults(before: Keys, now: Keys) {
    forall a | a in now :: a in before && now[a].results == before[a].results
  }

  /** The keys in `ids` have lost result r. */
  ghost function Stripped(byID: Keys, ids: set<Id>, r: ResultID): Keys {
    map a | a in byID :: if a in ids then byID[a].(results := byID[a].results - {r}) else byID[a]
  }

  /** The keys in `ids` that hold nothing but result r. */
  ghost function Losing(byID: Keys, ids: set<Id>, r: ResultID): set<Id> {
    set a | a in ids && a in byID && byID[a].results - {r} == map[]
  }

  function LinksDropped(byID: Keys, p: Id, k: Id): Keys
    requires p in byID
  {
    byID[p := byID[p].(links := set lt | lt in byID[p].links && lt.target != k)]
  }

  lemma GraphDropped(byID: Keys, p: Id, k: Id, bare: set<Id>)
    requires p in byID
    ensures Graph(LinksDropped(byID, p, k), bare) == Dropped(Graph(byID, bare), p, k)
  {
  }

  lemma GraphForgets(byID: Keys, k: Id, bare: set<Id>)
    ensures Graph(byID - {k}, bare) == Graph(byID, bare) - {k}
  {
  }

  class Store {
    var byID: Keys
    var byResult: map<ResultID, set<Id>>

    ghost predicate Valid()
      reads this
    {
      Inverse(Graph(byID, {}), {}) && ResultsInverse(byID, byResult)
    }

    constructor ()
      ensures Valid() && byID == map[]
    {
      byID, byResult := map[], map[];
    }

    predicate Exists(id: Id)
      reads this
    {
      id in byID && !byID[id].Empty()
    }

    /** Key id holds result r from now on. */
    method AddResult(id: Id, r: ResultID, created: Time)
      requires Valid() == true
      modifies this
      ensures Valid() == true && byID == Held(old(byID), id, r, created)
    {
      hide Inverse, ResultsInverse, Graph;
      EnsuredKey(byID, byResult, id);
      byID := KeyEnsured(byID, id);
      HeldResult(byID, byResult, id, r, created);
      byID := byID[id := byID[id].(results := byID[id].results[r := created])];
      byResult := byResult[r := (if r in byResult then byResult[r] else {}) + {id}];
    }

    /** Links key id to target; both keys exist afterwards. */
    method AddLink(id: Id, l: Link, target: Id)
      requires Valid() == true
      modifies `byID
      ensures Valid() == true && byID == Linked(old(byID), id, l, target)
    {
      hide Inverse, ResultsInverse, Graph;
      EnsuredKey(byID, byResult, id);
      byID := KeyEnsured(byID, id);
      EnsuredKey(byID, byResult, target);
      byID := KeyEnsured(byID, target);
      AddedLinkKeeps(byID, byResult, id, l, target);
      byID := WithLink(byID, id, l, target);
    }

    method WalkLinks(id: Id, l: Link) returns (targets: set<Id>)
      ensures forall t :: t in targets <==> id in byID && LinkTo(l, t) in byID[id].links
    {
      targets := if id in byID then set lt | lt in byID[id].links && lt.link == l :: lt.target else {};
    }

    predicate HasLink(id: Id, l: Link, target: Id)
      reads this
    {
      id in byID && LinkTo(l, target) in byID[id].links
    }

    /** Walking the backlinks of a key finds every link to it, and nothing else. */
    method WalkBacklinks(id: Id) returns (found: set<Backlink>)
      requires Valid() == true
      ensures found == set a, lt | a in byID && lt in byID[a].links && lt.target == id :: BacklinkOf(a, lt.link)
    {
      found := {};
      ghost var g := Graph(byID, {});
      forall a, lt | a in byID && lt in byID[a].links && lt.target == id ensures id in byID && a in byID[id].backlinks {
        assert lt in g[a].links;
      }
      if id in byID {
        var todo := byID[id].backlinks;
        while todo != {}
          invariant found == set a, lt | a in byID && a in byID[id].backlinks - todo && lt in byID[a].links
            && lt.target == id ::
                                 BacklinkOf(a, lt.link)
          decreases todo
        {
          var b :| b in todo;
          if b in byID {
            found := found + set lt | lt in byID[b].links && lt.target == id :: BacklinkOf(b, lt.link);
          }
          todo := todo - {b};
        }
      }
    }

    /** Removes a key that holds nothing, the links to it, and so on upwards. `dying` are the keys
        further down that are being removed. */
    method EmptyBranchWithParents(k: Id, ghost dying: set<Id>, ghost bare: set<Id>, ghost core: set<Id>)
      requires k in byID && k !in dying && k !in bare && BareHolds(byID, bare)
      requires Collecting(Graph(byID, bare), if byID[k].Empty() then dying + {k} else dying, core) == true
      requires byID[k].Empty() ==> forall d | d in byID[k].backlinks :: d in byID && LinksTo(Graph(byID, bare)[d], k)
      modifies `byID
      ensures BareHolds(byID, bare) && SameResults(old(byID), byID)
      ensures Collecting(Graph(byID, bare), dying, core) == Shrunk(Graph(old(byID), bare), Graph(byID, bare), dying)
        == true
      ensures SameLinksTo(Graph(old(byID), bare), Graph(byID, bare), dying) == true
      ensures LinkPairs(Graph(byID, bare)) <= LinkPairs(Graph(old(byID), bare))
      ensures old(byID)[k].Empty() ==> k !in byID
      ensures !old(byID)[k].Empty() ==> byID == old(byID)
      decreases LinkPairs(Graph(byID, bare)), 2
    {
      hide Inverse, Used, Core, Shrunk, LinkPairs, SameLinksTo, LinksTo;
      ghost var g0 := Graph(byID, bare);
      ShrunkNot(g0, dying + {k});
      ShrunkNot(g0, dying);
      if !byID[k].Empty() { return; }
      LinkersAreDeps(g0, k, dying + {k});
      var todo := byID[k].backlinks;
      while todo != {}
        invariant BareHolds(byID, bare) && SameResults(old(byID), byID)
        invariant Collecting(Graph(byID, bare), dying + {k}, core) == Shrunk(g0, Graph(byID, bare), dying + {k}) == true
        invariant SameLinksTo(g0, Graph(byID, bare), dying) == true && LinkPairs(Graph(byID, bare)) <= LinkPairs(g0)
        invariant forall d | d in todo :: d in byID && LinksTo(Graph(byID, bare)[d], k)
        invariant forall d | d in byID && LinksTo(Graph(byID, bare)[d], k) :: d in todo
        decreases todo
      {
        var p :| p in todo;
        ghost var g := Graph(byID, bare);
        DropParent(p, k, dying + {k}, bare, core);
        assert dying + {k} - {k} == dying;
        ShrunkTwice(g0, g, Graph(byID, bare), dying + {k});
        SameLinksTwice(g0, g, Graph(byID, bare), dying);
        ShrunkLinkers(g, Graph(byID, bare), k, dying + {k});
        todo := todo - {p};
      }
      ghost var g := Graph(byID, bare);
      ForgetItem(g, k, dying + {k}, core);
      ForgetShrinks(g0, g, k, dying + {k});
      GraphForgets(byID, k, bare);
      byID := byID - {k};
    }

    /** Drops the links of p to the key k that is being removed, and p with them if nothing is left. */
    method DropParent(p: Id, k: Id, ghost dying: set<Id>, ghost bare: set<Id>, ghost core: set<Id>)
      requires p in byID && k in dying && LinksTo(Graph(byID, bare)[p], k) && BareHolds(byID, bare)
      requires Collecting(Graph(byID, bare), dying, core) == true
      modifies `byID
      ensures BareHolds(byID, bare) && SameResults(old(byID), byID)
      ensures Collecting(Graph(byID, bare), dying, core) == Shrunk(Graph(old(byID), bare), Graph(byID, bare), dying)
        == true
      ensures SameLinksTo(Graph(old(byID), bare), Graph(byID, bare), dying - {k}) == true
      ensures forall a | a in old(byID) && a != p && LinksTo(Graph(old(byID), bare)[a], k) ::
                a in byID && LinksTo(Graph(byID, bare)[a], k)
      ensures p in byID ==> !LinksTo(Graph(byID, bare)[p], k)
      ensures LinkPairs(Graph(byID, bare)) < LinkPairs(Graph(old(byID), bare))
      decreases LinkPairs(Graph(byID, bare)), 1
    {
      hide Collecting, Shrunk, SameLinksTo, LinkPairs;
      ghost var g0 := Graph(byID, bare);
      DropCollecting(g0, p, k, dying, core);
      DropShrinks(g0, p, k, dying);
      GraphDropped(byID, p, k, bare);
      byID := LinksDropped(byID, p, k);
      ghost var g1 := Graph(byID, bare);
      EmptyBranchWithParents(p, dying, bare, core);
      ghost var g2 := Graph(byID, bare);
      ShrunkTwice(g0, g1, g2, dying);
      SameLinkers(g1, g2, k, dying);
      SameLinksTwice(g0, g1, g2, dying - {k});
    }

    /** Result r is no longer held by key id; if the key then holds nothing, its branch is removed. */
    method ReleaseFrom(id: Id, r: ResultID, ghost bare: set<Id>, ghost core: set<Id>)
      requires id in byID && r in byID[id].results && BareHolds(byID, bare)
      requires Inverse(Graph(byID, bare), {}) == Used(Graph(byID, bare), {}) == Core(Graph(byID, bare), core) == true
      modifies `byID
      ensures BareHolds(byID, bare) && SameResults(Stripped(old(byID), {id}, r), byID)
      ensures Inverse(Graph(byID, bare), {}) == Used(Graph(byID, bare), {}) == Core(Graph(byID, bare), core) == true
      ensures Shrunk(WithoutEdges(Graph(old(byID), bare), Losing(old(byID), {id}, r)), Graph(byID, bare), {}) == true
    {
      hide Inverse, Used, Core, Shrunk;
      ghost var g0, lost := Graph(byID, bare), Losing(byID, {id}, r);
      StripInverse(g0, lost);
      StripCore(g0, lost, core);
      StrippedUsed(byID, id, r, bare);
      byID := byID[id := byID[id].(results := byID[id].results - {r})];
      assert Graph(byID, bare) == WithoutEdges(g0, lost);
      BecomesDying(Graph(byID, bare), id, core);
      ghost var none: set<Id> := {};
      assert none + {id} == {id};
      EmptyBranchWithParents(id, none, bare, core);
    }

    /** Releases result r. Exactly those keys stay that hold another result, or held nothing before, or
        link to a key that stays; they keep everything except r and their links to removed keys. */
    method Release(r: ResultID)
      requires Valid() == true
      modifies this
      ensures Valid() == true && byResult == old(byResult) - {r}
      ensures Collected(Graph(Stripped(old(byID), old(byID).Keys, r), Bare(old(byID))), Graph(byID, Bare(old(byID))))
        == true
      ensures forall a | a in byID ::
        && a in old(byID) && byID[a].results == old(byID)[a].results - {r}
          && byID[a].backlinks == old(byID)[a].backlinks
        && byID[a].links == set lt | lt in old(byID)[a].links && lt.target in byID
      ensures Bare(byID) <= Bare(old(byID))
    {
      hide Inverse, Used, Core, Shrunk, Collected, WidestCore, Graph, ResultsInverse;
      if r !in byResult {
        NothingReleased(byID, byResult, r);
        return;
      }
      ghost var bare, ids := Bare(byID), byResult[r];
      ghost var g0, lost := Graph(byID, bare), Losing(byID, ids, r);
      ghost var core := WidestCore(WithoutEdges(g0, lost));
      WidestCoreIsCore(WithoutEdges(g0, lost));
      StrippedCore(g0, lost, core);
      BareGraph(byID);
      GoalGraph(byID, byResult, r);
      ReleaseFromAll(r, bare, core);
      CoreIsIn(Graph(byID, bare), core);
      ExactlyCollected(WithoutEdges(g0, lost), Graph(byID, bare));
      SurvivingKeys(old(byID), byID, old(byResult), r);
      SurvivingResults(old(byID), byID, old(byResult), r);
    }

    method ReleaseFromAll(r: ResultID, ghost bare: set<Id>, ghost core: set<Id>)
      requires ResultsInverse(byID, byResult) == true && BareHolds(byID, bare) && r in byResult
      requires Inverse(Graph(byID, bare), {}) == Used(Graph(byID, bare), {}) == Core(Graph(byID, bare), core) == true
      modifies this
      ensures Inverse(Graph(byID, bare), {}) == Used(Graph(byID, bare), {}) == Core(Graph(byID, bare), core) == true
      ensures Shrunk(WithoutEdges(Graph(old(byID), bare), Losing(old(byID), old(byResult)[r], r)), Graph(byID, bare),
        {}) == true
      ensures SameResults(Stripped(old(byID), old(byResult)[r], r), byID) && byResult == old(byResult) - {r}
    {
      hide Inverse, Used, Core, Shrunk, Graph, ResultsInverse, SameResults, Stripped, Losing, WithoutEdges, BareHolds;
      ghost var g0 := Graph(byID, bare);
      Holders(byID, byResult, r);
      ShrunkNot(g0, {});
      var todo := byResult[r];
      ghost var done: set<Id> := {};
      NothingLost(byID, r, g0);
      while todo != {}
        invariant BareHolds(byID, bare) && done + todo == old(byResult)[r] && done !! todo
        invariant Inverse(Graph(byID, bare), {}) == Used(Graph(byID, bare), {}) == Core(Graph(byID, bare), core) == true
        invariant Shrunk(WithoutEdges(g0, Losing(old(byID), done, r)), Graph(byID, bare), {}) == true
        invariant SameResults(Stripped(old(byID), done, r), byID)
        invariant byResult - {r} == old(byResult) - {r}
        invariant if todo == {} then r !in byResult else r in byResult && byResult[r] == todo
        decreases todo
      {
        var id :| id in todo;
        ghost var g, before := Graph(byID, bare), byID;
        HolderStays(old(byID), done, r, id, g0, byID, bare);
        ReleaseFrom(id, r, bare, core);
        StripNext(old(byID), done, r, id, g0, g, before, Graph(byID, bare));
        ResultsNext(old(byID), done, r, id, before, byID);
        todo, done := todo - {id}, done + {id};
        byResult := if todo == {} then byResult - {r} else byResult[r := todo];
      }
      assert done == old(byResult)[r];
    }
  }

  function BacklinkOf(from: Id, l: Link): Backlink {
    Backlink(from, l.input, Root(l.digest, l.output), l.selector)
  }

  function KeyEnsured(byID: Keys, id: Id): Keys {
    if id in byID then byID else byID[id := StoreKey(map[], {}, {})]
  }

  function Held(byID: Keys, id: Id, r: ResultID, created: Time): Keys {
    var known := KeyEnsured(byID, id);
    known[id := known[id].(results := known[id].results[r := created])]
  }

  function WithLink(byID: Keys, id: Id, l: Link, target: Id): Keys
    requires id in byID && target in byID
  {
    map a | a in byID ::
      StoreKey(byID[a].results,
               if a == id then byID[a].links + {LinkTo(l, target)} else byID[a].links,
               if a == target then byID[a].backlinks + {id} else byID[a].backlinks)
  }

  function Linked(byID: Keys, id: Id, l: Link, target: Id): Keys {
    WithLink(KeyEnsured(KeyEnsured(byID, id), target), id, l, target)
  }

  /** Keys, results, links and backlinks have only been added. */
  ghost predicate Extended(before: Keys, now: Keys) {
    forall a | a in before ::
      && a in now && before[a].results.Keys <= now[a].results.Keys
      && before[a].links <= now[a].links && before[a].backlinks <= now[a].backlinks
  }

  /** The keys that were there hold the same results. */
  ghost predicate ResultsKept(before: Keys, now: Keys) {
    forall a | a in before :: a in now && now[a].results == before[a].results
  }

  lemma EnsuredKey(byID: Keys, byResult: map<ResultID, set<Id>>, id: Id)
    requires Inverse(Graph(byID, {}), {}) == ResultsInverse(byID, byResult) == true
    ensures Inverse(Graph(KeyEnsured(byID, id), {}), {}) && ResultsInverse(KeyEnsured(byID, id), byResult)
  {
    if id !in byID {
      hide Inverse, Graph, ResultsInverse;
      EnsuredGraph(byID, id);
      AddItemInverse(Graph(byID, {}), id);
      EnsuredResults(byID, byResult, id);
    }
  }

  lemma EnsuredGraph(byID: Keys, id: Id)
    requires id !in byID
    ensures id !in Graph(byID, {}) && Graph(KeyEnsured(byID, id), {}) == Graph(byID, {})[id := Item(None, {}, {})]
  {
  }

  lemma EnsuredResults(byID: Keys, byResult: map<ResultID, set<Id>>, id: Id)
    requires id !in byID && ResultsInverse(byID, byResult)
    ensures ResultsInverse(KeyEnsured(byID, id), byResult)
  {
  }

  lemma HeldResult(byID: Keys, byResult: map<ResultID, set<Id>>, id: Id, r: ResultID, created: Time)
    requires Inverse(Graph(byID, {}), {}) == ResultsInverse(byID, byResult) == true && id in byID
    ensures var now := byID[id := byID[id].(results := byID[id].results[r := created])];
      && Inverse(Graph(now, {}), {})
      && ResultsInverse(now, byResult[r := (if r in byResult then byResult[r] else {}) + {id}])
  {
    hide Inverse;
    OnlyUses(byID, {}, {id});
    var now := byID[id := byID[id].(results := byID[id].results[r := created])];
    assert Graph(now, {id}) == Graph(byID, {id});
    OnlyUses(now, {id}, {});
  }

  lemma AddedLinkKeeps(byID: Keys, byResult: map<ResultID, set<Id>>, id: Id, l: Link, target: Id)
    requires Inverse(Graph(byID, {}), {}) == ResultsInverse(byID, byResult) == true && id in byID && target in byID
    ensures Inverse(Graph(WithLink(byID, id, l, target), {}), {})
      && ResultsInverse(WithLink(byID, id, l, target), byResult)
  {
    hide Inverse, AddedLink, Grew;
    AddLinkInverse(Graph(byID, {}), id, l, target);
    GraphWithLink(byID, id, l, target);
  }

  lemma GraphWithLink(byID: Keys, id: Id, l: Link, target: Id)
    requires id in byID && target in byID
    ensures Graph(WithLink(byID, id, l, target), {}) == AddedLink(Graph(byID, {}), id, l, target)
  {
  }

  /** A link adds itself, and nothing is lost. */
  lemma LinkedExtends(byID: Keys, id: Id, l: Link, target: Id)
    ensures var now := Linked(byID, id, l, target);
      && Extended(byID, now) && ResultsKept(byID, now) && now.Keys == byID.Keys + {id, target}
        && LinkTo(l, target) in now[id].links
      && forall a, lt | a in now && lt in now[a].links && !(a == id && lt == LinkTo(l, target)) ::
        a in byID && lt in byID[a].links
  {
  }

  lemma HeldExtends(byID: Keys, id: Id, r: ResultID, created: Time)
    ensures var now := Held(byID, id, r, created);
      && Extended(byID, now) && now.Keys == byID.Keys + {id} && r in now[id].results && now[id].results[r] == created
      && forall a, lt | a in now && lt in now[a].links :: a in byID && lt in byID[a].links
  {
  }

  lemma Holders(byID: Keys, byResult: map<ResultID, set<Id>>, r: ResultID)
    requires ResultsInverse(byID, byResult) == true && r in byResult
    ensures byResult[r] != {} && forall a | a in byResult[r] :: a in byID && r in byID[a].results
  {
  }

  lemma NothingLost(byID: Keys, r: ResultID, g: Items)
    ensures Losing(byID, {}, r) == {} && WithoutEdges(g, {}) == g && SameResults(Stripped(byID, {}, r), byID)
  {
  }

  lemma ResultsNext(before: Keys, done: set<Id>, r: ResultID, id: Id, mid: Keys, now: Keys)
    requires SameResults(Stripped(before, done, r), mid) && SameResults(Stripped(mid, {id}, r), now) && id !in done
    ensures SameResults(Stripped(before, done + {id}, r), now)
  {
  }

  lemma NothingReleased(byID: Keys, byResult: map<ResultID, set<Id>>, r: ResultID)
    requires Inverse(Graph(byID, {}), {}) == ResultsInverse(byID, byResult) == true && r !in byResult
    ensures Collected(Graph(Stripped(byID, byID.Keys, r), Bare(byID)), Graph(byID, Bare(byID)))
    ensures forall a | a in byID ::
      byID[a].results == byID[a].results - {r} && byID[a].links == set lt | lt in byID[a].links && lt.target in byID
  {
    hide Collected, Inverse, Used, Shrunk, Graph, Bare;
    var g := Graph(byID, Bare(byID));
    BareGraph(byID);
    ShrunkNot(g, {});
    ExactlyCollected(g, g);
    NotHeld(byID, byResult, r);
    TargetsExist(byID);
  }

  lemma NotHeld(byID: Keys, byResult: map<ResultID, set<Id>>, r: ResultID)
    requires ResultsInverse(byID, byResult) && r !in byResult
    ensures Stripped(byID, byID.Keys, r) == byID
    ensures forall a | a in byID :: byID[a].results == byID[a].results - {r}
  {
    forall a | a in byID ensures byID[a].results == byID[a].results - {r} {
      assert r !in byID[a].results;
    }
  }

  lemma TargetsExist(byID: Keys)
    requires Inverse(Graph(byID, {}), {}) == true
    ensures forall a, lt | a in byID && lt in byID[a].links :: lt.target in byID
  {
    var g := Graph(byID, {});
    forall a, lt | a in byID && lt in byID[a].links ensures lt.target in byID {
      assert lt in g[a].links && lt.target in g;
    }
  }

  lemma StrippedUsed(byID: Keys, id: Id, r: ResultID, bare: set<Id>)
    requires id in byID && Used(Graph(byID, bare), {}) == true
    ensures var g := WithoutEdges(Graph(byID, bare), Losing(byID, {id}, r));
      Used(g, if g[id].edge.None? && g[id].links == {} then {id} else {})
  {
  }

  lemma BareGraph(byID: Keys)
    requires Inverse(Graph(byID, {}), {}) == true
    ensures Inverse(Graph(byID, Bare(byID)), {}) && Used(Graph(byID, Bare(byID)), {})
  {
    OnlyUses(byID, {}, Bare(byID));
  }

  /** Whether a key counts as used does not matter for links and backlinks. */
  lemma OnlyUses(byID: Keys, a: set<Id>, b: set<Id>)
    requires Inverse(Graph(byID, a), {}) == true
    ensures Inverse(Graph(byID, b), {})
  {
    var g, h := Graph(byID, a), Graph(byID, b);
    forall x, y | x in h && y in h[x].deps ensures y in h && LinksTo(h[y], x) {
      assert LinksTo(g[y], x);
    }
  }

  lemma GoalGraph(byID: Keys, byResult: map<ResultID, set<Id>>, r: ResultID)
    requires ResultsInverse(byID, byResult) && r in byResult
    ensures WithoutEdges(Graph(byID, Bare(byID)), Losing(byID, byResult[r], r))
      == Graph(Stripped(byID, byID.Keys, r), Bare(byID))
  {
    var g, h := WithoutEdges(Graph(byID, Bare(byID)), Losing(byID, byResult[r], r)),
      Graph(Stripped(byID, byID.Keys, r), Bare(byID));
    forall a | a in byID ensures g[a] == h[a] { GoalItem(byID, byResult, r, a); }
    assert g.Keys == byID.Keys == h.Keys;
  }

  lemma GoalItem(byID: Keys, byResult: map<ResultID, set<Id>>, r: ResultID, a: Id)
    requires ResultsInverse(byID, byResult) && r in byResult && a in byID
    ensures WithoutEdges(Graph(byID, Bare(byID)), Losing(byID, byResult[r], r))[a]
      == Graph(Stripped(byID, byID.Keys, r), Bare(byID))[a]
  {
    if a !in byResult[r] { assert byID[a].results - {r} == byID[a].results; }
  }

  lemma HolderStays(before: Keys, done: set<Id>, r: ResultID, id: Id, g0: Items, now: Keys, bare: set<Id>)
    requires id in before && r in before[id].results && id !in done && g0 == Graph(before, bare)
    requires Shrunk(WithoutEdges(g0, Losing(before, done, r)), Graph(now, bare), {}) == true
    requires SameResults(Stripped(before, done, r), now)
    ensures id in now && r in now[id].results && now[id].results == before[id].results
  {
    assert id in g0;
  }

  lemma StripNext(before: Keys, done: set<Id>, r: ResultID, id: Id, g0: Items, g: Items, mid: Keys, next: Items)
    requires id in before && id in mid && mid[id].results == before[id].results
    requires Shrunk(WithoutEdges(g0, Losing(before, done, r)), g, {}) == true
    requires Shrunk(WithoutEdges(g, Losing(mid, {id}, r)), next, {}) == true
    ensures Shrunk(WithoutEdges(g0, Losing(before, done + {id}, r)), next, {})
  {
    if mid[id].results - {r} == map[] {
      assert Losing(mid, {id}, r) == {id} && Losing(before, done + {id}, r) == Losing(before, done, r) + {id};
      StripMore(g0, Losing(before, done, r), g, id, next);
    } else {
      assert Losing(mid, {id}, r) == {} && Losing(before, done + {id}, r) == Losing(before, done, r);
      assert WithoutEdges(g, {}) == g;
      ShrunkTwice(WithoutEdges(g0, Losing(before, done, r)), g, next, {});
    }
  }

  lemma SurvivingKeys(before: Keys, now: Keys, byResult: map<ResultID, set<Id>>, r: ResultID)
    requires ResultsInverse(before, byResult) && r in byResult
    requires Shrunk(Graph(Stripped(before, before.Keys, r), Bare(before)), Graph(now, Bare(before)), {}) == true
    requires Inverse(Graph(now, Bare(before)), {}) == Used(Graph(now, Bare(before)), {}) == true
    requires SameResults(Stripped(before, byResult[r], r), now)
    ensures forall a | a in now ::
        && a in before && now[a].results == before[a].results - {r} && now[a].backlinks == before[a].backlinks
        && now[a].links == set lt | lt in before[a].links && lt.target in now
    ensures forall a | a in before && a !in now :: before[a].results - {r} == map[]
    ensures Bare(now) <= Bare(before) && Inverse(Graph(now, {}), {})
  {
    hide Inverse, Used, Bare;
    OnlyUses(now, Bare(before), {});
    NoNewBare(before, now);
    TargetsExist(now);
    var g, h := Graph(Stripped(before, before.Keys, r), Bare(before)), Graph(now, Bare(before));
    forall a | a in now
      ensures a in before && now[a].results == before[a].results - {r} && now[a].backlinks == before[a].backlinks
      ensures now[a].links == set lt | lt in before[a].links && lt.target in now
    {
      assert h[a].deps == g[a].deps && h[a].links <= g[a].links;
      if a !in byResult[r] { assert before[a].results - {r} == before[a].results; }
    }
    forall a | a in before && a !in now ensures before[a].results - {r} == map[] {
      assert g[a].edge.None?;
    }
  }

  lemma NoNewBare(before: Keys, now: Keys)
    requires Used(Graph(now, Bare(before)), {}) == true
    ensures Bare(now) <= Bare(before)
  {
    forall a | a in Bare(now) ensures a in Bare(before) {
      assert Graph(now, Bare(before))[a].edge.Some?;
    }
  }

  lemma SurvivingResults(before: Keys, now: Keys, byResult: map<ResultID, set<Id>>, r: ResultID)
    requires ResultsInverse(before, byResult) && r in byResult && SameResults(Stripped(before, byResult[r], r), now)
    requires forall a | a in before && a !in now :: before[a].results - {r} == map[]
    ensures ResultsInverse(now, byResult - {r})
  {
    forall q, a | q in byResult - {r} && a in byResult[q] ensures a in now && q in now[a].results {
      assert q in before[a].results - {r};
    }
  }
}
