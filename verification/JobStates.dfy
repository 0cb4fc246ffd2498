/** Jobs, the states of the vertexes they load, and what is torn down when a job is discarded. */
module JobStates {
  import opened SolverTypes
  import opened KeyGraph

  type JobID = nat
  type StateID = nat

  datatype Vertex = Vertex(ptr: nat, digest: Digest, ignoreCache: bool, inputs: seq<Vertex>)

  /** `id` tells apart states that were active under the same digest at different times. */
  datatype State = State(id: StateID, jobs: set<JobID>, parents: set<Digest>, childVtx: set<Digest>, ignoreCache: bool)

  type Actives = map<Digest, State>

  /** A vertex is loaded for a job, or for a sub-build of another vertex. */
  datatype Loader = ForJob(job: JobID) | ForParent(parent: Digest)

  // ---- states as a graph ----

  function Node(d: Digest): Id { Root(d, 0) }

  ghost function ParentLinks(parents: set<Digest>): set<LinkTo> {
    set p | p in parents :: LinkTo(Link(0, "", 0, ""), Node(p))
  }

  ghost function Nodes(ds: set<Digest>): set<Id> {
    set d | d in ds :: Node(d)
  }

  /** States as a key graph: a state is used if it has a job, and links to its parents. */
  ghost function Graph(actives: Actives): Items {
    map a | a in Nodes(actives.Keys) ::
      Item(if actives[a.digest].jobs != {} then Some(0) else None,
           ParentLinks(actives[a.digest].parents), Nodes(actives[a.digest].childVtx))
  }

  /** Parents and children are recorded on both sides, and both are active. */
  ghost predicate Tied(actives: Actives) {
    && (forall c, p | c in actives && p in actives[c].parents :: p in actives && c in actives[p].childVtx)
    && (forall p, c | p in actives && c in actives[p].childVtx :: c in actives && p in actives[c].parents)
  }

  /** Every state has a job or a parent. */
  ghost predicate Referenced(actives: Actives) {
    forall d | d in actives :: actives[d].jobs != {} || actives[d].parents != {}
  }

  lemma InGraph(actives: Actives, d: Digest)
    ensures Node(d) in Graph(actives) <==> d in actives
    ensures d in actives ==> forall k :: LinksTo(Graph(actives)[Node(d)], Node(k)) <==> k in actives[d].parents
    ensures d in actives ==> forall k :: Node(k) in Graph(actives)[Node(d)].deps <==> k in actives[d].childVtx
  {
    if d in actives {
      var it := Graph(actives)[Node(d)];
      forall k ensures LinksTo(it, Node(k)) <==> k in actives[d].parents {
        if k in actives[d].parents { assert LinkTo(Link(0, "", 0, ""), Node(k)) in it.links; }
      }
    }
  }

  lemma TiedGraph(actives: Actives)
    requires Tied(actives)
    ensures Inverse(Graph(actives), {})
  {
    hide Tied, LinksTo;
    var g := Graph(actives);
    forall a, lt | a in g && lt in g[a].links ensures lt.target in g && a in g[lt.target].deps {
      ParentNode(actives, a.digest, lt.target.digest);
    }
    forall b, a | b in g && a in g[b].deps ensures a in g && LinksTo(g[a], b) {
      ChildNode(actives, b.digest, a.digest);
    }
  }

  lemma ParentNode(actives: Actives, c: Digest, p: Digest)
    requires Tied(actives) && c in actives && p in actives[c].parents
    ensures Node(p) in Graph(actives) && Node(c) in Graph(actives)[Node(p)].deps
  {
    InGraph(actives, p);
  }

  lemma ChildNode(actives: Actives, p: Digest, c: Digest)
    requires Tied(actives) && p in actives && c in actives[p].childVtx
    ensures Node(c) in Graph(actives) && LinksTo(Graph(actives)[Node(c)], Node(p))
  {
    InGraph(actives, c);
  }

  lemma GraphTied(actives: Actives)
    requires Inverse(Graph(actives), {})
    ensures Tied(actives)
  {
    var g := Graph(actives);
    forall c, p | c in actives && p in actives[c].parents ensures p in actives && c in actives[p].childVtx {
      InGraph(actives, c);
      InGraph(actives, p);
      assert LinksTo(g[Node(c)], Node(p));
    }
    forall p, c | p in actives && c in actives[p].childVtx ensures c in actives && p in actives[c].parents {
      InGraph(actives, p);
      InGraph(actives, c);
      assert Node(c) in g[Node(p)].deps;
    }
  }

  lemma ReferencedGraph(actives: Actives)
    ensures Referenced(actives) <==> Used(Graph(actives), {})
  {
    var g := Graph(actives);
    forall d | d in actives ensures Node(d) in g && (g[Node(d)].links != {} <==> actives[d].parents != {}) {
      InGraph(actives, d);
      if p :| p in actives[d].parents { assert LinkTo(Link(0, "", 0, ""), Node(p)) in g[Node(d)].links; }
    }
  }

  function Orphaned(actives: Actives, c: Digest, k: Digest): Actives
    requires c in actives
  {
    actives[c := actives[c].(parents := actives[c].parents - {k})]
  }

  lemma GraphDropped(actives: Actives, c: Digest, k: Digest)
    requires c in actives
    ensures Node(c) in Graph(actives) && Graph(Orphaned(actives, c, k)) == Dropped(Graph(actives), Node(c), Node(k))
  {
    var g, h := Graph(actives), Graph(Orphaned(actives, c, k));
    assert h.Keys == g.Keys;
    var kept := set lt | lt in g[Node(c)].links && lt.target != Node(k);
    assert h[Node(c)].links == kept;
    assert h == g[Node(c) := g[Node(c)].(links := kept)];
  }

  lemma GraphForgets(actives: Actives, k: Digest)
    ensures Graph(actives - {k}) == Graph(actives) - {Node(k)}
  {
    assert Graph(actives - {k}).Keys == (Graph(actives) - {Node(k)}).Keys;
  }

  /** Nothing of a state changes except that parents go. */
  ghost predicate SameStates(before: Actives, now: Actives) {
    forall d | d in now ::
      && d in before && now[d].id == before[d].id && now[d].jobs == before[d].jobs
      && now[d].childVtx == before[d].childVtx && now[d].parents <= before[d].parents
  }

  /** Every state that was ever active has been released once if it is not active any more, and not
      released if it is; `vertex` tells under which digest it is, or was, active. */
  ghost predicate Accounted(actives: Actives, vertex: map<StateID, Digest>, releases: map<StateID, nat>) {
    && vertex.Keys == releases.Keys
    && (forall d | d in actives :: actives[d].id in vertex && vertex[actives[d].id] == d)
    && (forall u | u in vertex :: releases[u] == if vertex[u] in actives && actives[vertex[u]].id == u then 0 else 1)
  }

  lemma SameAccounts(before: Actives, now: Actives, vertex: map<StateID, Digest>, releases: map<StateID, nat>)
    requires Accounted(before, vertex, releases) == true && before.Keys == now.Keys && forall d | d in now ::
      now[d].id == before[d].id
    ensures Accounted(now, vertex, releases)
  {
  }

  lemma ReleasedAccount(actives: Actives, k: Digest, vertex: map<StateID, Digest>, releases: map<StateID, nat>)
    requires Accounted(actives, vertex, releases) == true && k in actives
    ensures actives[k].id in releases && releases[actives[k].id] == 0
    ensures Accounted(actives - {k}, vertex, releases[actives[k].id := releases[actives[k].id] + 1])
  {
  }

  class Solver {
    var actives: Actives
    var releases: map<StateID, nat>       // how often each state has been released
    ghost var vertex: map<StateID, Digest>
    var builds: map<JobID, nat>           // running builds of each job
    var discarded: set<JobID>
    var due: set<JobID>                   // jobs whose teardown has been decided and not yet happened
    var torn: set<JobID>                  // jobs that have been torn down
    var nextState: StateID

    /** Removes a state that nothing refers to, and then its children that lose their last parent. */
    method DeleteIfUnreferenced(k: Digest, ghost dying: set<Id>, ghost core: set<Id>)
      requires k in actives && Node(k) !in dying && Accounted(actives, vertex, releases)
      requires Collecting(Graph(actives), if Unreferenced(actives[k]) then dying + {Node(k)} else dying, core) == true
      requires Unreferenced(actives[k]) ==>
        forall c | c in actives[k].childVtx :: c in actives && k in actives[c].parents
      modifies `actives, `releases
      ensures SameStates(old(actives), actives) && Accounted(actives, vertex, releases)
      ensures Collecting(Graph(actives), dying, core) == Shrunk(Graph(old(actives)), Graph(actives), dying) == true
      ensures SameLinksTo(Graph(old(actives)), Graph(actives), dying) == true
      ensures LinkPairs(Graph(actives)) <= LinkPairs(Graph(old(actives)))
      ensures Unreferenced(old(actives)[k]) ==> k !in actives
      ensures !Unreferenced(old(actives)[k]) ==> actives == old(actives)
      decreases LinkPairs(Graph(actives)), 2
    {
      hide Inverse, Used, Core, Shrunk, LinkPairs, SameLinksTo, LinksTo, Graph, Accounted;
      ghost var n := Node(k);
      ghost var g0 := Graph(actives);
      ShrunkNot(g0, dying + {n});
      ShrunkNot(g0, dying);
      if !Unreferenced(actives[k]) { return; }
      ChildrenListed(actives, k, dying + {n});
      var todo := actives[k].childVtx;
      while todo != {}
        invariant SameStates(old(actives), actives) && Accounted(actives, vertex, releases)
        invariant k in actives && Unreferenced(actives[k])
        invariant Collecting(Graph(actives), dying + {n}, core) == Shrunk(g0, Graph(actives), dying + {n}) == true
        invariant SameLinksTo(g0, Graph(actives), dying) == true && LinkPairs(Graph(actives)) <= LinkPairs(g0)
        invariant forall c | c in todo :: c in actives && k in actives[c].parents
        invariant forall c | c in actives && k in actives[c].parents :: c in todo
        decreases todo
      {
        var c :| c in todo;
        ghost var g := Graph(actives);
        DropChild(c, k, dying + {n}, core);
        assert dying + {n} - {n} == dying;
        ShrunkTwice(g0, g, Graph(actives), dying + {n});
        SameLinksTwice(g0, g, Graph(actives), dying);
        todo := todo - {c};
      }
      ghost var g := Graph(actives);
      NoChildren(actives, k);
      ForgetItem(g, n, dying + {n}, core);
      ForgetShrinks(g0, g, n, dying + {n});
      GraphForgets(actives, k);
      ReleasedAccount(actives, k, vertex, releases);
      releases := releases[actives[k].id := releases[actives[k].id] + 1];
      actives := actives - {k};
    }

    /** Child c loses the parent k that is being removed, and goes too if nothing is left to refer to it. */
    method DropChild(c: Digest, k: Digest, ghost dying: set<Id>, ghost core: set<Id>)
      requires c in actives && k in actives && Node(k) in dying && k in actives[c].parents
        && Accounted(actives, vertex, releases)
      requires Collecting(Graph(actives), dying, core) == true
      modifies `actives, `releases
      ensures SameStates(old(actives), actives) && Accounted(actives, vertex, releases)
      ensures k in actives && Unreferenced(actives[k])
      ensures Collecting(Graph(actives), dying, core) == Shrunk(Graph(old(actives)), Graph(actives), dying) == true
      ensures SameLinksTo(Graph(old(actives)), Graph(actives), dying - {Node(k)}) == true
      ensures forall x | x in old(actives) && x != c && k in old(actives)[x].parents ::
        x in actives && k in actives[x].parents
      ensures c in actives ==> k !in actives[c].parents
      ensures LinkPairs(Graph(actives)) < LinkPairs(Graph(old(actives)))
      decreases LinkPairs(Graph(actives)), 1
    {
      hide Collecting, Shrunk, SameLinksTo, LinkPairs, Graph, Accounted;
      ghost var g0 := Graph(actives);
      DropsParent(actives, c, k, dying, core);
      SameAccounts(actives, Orphaned(actives, c, k), vertex, releases);
      actives := Orphaned(actives, c, k);
      ghost var mid := actives;
      DeleteIfUnreferenced(c, dying, core);
      KeepsChildren(mid, actives, k, dying);
      StillDying(actives, k, dying, core);
      ShrunkTwice(g0, Graph(mid), Graph(actives), dying);
      SameLinkers(Graph(mid), Graph(actives), Node(k), dying);
      SameLinksTwice(g0, Graph(mid), Graph(actives), dying - {Node(k)});
    }

    ghost predicate Valid()
      reads this
    {
      && Tied(actives) && Referenced(actives) && Accounted(actives, vertex, releases)
      && (forall u | u in vertex :: u < nextState)
      && JobsKnown(actives, builds, torn) && Teardowns(builds, discarded, due, torn)
    }

    constructor ()
      ensures Valid() && actives == map[]
    {
      actives, releases, vertex, builds := map[], map[], map[], map[];
      discarded, due, torn, nextState := {}, {}, {}, 0;
    }

    method NewJob(j: JobID) returns (ok: bool)
      requires Valid() == true
      modifies `builds
      ensures Valid() == true && ok == (j !in old(builds)) && builds == if ok then old(builds)[j := 0] else old(builds)
    {
      ok := j !in builds;
      if ok { builds := builds[j := 0]; }
    }

    /** A build of a job starts, unless the job is discarded. */
    method StartBuild(j: JobID) returns (ok: bool)
      requires Valid() == true && j in builds
      modifies `builds
      ensures Valid() == true && ok == (j !in discarded)
      ensures builds == if ok then old(builds)[j := old(builds)[j] + 1] else old(builds)
    {
      ok := j !in discarded;
      if ok { builds := builds[j := builds[j] + 1]; }
    }

    /** A build ends; the last build of a discarded job makes its teardown due. */
    method BuildDone(j: JobID)
      requires Valid() == true && j in builds && builds[j] > 0
      modifies `builds, `due
      ensures Valid() == true && builds == old(builds)[j := old(builds)[j] - 1]
      ensures due == if j in discarded && builds[j] == 0 then old(due) + {j} else old(due)
    {
      builds := builds[j := builds[j] - 1];
      if j in discarded && builds[j] == 0 { due := due + {j}; }
    }

    method Discard(j: JobID)
      requires Valid() == true && j in builds
      modifies `discarded, `due
      ensures Valid() == true && discarded == old(discarded) + {j}
      ensures due == if builds[j] == 0 then old(due) + {j} else old(due)
    {
      discarded := discarded + {j};
      if builds[j] == 0 { due := due + {j}; }
    }

    /** State d is no longer for job j, and goes if nothing else refers to it. */
    method LeaveJob(d: Digest, j: JobID, ghost core: set<Id>)
      requires d in actives && j in actives[d].jobs && Accounted(actives, vertex, releases)
      requires Inverse(Graph(actives), {}) == Used(Graph(actives), {}) == Core(Graph(actives), core) == true
      modifies `actives, `releases
      ensures SameStates(WithoutJob(old(actives), {d}, j), actives) && Accounted(actives, vertex, releases)
      ensures Inverse(Graph(actives), {}) == Used(Graph(actives), {}) == Core(Graph(actives), core) == true
      ensures Shrunk(WithoutEdges(Graph(old(actives)), Lost(old(actives), {d}, j)), Graph(actives), {}) == true
    {
      hide Inverse, Used, Core, Shrunk, Graph, Accounted;
      ghost var none: set<Id> := {};
      LosesJob(actives, d, j, core);
      SameAccounts(actives, WithoutJob(actives, {d}, j), vertex, releases);
      actives := actives[d := actives[d].(jobs := actives[d].jobs - {j})];
      assert actives == WithoutJob(old(actives), {d}, j);
      DeleteIfUnreferenced(d, none, core);
    }

    method LeaveJobEverywhere(j: JobID, ghost core: set<Id>)
      requires Accounted(actives, vertex, releases)
      requires Inverse(Graph(actives), {}) == Used(Graph(actives), {}) == Core(Graph(actives), core) == true
      modifies `actives, `releases
      ensures Accounted(actives, vertex, releases)
      ensures Inverse(Graph(actives), {}) == Used(Graph(actives), {}) == Core(Graph(actives), core) == true
      ensures SameStates(WithoutJob(old(actives), old(actives).Keys, j), actives)
      ensures Shrunk(Graph(WithoutJob(old(actives), old(actives).Keys, j)), Graph(actives), {}) == true
    {
      hide Inverse, Used, Core, Shrunk, Graph, Accounted;
      ghost var g0 := Graph(actives);
      ShrunkNot(g0, {});
      var todo := set d | d in actives && j in actives[d].jobs;
      ghost var all, done: set<Digest> := todo, {};
      assert Lost(actives, {}, j) == {} && WithoutEdges(g0, {}) == g0;
      while todo != {}
        invariant Accounted(actives, vertex, releases) && done + todo == all && done !! todo
        invariant Inverse(Graph(actives), {}) == Used(Graph(actives), {}) == Core(Graph(actives), core) == true
        invariant Shrunk(WithoutEdges(g0, Lost(old(actives), done, j)), Graph(actives), {}) == true
        invariant SameStates(WithoutJob(old(actives), done, j), actives)
        decreases todo
      {
        var d :| d in todo;
        ghost var mid := actives;
        JobStays(old(actives), done, j, d, actives);
        LeaveJob(d, j, core);
        LostNext(old(actives), done, j, d, mid, Graph(actives));
        todo, done := todo - {d}, done + {d};
      }
      assert done == all;
      OnlyHolders(old(actives), j);
      GraphWithoutJob(old(actives), all, j);
    }

    /** Tears a discarded job down. Exactly those states stay active that have another job, or a parent
        that stays active; they lose the job and the parents that are gone, nothing else. */
    method TearDown(j: JobID)
      requires Valid() == true && j in due
      modifies `actives, `releases, `due, `torn
      ensures Valid() == true && builds[j] == 0 && j in discarded && torn == old(torn) + {j} && due == old(due) - {j}
      ensures forall d | d in old(actives) :: d in actives <==> Stays(old(actives), j, d)
      ensures forall d | d in actives ::
        && d in old(actives) && actives[d].id == old(actives)[d].id && actives[d].jobs == old(actives)[d].jobs - {j}
        && actives[d].childVtx == old(actives)[d].childVtx
          && actives[d].parents == old(actives)[d].parents * actives.Keys
    {
      hide Tied, Referenced, Accounted, Inverse, Used, Core, Shrunk, Graph, Collected, WidestCore, Stays;
      ghost var goal := Graph(WithoutJob(actives, actives.Keys, j));
      ghost var core := WidestCore(goal);
      TiedGraph(actives);
      ReferencedGraph(actives);
      WidestCoreIsCore(goal);
      GraphWithoutJob(actives, actives.Keys, j);
      StrippedCore(Graph(actives), Lost(actives, actives.Keys, j), core);
      LeaveJobEverywhere(j, core);
      CoreIsIn(Graph(actives), core);
      ExactlyCollected(goal, Graph(actives));
      GraphTied(actives);
      ReferencedGraph(actives);
      StaysMeaning(old(actives), j, actives);
      ParentsLeft(old(actives), j, actives);
      due, torn := due - {j}, torn + {j};
    }

    /** Loads one vertex whose inputs are loaded. `ok` is false if the parent is not active. */
    method LoadOne(v: Vertex, who: Loader) returns (ok: bool, key: Digest)
      requires Accounted(actives, vertex, releases) == true && forall u | u in vertex :: u < nextState
      modifies `actives, `releases, `vertex, `nextState
      ensures actives == Loaded(old(actives), v, who, old(nextState)) && Accounted(actives, vertex, releases) == true
      ensures forall u | u in vertex :: u < nextState
      ensures key == Target(old(actives), v) && key in actives && ok == ParentActive(old(actives), v, who)
    {
      var dgst := v.digest;
      key := WithoutCache(dgst);
      if key !in actives {
        if dgst in actives && !actives[dgst].ignoreCache && v.ignoreCache { dgst := WithoutCache(dgst); }
        key := dgst;
      }
      if key !in actives { Activate(key, v.ignoreCache); }
      ok := Attach(key, dgst, who);
    }

    method Activate(key: Digest, ignoreCache: bool)
      requires Accounted(actives, vertex, releases) == true && (forall u | u in vertex :: u < nextState)
        && key !in actives
      modifies `actives, `releases, `vertex, `nextState
      ensures Accounted(actives, vertex, releases) == true && forall u | u in vertex :: u < nextState
      ensures actives == old(actives)[key := State(old(nextState), {}, {}, {}, ignoreCache)]
    {
      hide Accounted;
      NewAccount(actives, key, State(nextState, {}, {}, {}, ignoreCache), vertex, releases);
      actives := actives[key := State(nextState, {}, {}, {}, ignoreCache)];
      releases, vertex, nextState := releases[nextState := 0], vertex[nextState := key], nextState + 1;
    }

    /** Records for whom the state under `key` is; the parent records it as `dgst`. */
    method Attach(key: Digest, dgst: Digest, who: Loader) returns (ok: bool)
      requires Accounted(actives, vertex, releases) == true && key in actives
      modifies `actives
      ensures Accounted(actives, vertex, releases) == true && actives == Attached(old(actives), key, dgst, who)
      ensures ok == (who.ForParent? ==> who.parent in actives || who.parent in old(actives)[key].parents)
    {
      hide Accounted;
      ok := true;
      match who {
        case ForJob(j) =>
          actives := actives[key := actives[key].(jobs := actives[key].jobs + {j})];
        case ForParent(p) =>
          if p !in actives[key].parents {
            actives := actives[key := actives[key].(parents := actives[key].parents + {p})];
            if p in actives {
              actives := actives[p := actives[p].(childVtx := actives[p].childVtx + {dgst})];
            } else {
              ok := false;
            }
          }
      }
      SameAccounts(old(actives), actives, vertex, releases);
    }

    /** Loads a vertex and all its inputs, each vertex once. */
    method Load(v: Vertex, who: Loader, seen: map<Vertex, Digest>) returns (now: map<Vertex, Digest>)
      requires Valid() == true && CanLoad(who) && Closed(seen) && AllLoaded(actives, who, seen)
      requires NothingHidden(actives, who, v)
      modifies `actives, `releases, `vertex, `nextState
      ensures Valid() == true && CanLoad(who) && Closed(now) && AllLoaded(actives, who, now)
      ensures v in now && seen.Keys <= now.Keys && (forall u | u in seen :: now[u] == seen[u])
      ensures forall u | NothingHidden(old(actives), who, u) :: NothingHidden(actives, who, u)
      ensures forall d | d in old(actives) :: d in actives && actives[d].id == old(actives)[d].id
      decreases v
    {
      hide Tied, Referenced, Accounted, Closed, NothingHidden, JobsKnown;
      if v in seen { return seen; }
      now := seen;
      for i := 0 to |v.inputs|
        invariant Valid() == true && CanLoad(who) && Closed(now) && AllLoaded(actives, who, now)
        invariant seen.Keys <= now.Keys && (forall u | u in seen :: now[u] == seen[u])
        invariant forall n | 0 <= n < i :: v.inputs[n] in now
        invariant forall u | NothingHidden(old(actives), who, u) :: NothingHidden(actives, who, u)
        invariant forall d | d in old(actives) :: d in actives && actives[d].id == old(actives)[d].id
      {
        InputNotHidden(actives, who, v, i);
        now := Load(v.inputs[i], who, now);
      }
      VertexNotHidden(actives, who, v);
      LoadKeeps(actives, v, who, nextState);
      LoadAdds(actives, v, who, nextState, builds, torn);
      ghost var before := actives;
      var ok, key := LoadOne(v, who);
      StillAllLoaded(before, actives, who, now);
      ClosedMore(now, v, key);
      now := now[v := key];
    }

    /** A merge of edges gives the jobs of one state to others. */
    method AddJobs(src: Digest, targets: set<Digest>)
      requires Valid() == true && src in actives
      modifies `actives
      ensures Valid() == true && actives.Keys == old(actives).Keys
      ensures forall d | d in actives ::
        actives[d] == old(actives)[d].(jobs := old(actives)[d].jobs + (if d in targets then old(actives)[src].jobs
          else {}))
    {
      hide Accounted, Tied, Referenced, JobsKnown;
      WithJobsKeeps(actives, src, targets, builds, torn);
      actives := WithJobs(actives, actives[src].jobs, targets);
      SameAccounts(old(actives), actives, vertex, releases);
    }

    /** One event of a history, if it is possible now. Sub-builds are for active vertexes, and their vertexes are
        not hidden under the digest without cache. */
    method Happen(ev: Event)
      requires Valid() == true
      modifies this
      ensures Valid() == true && (ev.TornDown? && old(ev.job in due) ==>
        forall d | d in actives :: ev.job !in actives[d].jobs)
    {
      hide Tied, Referenced, Accounted, JobsKnown, Teardowns, NothingHidden, Stays;
      match ev {
        case Created(j) => var ok := NewJob(j);
        case Started(j) => if j in builds { var ok := StartBuild(j); }
        case Finished(j) => if j in builds && builds[j] > 0 { BuildDone(j); }
        case Discarded(j) => if j in builds { Discard(j); }
        case TornDown(j) => if j in due { TearDown(j); }
        case Merged(src, targets) => if src in actives { AddJobs(src, targets); }
        case Built(v, who) =>
          var allowed := Allowed(who);
          var hidden := Hidden(v, who);
          if allowed && !hidden { var seen := Load(v, who, map[]); }
      }
    }

    method Allowed(who: Loader) returns (ok: bool)
      ensures ok == CanLoad(who)
    {
      match who {
        case ForJob(j) => ok := j in builds && builds[j] > 0;
        case ForParent(p) => ok := p in actives;
      }
    }

    method Hidden(v: Vertex, who: Loader) returns (hidden: bool)
      ensures hidden == !NothingHidden(actives, who, v)
      decreases v
    {
      hidden := who.ForParent? && WithoutCache(v.digest) in actives
        && who.parent !in actives[WithoutCache(v.digest)].parents;
      var i := 0;
      while i < |v.inputs| && !hidden
        invariant 0 <= i <= |v.inputs|
        invariant hidden ==> !NothingHidden(actives, who, v)
        invariant !hidden ==>
          && (who.ForParent? && WithoutCache(v.digest) in actives ==>
            who.parent in actives[WithoutCache(v.digest)].parents)
          && forall n | 0 <= n < i :: NothingHidden(actives, who, v.inputs[n])
      {
        hidden := Hidden(v.inputs[i], who);
        i := i + 1;
      }
    }

    ghost predicate CanLoad(who: Loader)
      reads `actives, `builds
    {
      match who
      case ForJob(j) => j in builds && builds[j] > 0
      case ForParent(p) => p in actives
    }
  }

  datatype Event =
    | Created(job: JobID) | Started(job: JobID) | Finished(job: JobID) | Discarded(job: JobID) | TornDown(job: JobID)
    | Merged(src: Digest, targets: set<Digest>) | Built(v: Vertex, who: Loader)

  /** After every history: parents and children agree and are active, every state has a job that is not
      torn down or an active parent that lists it, a job is torn down only without running builds, and
      every state that is gone has been released exactly once. */
  method Run(events: seq<Event>) returns (sv: Solver)
    ensures sv.Valid()
    ensures forall d | d in sv.actives ::
      || (exists j | j in sv.actives[d].jobs :: j !in sv.torn)
      || (exists p | p in sv.actives[d].parents :: p in sv.actives && d in sv.actives[p].childVtx)
    ensures forall j | j in sv.torn :: sv.builds[j] == 0 && forall d | d in sv.actives :: j !in sv.actives[d].jobs
  {
    hide Accounted;
    sv := new Solver();
    for i := 0 to |events|
      invariant sv.Valid() == true && fresh(sv)
    {
      sv.Happen(events[i]);
    }
    forall d | d in sv.actives
      ensures (exists j | j in sv.actives[d].jobs :: j !in sv.torn)
           || (exists p | p in sv.actives[d].parents :: p in sv.actives && d in sv.actives[p].childVtx)
    {
      if j :| j in sv.actives[d].jobs { assert j !in sv.torn; }
      else { var p :| p in sv.actives[d].parents; }
    }
  }

  /** The digest under which a vertex is kept apart from one that may use the cache. */
  function WithoutCache(d: Digest): Digest { d + "-ignorecache" }

  /** Under which digest a vertex is, or becomes, active. */
  function Target(actives: Actives, v: Vertex): Digest {
    if WithoutCache(v.digest) in actives then WithoutCache(v.digest)
    else if v.digest in actives && !actives[v.digest].ignoreCache && v.ignoreCache then WithoutCache(v.digest)
    else v.digest
  }

  ghost function Attached(actives: Actives, key: Digest, child: Digest, who: Loader): Actives
    requires key in actives
  {
    match who
    case ForJob(j) => actives[key := actives[key].(jobs := actives[key].jobs + {j})]
    case ForParent(p) =>
      if p in actives[key].parents then actives
      else
        var now := actives[key := actives[key].(parents := actives[key].parents + {p})];
        if p in now then now[p := now[p].(childVtx := now[p].childVtx + {child})] else now
  }

  /** The states after one vertex has been loaded. A vertex that is found under the digest without cache
      is recorded as a child under its own digest. */
  ghost function Loaded(actives: Actives, v: Vertex, who: Loader, id: StateID): Actives {
    var key := Target(actives, v);
    var child := if WithoutCache(v.digest) in actives then v.digest else key;
    Attached(if key in actives then actives else actives[key := State(id, {}, {}, {}, v.ignoreCache)], key, child, who)
  }

  ghost predicate Recorded(actives: Actives, v: Vertex, p: Digest) {
    Target(actives, v) in actives && p in actives[Target(actives, v)].parents
  }

  ghost predicate ParentActive(actives: Actives, v: Vertex, who: Loader) {
    who.ForParent? ==> Recorded(actives, v, who.parent) || who.parent in actives || who.parent == Target(actives, v)
  }

  /** Loading a vertex keeps parents and children tied exactly if it is for a job, or the parent is
      already recorded, or the parent is active and the vertex is not found under the digest without cache. */
  lemma LoadKeeps(actives: Actives, v: Vertex, who: Loader, id: StateID)
    requires Tied(actives)
    ensures Tied(Loaded(actives, v, who, id)) <==>
      (who.ForJob? || Recorded(actives, v, who.parent)
       || ((who.parent in actives || who.parent == Target(actives, v)) && WithoutCache(v.digest) !in actives))
  {
    if who.ForParent? {
      var p, key, now := who.parent, Target(actives, v), Loaded(actives, v, who, id);
      if !Recorded(actives, v, p) {
        assert p in now[key].parents;
        if WithoutCache(v.digest) in actives && p in now {
          assert key !in now[p].childVtx;
        }
      }
    }
  }

  /** For example, a parent records a child that is not active, and the active child a parent that does not list it. */
  lemma HiddenChild(p: Digest, v: Vertex, id: StateID)
    requires p != v.digest && p != WithoutCache(v.digest)
    ensures var actives := map[p := State(0, {0}, {}, {}, false),
      WithoutCache(v.digest) := State(1, {0}, {}, {}, true)];
      && Tied(actives)
      && !Tied(Loaded(actives, v, ForParent(p), id))
      && v.digest in Loaded(actives, v, ForParent(p), id)[p].childVtx
        && v.digest !in Loaded(actives, v, ForParent(p), id)
  {
    var actives := map[p := State(0, {0}, {}, {}, false), WithoutCache(v.digest) := State(1, {0}, {}, {}, true)];
    assert |v.digest| != |WithoutCache(v.digest)|;
    LoadKeeps(actives, v, ForParent(p), id);
  }

  lemma NewAccount(actives: Actives, d: Digest, st: State, vertex: map<StateID, Digest>, releases: map<StateID, nat>)
    requires Accounted(actives, vertex, releases) == true && d !in actives && st.id !in vertex
    ensures Accounted(actives[d := st], vertex[st.id := d], releases[st.id := 0])
  {
  }

  // ---- loading a graph of vertexes ----

  /** Every input of a vertex that has been loaded has been loaded. */
  ghost predicate Closed(seen: map<Vertex, Digest>) {
    forall v, i | v in seen && 0 <= i < |v.inputs| :: v.inputs[i] in seen
  }

  lemma ClosedMore(seen: map<Vertex, Digest>, v: Vertex, key: Digest)
    requires Closed(seen) && forall i | 0 <= i < |v.inputs| :: v.inputs[i] in seen
    ensures Closed(seen[v := key])
  {
  }

  ghost predicate LoadedFor(actives: Actives, who: Loader, d: Digest) {
    d in actives && match who case ForJob(j) => j in actives[d].jobs case ForParent(p) => p in actives[d].parents
  }

  ghost predicate AllLoaded(actives: Actives, who: Loader, seen: map<Vertex, Digest>) {
    forall v | v in seen :: LoadedFor(actives, who, seen[v])
  }

  /** No vertex of the graph is active under the digest without cache, unless the parent is already recorded there. */
  ghost predicate NothingHidden(actives: Actives, who: Loader, v: Vertex)
    decreases v
  {
    && (who.ForParent? && WithoutCache(v.digest) in actives ==> who.parent in actives[WithoutCache(v.digest)].parents)
    && forall i | 0 <= i < |v.inputs| :: NothingHidden(actives, who, v.inputs[i])
  }

  lemma InputNotHidden(actives: Actives, who: Loader, v: Vertex, i: nat)
    requires NothingHidden(actives, who, v) && i < |v.inputs|
    ensures NothingHidden(actives, who, v.inputs[i])
  {
  }

  lemma VertexNotHidden(actives: Actives, who: Loader, v: Vertex)
    requires NothingHidden(actives, who, v)
    ensures who.ForParent? && WithoutCache(v.digest) in actives ==> Recorded(actives, v, who.parent)
  {
  }

  lemma LoadAdds(actives: Actives, v: Vertex, who: Loader, id: StateID, builds: map<JobID, nat>, torn: set<JobID>)
    requires Referenced(actives) && JobsKnown(actives, builds, torn)
      && (who.ForJob? ==> who.job in builds && who.job !in torn)
    ensures var now := Loaded(actives, v, who, id);
      && Referenced(now) && JobsKnown(now, builds, torn) && LoadedFor(now, who, Target(actives, v))
        && LoadedMore(actives, now)
      && forall u | NothingHidden(actives, who, u) :: NothingHidden(now, who, u)
  {
    var now := Loaded(actives, v, who, id);
    forall u | NothingHidden(actives, who, u) ensures NothingHidden(now, who, u) {
      StaysUnhidden(actives, v, who, id, u);
    }
  }

  lemma {:induction false} StaysUnhidden(actives: Actives, v: Vertex, who: Loader, id: StateID, u: Vertex)
    requires NothingHidden(actives, who, u)
    ensures NothingHidden(Loaded(actives, v, who, id), who, u)
    decreases u
  {
    forall i | 0 <= i < |u.inputs| ensures NothingHidden(Loaded(actives, v, who, id), who, u.inputs[i]) {
      StaysUnhidden(actives, v, who, id, u.inputs[i]);
    }
  }

  /** Loading takes nothing away. */
  ghost predicate LoadedMore(before: Actives, now: Actives) {
    forall d | d in before ::
      d in now && now[d].id == before[d].id && before[d].jobs <= now[d].jobs && before[d].parents <= now[d].parents
  }

  lemma StillAllLoaded(before: Actives, now: Actives, who: Loader, seen: map<Vertex, Digest>)
    requires LoadedMore(before, now) && AllLoaded(before, who, seen)
    ensures AllLoaded(now, who, seen)
  {
    forall v | v in seen ensures LoadedFor(now, who, seen[v]) {
      assert LoadedFor(before, who, seen[v]);
    }
  }

  // ---- what teardown leaves ----

  /** State d has a use apart from job j: it is in a set of states that each have another job, or a
      parent in the set. */
  ghost predicate Stays(actives: Actives, j: JobID, d: Digest) {
    exists ds: set<Digest> :: d in ds && Carried(actives, j, ds)
  }

  ghost predicate Carried(actives: Actives, j: JobID, ds: set<Digest>) {
    ds <= actives.Keys && forall d | d in ds :: actives[d].jobs - {j} != {} || actives[d].parents * ds != {}
  }

  lemma StaysMeaning(before: Actives, j: JobID, now: Actives)
    requires Collected(Graph(WithoutJob(before, before.Keys, j)), Graph(now)) == true
    ensures forall d | d in before :: d in now <==> Stays(before, j, d)
  {
    var g := Graph(WithoutJob(before, before.Keys, j));
    forall d | d in before ensures d in now <==> Stays(before, j, d) {
      InGraph(WithoutJob(before, before.Keys, j), d);
      InGraph(now, d);
      if Kept(g, Node(d)) {
        var ids: set<Id> :| Node(d) in ids && Supported(g, ids);
        var ds := set x | x in before && Node(x) in ids;
        SupportedIsCarried(before, j, ids, ds);
        assert d in ds;
      }
      if Stays(before, j, d) {
        var ds: set<Digest> :| d in ds && Carried(before, j, ds);
        CarriedIsSupported(before, j, ds);
        assert Node(d) in Nodes(ds);
      }
    }
  }

  lemma SupportedIsCarried(actives: Actives, j: JobID, ids: set<Id>, ds: set<Digest>)
    requires Supported(Graph(WithoutJob(actives, actives.Keys, j)), ids) && ds == set x | x in actives && Node(x) in ids
    ensures Carried(actives, j, ds)
  {
    var now := WithoutJob(actives, actives.Keys, j);
    forall d | d in ds ensures actives[d].jobs - {j} != {} || actives[d].parents * ds != {} {
      assert Graph(now)[Node(d)].edge.Some? || LinksInto(Graph(now)[Node(d)], ids);
      if actives[d].jobs - {j} == {} {
        var lt :| lt in Graph(now)[Node(d)].links && lt.target in ids;
        assert lt.target in Graph(now) && lt.target.digest in actives[d].parents * ds;
      }
    }
  }

  lemma CarriedIsSupported(actives: Actives, j: JobID, ds: set<Digest>)
    requires Carried(actives, j, ds)
    ensures Supported(Graph(WithoutJob(actives, actives.Keys, j)), Nodes(ds))
  {
    var g := Graph(WithoutJob(actives, actives.Keys, j));
    forall a | a in Nodes(ds) ensures a in g && (g[a].edge.Some? || LinksInto(g[a], Nodes(ds))) {
      var d := a.digest;
      if actives[d].jobs - {j} == {} {
        var p :| p in actives[d].parents * ds;
        assert LinkTo(Link(0, "", 0, ""), Node(p)) in g[a].links && Node(p) in Nodes(ds);
      }
    }
  }

  lemma ParentsLeft(before: Actives, j: JobID, now: Actives)
    requires Collected(Graph(WithoutJob(before, before.Keys, j)), Graph(now)) == true && Tied(now)
    requires SameStates(WithoutJob(before, before.Keys, j), now)
    ensures forall d | d in now :: now[d].parents == before[d].parents * now.Keys
  {
    var was := WithoutJob(before, before.Keys, j);
    forall d, p | d in now && p in before[d].parents && p in now ensures p in now[d].parents {
      InGraph(was, d);
      InGraph(now, d);
      InGraph(now, p);
      assert LinksTo(Graph(was)[Node(d)], Node(p));
      assert LinksTo(Graph(now)[Node(d)], Node(p));
    }
  }

  /** States list only jobs that exist and have not been torn down. */
  ghost predicate JobsKnown(actives: Actives, builds: map<JobID, nat>, torn: set<JobID>) {
    forall d, j | d in actives && j in actives[d].jobs :: j in builds && j !in torn
  }

  /** A job is due for teardown, or has been torn down, exactly if it is discarded and has no running build. */
  ghost predicate Teardowns(builds: map<JobID, nat>, discarded: set<JobID>, due: set<JobID>, torn: set<JobID>) {
    && discarded <= builds.Keys && due <= discarded && torn <= discarded
    && forall j | j in discarded :: builds[j] == 0 <==> j in due || j in torn
  }

  function WithJobs(actives: Actives, js: set<JobID>, targets: set<Digest>): Actives {
    map d | d in actives :: actives[d].(jobs := actives[d].jobs + (if d in targets then js else {}))
  }

  lemma WithJobsKeeps(actives: Actives, src: Digest, targets: set<Digest>, builds: map<JobID, nat>, torn: set<JobID>)
    requires src in actives && Tied(actives) && Referenced(actives) && JobsKnown(actives, builds, torn)
    ensures var now := WithJobs(actives, actives[src].jobs, targets);
      Tied(now) && Referenced(now) && JobsKnown(now, builds, torn)
  {
    var now := WithJobs(actives, actives[src].jobs, targets);
    assert forall d | d in now :: now[d].jobs >= actives[d].jobs && now[d].parents == actives[d].parents;
  }

  ghost function WithoutJob(actives: Actives, ds: set<Digest>, j: JobID): Actives {
    map d | d in actives :: if d in ds then actives[d].(jobs := actives[d].jobs - {j}) else actives[d]
  }

  /** The states among ds that have no job but j. */
  ghost function Lost(actives: Actives, ds: set<Digest>, j: JobID): set<Id> {
    set d | d in ds && d in actives && actives[d].jobs - {j} == {} :: Node(d)
  }

  lemma GraphWithoutJob(actives: Actives, ds: set<Digest>, j: JobID)
    ensures WithoutEdges(Graph(actives), Lost(actives, ds, j)) == Graph(WithoutJob(actives, ds, j))
  {
    var g, h := WithoutEdges(Graph(actives), Lost(actives, ds, j)), Graph(WithoutJob(actives, ds, j));
    assert g.Keys == h.Keys;
    forall a | a in g ensures g[a] == h[a] {
      assert Node(a.digest) == a;
    }
  }

  lemma OnlyHolders(actives: Actives, j: JobID)
    ensures WithoutJob(actives, (set d | d in actives && j in actives[d].jobs), j)
      == WithoutJob(actives, actives.Keys, j)
  {
    forall d | d in actives && j !in actives[d].jobs ensures actives[d].jobs - {j} == actives[d].jobs {}
  }

  lemma LosesJob(actives: Actives, d: Digest, j: JobID, core: set<Id>)
    requires d in actives && Inverse(Graph(actives), {}) == Used(Graph(actives), {}) == Core(Graph(actives), core)
      == true
    ensures var now := WithoutJob(actives, {d}, j); var none: set<Id> := {};
      && Graph(now) == WithoutEdges(Graph(actives), Lost(actives, {d}, j))
      && Collecting(Graph(now), if Unreferenced(now[d]) then none + {Node(d)} else none, core)
      && forall c | c in now[d].childVtx :: c in now && d in now[c].parents
  {
    hide Inverse, Core, Graph, Lost;
    var now := WithoutJob(actives, {d}, j);
    var lost := Lost(actives, {d}, j);
    GraphWithoutJob(actives, {d}, j);
    StripInverse(Graph(actives), lost);
    StripCore(Graph(actives), lost, core);
    UnreferencedNode(now, d);
    LosesUse(actives, d, j);
    BecomesDying(Graph(now), Node(d), core);
    var none: set<Id> := {};
    assert none + {Node(d)} == {Node(d)};
    GraphTied(now);
  }

  lemma LosesUse(actives: Actives, d: Digest, j: JobID)
    requires d in actives && Used(Graph(actives), {}) == true
    ensures var now := WithoutJob(actives, {d}, j); Used(Graph(now), if Unreferenced(now[d]) then {Node(d)} else {})
  {
    hide Used;
    ReferencedGraph(actives);
    var now := WithoutJob(actives, {d}, j);
    forall a | a in Graph(now) && a != Node(d) ensures Graph(now)[a].edge.Some? || Graph(now)[a].links != {} {
      UnreferencedNode(now, a.digest);
    }
    UnreferencedNode(now, d);
    NowUsed(Graph(now), Node(d), Unreferenced(now[d]));
  }

  lemma NowUsed(g: Items, n: Id, bare: bool)
    requires forall a | a in g && a != n :: g[a].edge.Some? || g[a].links != {}
    requires !bare && n in g ==> g[n].edge.Some? || g[n].links != {}
    ensures Used(g, if bare then {n} else {})
  {
  }

  lemma JobStays(before: Actives, done: set<Digest>, j: JobID, d: Digest, now: Actives)
    requires d in before && j in before[d].jobs && d !in done
    requires Shrunk(WithoutEdges(Graph(before), Lost(before, done, j)), Graph(now), {}) == true
    requires SameStates(WithoutJob(before, done, j), now)
    ensures d in now && now[d].jobs == before[d].jobs
  {
    GraphWithoutJob(before, done, j);
    InGraph(before, d);
    InGraph(now, d);
    assert Graph(WithoutJob(before, done, j))[Node(d)].edge.Some?;
  }

  lemma LostNext(before: Actives, done: set<Digest>, j: JobID, d: Digest, mid: Actives, next: Items)
    requires d in before && d in mid && mid[d].jobs == before[d].jobs
    requires Shrunk(WithoutEdges(Graph(before), Lost(before, done, j)), Graph(mid), {}) == true
    requires Shrunk(WithoutEdges(Graph(mid), Lost(mid, {d}, j)), next, {}) == true
    ensures Shrunk(WithoutEdges(Graph(before), Lost(before, done + {d}, j)), next, {})
  {
    hide Shrunk, Graph;
    if mid[d].jobs - {j} == {} {
      assert Lost(mid, {d}, j) == {Node(d)} && Lost(before, done + {d}, j) == Lost(before, done, j) + {Node(d)};
      StripMore(Graph(before), Lost(before, done, j), Graph(mid), Node(d), next);
    } else {
      assert Lost(mid, {d}, j) == {} && Lost(before, done + {d}, j) == Lost(before, done, j);
      assert WithoutEdges(Graph(mid), {}) == Graph(mid);
      ShrunkTwice(WithoutEdges(Graph(before), Lost(before, done, j)), Graph(mid), next, {});
    }
  }

  predicate Unreferenced(st: State) {
    st.jobs == {} && st.parents == {}
  }

  lemma DropsParent(actives: Actives, c: Digest, k: Digest, dying: set<Id>, core: set<Id>)
    requires c in actives && Node(k) in dying && k in actives[c].parents
      && Collecting(Graph(actives), dying, core) == true
    ensures var now := Orphaned(actives, c, k);
      && Node(c) !in dying && Collecting(Graph(now), if Unreferenced(now[c]) then dying + {Node(c)} else dying, core)
      && (forall x | x in now[c].childVtx :: x in now && c in now[x].parents)
      && Shrunk(Graph(actives), Graph(now), dying) && SameLinksTo(Graph(actives), Graph(now), dying - {Node(k)})
      && LinkPairs(Graph(now)) < LinkPairs(Graph(actives))
  {
    hide Collecting, Shrunk, SameLinksTo, LinkPairs, LinksTo, Graph;
    var now := Orphaned(actives, c, k);
    InGraph(actives, c);
    DropCollecting(Graph(actives), Node(c), Node(k), dying, core);
    DropShrinks(Graph(actives), Node(c), Node(k), dying);
    GraphDropped(actives, c, k);
    UnreferencedNode(now, c);
    InGraph(now, c);
    forall x | x in now[c].childVtx ensures x in now && c in now[x].parents {
      InGraph(now, x);
      assert Node(x) in Graph(now)[Node(c)].deps;
    }
  }

  lemma UnreferencedNode(actives: Actives, d: Digest)
    requires d in actives
    ensures Node(d) in Graph(actives)
    ensures Graph(actives)[Node(d)].edge.None? && Graph(actives)[Node(d)].links == {} <==> Unreferenced(actives[d])
  {
    InGraph(actives, d);
    if p :| p in actives[d].parents { assert LinkTo(Link(0, "", 0, ""), Node(p)) in Graph(actives)[Node(d)].links; }
  }

  lemma KeepsChildren(before: Actives, now: Actives, k: Digest, dying: set<Id>)
    requires SameLinksTo(Graph(before), Graph(now), dying) == true && Node(k) in dying
    ensures forall x | x in before && k in before[x].parents :: x in now && k in now[x].parents
  {
    hide Graph;
    SameLinkers(Graph(before), Graph(now), Node(k), dying);
    forall x | x in before && k in before[x].parents ensures x in now && k in now[x].parents {
      InGraph(before, x);
      InGraph(now, x);
      assert LinksTo(Graph(before)[Node(x)], Node(k));
    }
  }

  lemma StillDying(actives: Actives, k: Digest, dying: set<Id>, core: set<Id>)
    requires Collecting(Graph(actives), dying, core) == true && Node(k) in dying
    ensures k in actives && Unreferenced(actives[k])
  {
    InGraph(actives, k);
    UnreferencedNode(actives, k);
  }

  lemma ChildrenListed(actives: Actives, k: Digest, dying: set<Id>)
    requires k in actives && Inverse(Graph(actives), dying) == true
    ensures forall c | c in actives && k in actives[c].parents :: c in actives[k].childVtx
  {
    InGraph(actives, k);
    forall c | c in actives && k in actives[c].parents ensures c in actives[k].childVtx {
      InGraph(actives, c);
      assert LinksTo(Graph(actives)[Node(c)], Node(k));
    }
  }

  lemma NoChildren(actives: Actives, k: Digest)
    requires k in actives && Unreferenced(actives[k]) && forall c | c in actives :: k !in actives[c].parents
    ensures forall d | d in Graph(actives) :: !LinksTo(Graph(actives)[d], Node(k))
    ensures Node(k) in Graph(actives) && Graph(actives)[Node(k)].links == {} && Graph(actives)[Node(k)].edge.None?
  {
  }
}
