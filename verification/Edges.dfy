/** Pipes and edges of the solver: what an edge remembers about its inputs, and how
    it digests the replies to its requests. */
module Edges {
  import opened SolverTypes

  datatype EdgeRef = EdgeRef(vertex: Digest, index: nat)

  /** What the sending side of a pipe computes. */
  datatype Work =
    | Request                 // another edge answers
    | CacheMapFn              // op.CacheMap
    | ExecFn(load: bool)      // loadCache or execOp
    | SlowCacheFn(dep: nat)   // op.CalcSlowCache for one input
    | Postpone                // returns at once, wakes the edge up again
    | BrokenGraph             // fails with "inconsistent graph state"

  /** The value of a pipe. A request is answered with a pointer to the live state of an edge. */
  datatype Value =
    | Nothing
    | StateOf(edge: Edge)
    | MapResp(cacheMap: CacheMap, complete: bool)
    | ResultVal(result: ResultID, keys: seq<KeyID>)
    | DigestVal(digest: Digest)

  datatype Reply = Reply(completed: bool, canceled: bool, err: Option<Error>, value: Value)

  const NO_REPLY := Reply(false, false, None, Nothing)

  /** Each of the new keys has been added once, and nothing else. */
  ghost predicate Added(before: seq<KeyID>, now: seq<KeyID>, newKeys: set<KeyID>) {
    && before <= now && NoDup(now[|before|..]) && forall k :: k in now[|before|..] <==> k in newKeys
  }

  lemma OneAdded(before: seq<KeyID>, now: seq<KeyID>, newKeys: set<KeyID>, k: KeyID)
    requires Added(before, now, newKeys) && k !in newKeys
    ensures Added(before, now + [k], newKeys + {k})
  {
    var rest := now[|before|..];
    assert k !in rest;
    assert (now + [k])[|before|..] == rest + [k];
  }

  /** The records, all found under one key. */
  function FoundUnder(k: KeyID, records: set<RecordID>): map<RecordID, KeyID> {
    map r | r in records :: k
  }

  ghost predicate NoDup<T>(s: seq<T>) {
    forall i, j | 0 <= i < j < |s| :: s[i] != s[j]
  }

  /** Bigger key maps match more keys. */
  lemma MatchesGrow<P>(a: seq<Dep<P>>, b: seq<Dep<P>>)
    requires |a| == |b| && forall i | 0 <= i < |a| :: a[i].keyMap <= b[i].keyMap
    ensures forall k | MatchedByAll(a, k) :: MatchedByAll(b, k)
  {
  }

  ghost predicate NoKeys<P>(deps: seq<Dep<P>>) {
    forall i | 0 <= i < |deps| :: deps[i].keyMap == {}
  }

  ghost predicate Requested(depRequests: map<Pipe, nat>, deps: seq<Dep<Pipe?>>) {
    forall p | p in depRequests :: depRequests[p] < |deps| && deps[depRequests[p]].req != null
  }

  /** Keys of the edge, and keys of its cache records, are matched by every input. */
  ghost predicate OnlyMatched<P>(keyMap: set<KeyID>, records: map<RecordID, KeyID>, inputs: seq<EdgeRef>,
                                 deps: seq<Dep<P>>)
  {
    && (forall k | k in keyMap :: MatchedByAll(deps, k))
    && (forall r | r in records :: inputs == [] || MatchedByAll(deps, records[r]))
  }

  lemma FewerRecords<P>(keyMap: set<KeyID>, records: map<RecordID, KeyID>, inputs: seq<EdgeRef>, deps: seq<Dep<P>>,
    gone: set<RecordID>)
    requires OnlyMatched(keyMap, records, inputs, deps)
    ensures OnlyMatched(keyMap, records - gone, inputs, deps)
  {
  }

  ghost predicate AllMatched<P>(keyMap: set<KeyID>, deps: seq<Dep<P>>) {
    forall k | MatchedByAll(deps, k) :: k in keyMap
  }

  /** The only request to execute or to load that is not done is the current one. */
  ghost predicate OneExec(mine: set<Pipe>, done: set<Pipe>, execReq: Pipe?) {
    forall p | p in mine && p !in done && p.work.ExecFn? :: p == execReq
  }

  ghost predicate DepsWired(deps: seq<Dep<Pipe?>>, depRequests: map<Pipe, nat>, mine: set<Pipe>, done: set<Pipe>,
                            hasMap: bool)
  {
    && (forall p | p in depRequests :: p in mine && (p.work.Request? || p.work.BrokenGraph?))
    && (forall i | 0 <= i < |deps| && deps[i].req != null ::
          deps[i].req in depRequests && depRequests[deps[i].req] == i)
    && (forall i | 0 <= i < |deps| && deps[i].slowCacheReq != null ::
          && hasMap && deps[i].slowCacheReq in mine && deps[i].slowCacheReq.work == SlowCacheFn(i)
          && (deps[i].slowCacheReq in done ==> deps[i].slowCacheComplete))
  }

  /** The pipes and the content-based progress of every input are the same. */
  ghost predicate SameRequests(a: seq<Dep<Pipe?>>, b: seq<Dep<Pipe?>>) {
    && |a| == |b|
    && forall i | 0 <= i < |a| ::
         && a[i].req == b[i].req && a[i].slowCacheReq == b[i].slowCacheReq
         && a[i].slowCacheComplete == b[i].slowCacheComplete
         && a[i].keyMap <= b[i].keyMap
  }

  /** As SameRequests, but the content-based request of input i may have been answered. */
  ghost predicate SameSlowRequests(a: seq<Dep<Pipe?>>, b: seq<Dep<Pipe?>>, i: nat) {
    && i < |a| == |b|
    && (forall j | 0 <= j < |a| :: a[j].req == b[j].req)
    && (forall j | 0 <= j < |a| && j != i ::
          a[j].slowCacheReq == b[j].slowCacheReq && a[j].slowCacheComplete == b[j].slowCacheComplete)
  }

  /** Only requests have been made: what is known about the inputs is the same. */
  ghost predicate SameProgress(a: seq<Dep<Pipe?>>, b: seq<Dep<Pipe?>>) {
    && |a| == |b|
    && forall i | 0 <= i < |a| :: b[i].(req := a[i].req, slowCacheReq := a[i].slowCacheReq) == a[i]
  }

  lemma SlowReqsStayWired(a: seq<Dep<Pipe?>>, b: seq<Dep<Pipe?>>, i: nat, depRequests: map<Pipe, nat>,
                          mine: set<Pipe>, done: set<Pipe>)
    requires SameSlowRequests(a, b, i) && DepsWired(a, depRequests, mine, done, true)
    requires a[i].slowCacheReq != null
    requires b[i].slowCacheReq == null || (b[i].slowCacheReq == a[i].slowCacheReq && b[i].slowCacheComplete)
    ensures DepsWired(b, depRequests, mine, done + {a[i].slowCacheReq}, true)
  {
  }

  lemma ExecDoneStaysWired(deps: seq<Dep<Pipe?>>, depRequests: map<Pipe, nat>, mine: set<Pipe>, done: set<Pipe>,
                           hasMap: bool, p: Pipe)
    requires DepsWired(deps, depRequests, mine, done, hasMap) && p.work.ExecFn?
    ensures DepsWired(deps, depRequests, mine, done + {p}, hasMap)
  {
  }

  lemma AskedStayWired(deps: seq<Dep<Pipe?>>, depRequests: map<Pipe, nat>, mine: set<Pipe>, done: set<Pipe>,
    hasMap: bool,
                       i: nat, p: Pipe)
    requires DepsWired(deps, depRequests, mine, done, hasMap) == Requested(depRequests, deps) == true
    requires i < |deps| && p in mine && p !in depRequests && (p.work == Request || p.work == BrokenGraph)
    ensures var deps' := deps[i := deps[i].(req := p)];
      DepsWired(deps', depRequests[p := i], mine, done, hasMap) && Requested(depRequests[p := i], deps')
  {
  }

  lemma SameRequestsStayWired(a: seq<Dep<Pipe?>>, b: seq<Dep<Pipe?>>, depRequests: map<Pipe, nat>, mine: set<Pipe>,
                              done: set<Pipe>)
    requires SameRequests(a, b)
    ensures forall hasMap :: DepsWired(a, depRequests, mine, done, hasMap) ==>
      DepsWired(b, depRequests, mine, done, hasMap)
  {
  }

  /** A request pipe. `send` is the sender's status, `recv` the status the receiver has copied,
      `unread` holds while the channel carries a status the receiver has not copied. */
  class Pipe {
    const creator: Edge?
    const work: Work
    const desired: EdgeStatus
    const current: EdgeState  // what the requesting edge knows already
    var from: Edge?
    var target: Edge?
    var canceled: bool
    var send: Reply
    var recv: Reply
    var unread: bool
    var started: bool         // a load function has chosen its cache record
    ghost var unseen: bool    // requested or canceled since the target last ran

    constructor (creator: Edge?, target: Edge?, work: Work, desired: EdgeStatus, current: EdgeState)
      ensures this.creator == creator && from == creator && this.target == target && this.work == work
      ensures this.desired == desired && this.current == current
      ensures !canceled && send == NO_REPLY && recv == NO_REPLY && !unread && !started && unseen
    {
      this.creator, this.from, this.target, this.work := creator, creator, target, work;
      this.desired, this.current := desired, current;
      canceled, send, recv, unread, started, unseen := false, NO_REPLY, NO_REPLY, false, false, true;
    }

    /** A reply fits the work of the pipe; the edge code asserts the dynamic type of values. */
    predicate Fits(r: Reply, edges: set<Edge>)
    {
      match work
      case Request => r.value.Nothing? || (r.value.StateOf? && r.value.edge in edges)
      case CacheMapFn => r.completed && r.err.None? ==>
        r.value.MapResp? && creator != null && |r.value.cacheMap.deps| == |creator.inputs|
      case ExecFn(_) => r.completed && r.err.None? ==> r.value.ResultVal?
      case SlowCacheFn(_) => r.completed && r.err.None? ==> r.value.DigestVal?
      case Postpone => true
      case BrokenGraph => r.value.Nothing? && (r.completed ==> r.err.Some?)
    }

    method Receive() returns (changed: bool)
      modifies `recv, `unread
      ensures changed == old(unread) && !unread
      ensures recv == if old(unread) then send else old(recv)
    {
      changed := unread;
      if unread { recv, unread := send, false; }
    }

    method Update(v: Value)
      requires !send.completed
      modifies `send, `unread
      ensures send == old(send).(value := v) && unread
    {
      send, unread := send.(value := v), true;
    }

    /** A pipe is finalized once: a second answer to a build would close its channel twice. */
    method Finalize(v: Value, err: Option<Error>)
      requires !send.completed
      modifies `send, `unread
      ensures unread && send.completed && send.value == v && send.err == err
      ensures send.canceled == (old(send).canceled || (err == Some(Canceled) && canceled))
    {
      send := send.(value := v, err := err, completed := true);
      if err == Some(Canceled) && canceled {
        send := send.(canceled := true);
      }
      unread := true;
    }
  }

  /** The request to an input that is below the state wanted from it asks for that state; to any other one it stays. */
  ghost predicate AskedFor(d: Dep<Pipe?>, before: Dep<Pipe?>, want: EdgeStatus) {
    if before.state < want then d.req != null && (d.req.work == Request ==> d.req.desired == want)
    else d.req == before.req
  }

  /** The first n inputs have been asked for what is wanted, and the others for nothing. */
  ghost predicate AskedTo(deps: seq<Dep<Pipe?>>, before: seq<Dep<Pipe?>>, wants: seq<EdgeStatus>, n: nat) {
    && |deps| == |before| == |wants| && n <= |deps|
    && (forall i | 0 <= i < n :: AskedFor(deps[i], before[i], wants[i]))
    && forall i | n <= i < |deps| :: deps[i] == before[i]
  }

  lemma AskedNone(deps: seq<Dep<Pipe?>>, wants: seq<EdgeStatus>)
    requires |deps| == |wants|
    ensures AskedTo(deps, deps, wants, 0)
  {
  }

  lemma AskedNext(deps: seq<Dep<Pipe?>>, now: seq<Dep<Pipe?>>, before: seq<Dep<Pipe?>>, wants: seq<EdgeStatus>, n: nat)
    requires AskedTo(deps, before, wants, n) && n < |deps| == |now|
    requires now == deps[n := now[n]] && AskedFor(now[n], deps[n], wants[n])
    ensures AskedTo(now, before, wants, n + 1)
  {
  }

  /** An input that has not told anything yet. */
  const NO_DEP: Dep<Pipe?> := Dep(null, null, INITIAL, None, None, [], {}, false, false, None)

  class Edge {
    const inputs: seq<EdgeRef>
    const ignoreCache: bool

    var state: EdgeStatus
    var result: Option<ResultID>
    var cacheMap: Option<CacheMap>
    var keys: seq<KeyID>

    var depRequests: map<Pipe, nat>
    var depsInit: bool
    var deps: seq<Dep<Pipe?>>

    var cacheMapReq: Pipe?
    var cacheMapDone: bool
    var cacheMapIndex: nat
    var cacheMapDigests: seq<Digest>
    var execReq: Pipe?
    var execCacheLoad: bool
    var err: Option<Error>
    var cacheRecords: map<RecordID, KeyID>
    var cacheRecordsLoaded: set<RecordID>
    var keyMap: set<KeyID>

    var noCacheMatchPossible: bool
    var allDepsCompletedCacheFast: bool
    var allDepsCompletedCacheSlow: bool
    var allDepsStateCacheSlow: bool
    var allDepsCompleted: bool
    var hasActiveOutgoing: bool
    var keysDidChange: bool
    var failedOnce: bool

    ghost var mine: set<Pipe>   // the requests this edge has made
    ghost var done: set<Pipe>   // those whose completion it has processed

    constructor (inputs: seq<EdgeRef>, ignoreCache: bool)
      ensures this.inputs == inputs && this.ignoreCache == ignoreCache
      ensures Shape() == Synced() == Wired() == true && mine == done == {}
      ensures !keysDidChange && result.None? && Started() && err.None? && Failing() && cacheMap.None?
        && cacheMapReq == null
      ensures !cacheMapDone && !depsInit
    {
      this.inputs, this.ignoreCache := inputs, ignoreCache;
      state, result, cacheMap, keys := INITIAL, None, None, [];
      depRequests, depsInit, deps := map[], false, [];
      cacheMapReq, cacheMapDone, cacheMapIndex, cacheMapDigests := null, false, 0, [];
      execReq, execCacheLoad, err := null, false, None;
      cacheRecords, cacheRecordsLoaded, keyMap := map[], {}, {};
      noCacheMatchPossible, allDepsCompletedCacheFast, allDepsCompletedCacheSlow := false, false, false;
      allDepsStateCacheSlow, allDepsCompleted, hasActiveOutgoing, keysDidChange := false, false, false, false;
      failedOnce := false;
      mine, done := {}, {};
    }

    /** What holds of an edge at every point of its life, also in the middle of processing updates. */
    ghost predicate Shape()
      reads `state, `result, `depsInit, `deps, `cacheMap, `cacheMapDone, `cacheRecords, `keys, `cacheMapReq, `execReq,
            `depRequests, `keyMap
    {
      && (state == COMPLETE <==> result.Some?)
      && (if depsInit then |deps| == |inputs| else deps == [])
      && (cacheMap.Some? ==> depsInit && |cacheMap.value.deps| == |inputs|)
      && (cacheMap.None? ==> !cacheMapDone && cacheRecords == map[])
      && (cacheMap.None? || ignoreCache ==> NoKeys(deps))
      && (ignoreCache ==> cacheRecords == map[])
      && (cacheRecords != map[] ==> keys != [])
      && (execReq != null || result.Some? ==> cacheMap.Some? && (cacheMapDone || keys != []))
      && Requested(depRequests, deps)
      && OnlyMatched(keyMap, cacheRecords, inputs, deps)
    }

    /** The derived flags and the key map agree with the inputs. */
    ghost predicate Synced()
      reads `state, `keys, `cacheMap, `cacheMapDone, `deps, `keyMap, `allDepsCompletedCacheFast,
            `allDepsCompletedCacheSlow, `allDepsStateCacheSlow, `allDepsCompleted
    {
      && AllMatched(keyMap, deps)
      && match cacheMap
         case None => FlagsClear()
         case Some(m) =>
           && |deps| == |m.deps|
           && var b := BoundsOf(deps, m.deps, |deps|);
           && allDepsCompletedCacheFast == (cacheMapDone && b.completedCacheFast)
           && allDepsCompletedCacheSlow == (cacheMapDone && b.completedCacheSlow)
           && allDepsStateCacheSlow == (cacheMapDone && b.stateCacheSlow)
           && allDepsCompleted == (cacheMapDone && b.completed)
           && (cacheMapDone || keys != [] ==> state >= b.high)
    }

    /** The inputs are set up before the answer to the first request can arrive. */
    predicate Started()
      reads `cacheMapReq, `depsInit
    {
      cacheMapReq != null ==> depsInit
    }

    /** An edge that has been failed by the scheduler has an error. */
    predicate Failing()
      reads `failedOnce, `err
    {
      failedOnce ==> err.Some?
    }

    predicate FlagsClear()
      reads `allDepsCompletedCacheFast, `allDepsCompletedCacheSlow, `allDepsStateCacheSlow, `allDepsCompleted
    {
      !allDepsCompletedCacheFast && !allDepsCompletedCacheSlow && !allDepsStateCacheSlow && !allDepsCompleted
    }

    /** Every request the edge remembers is its own, and a completed one has had its effect. */
    ghost predicate Wired()
      reads `done, `mine, `cacheMapReq, `cacheMapDone, `execReq, `execCacheLoad, `result, `cacheRecords, `deps,
            `depRequests, `cacheMap
    {
      && done <= mine
      && (cacheMapReq != null ==> cacheMapReq in mine && cacheMapReq.work == CacheMapFn)
      && (cacheMapDone <==> cacheMapReq != null && cacheMapReq in done)
      && (execReq != null ==>
            && execReq in mine && execReq.work == ExecFn(execCacheLoad)
            && (execReq in done <==> result.Some?)
            && (execCacheLoad && result.None? ==> cacheRecords != map[])
            && (!execCacheLoad ==> cacheMapDone))
      && OneExec(mine, done, execReq)
      && (inputs == [] && (execReq != null || result.Some?) ==> cacheMapReq == null || cacheMapReq in done)
      && (inputs == [] && cacheMapReq != null && cacheMapReq !in done ==> cacheRecords == map[])
      && DepsWired(deps, depRequests, mine, done, cacheMap.Some?)
    }

    function Snapshot(): EdgeState
      reads `state, `result, `cacheMap, `keys
    {
      EdgeState(state, result, cacheMap, keys)
    }

    predicate IsComplete()
      reads `err, `result
    {
      err.Some? || result.Some?
    }

    function SlowFn(i: nat): bool
      requires i < |deps| && (cacheMap.Some? ==> |cacheMap.value.deps| == |deps|)
      reads `cacheMap, `deps
    {
      cacheMap.Some? && cacheMap.value.deps[i].hasSlow
    }

    /** Every input has a key (or a matched key), a content-based key or a result. */
    predicate AllDepsHaveKeys(matching: bool)
      reads `cacheMap, `deps
    {
      cacheMap.Some? &&
      forall i | 0 <= i < |deps| ::
        || (if matching then deps[i].keyMap != {} else deps[i].keys != [])
        || deps[i].slowCacheKey.Some?
        || deps[i].result.Some?
    }

    /** currentIndexKey is not nil: the edge can be looked up in the index. */
    predicate HasIndexKey()
      reads `cacheMap, `deps
    {
      cacheMap.Some? && forall i | 0 <= i < |deps| :: deps[i].keys != [] || deps[i].result.Some?
    }

    // ---- processing of updates ----

    method ProbeCache(i: nat, depKeys: seq<KeyID>) returns (found: bool)
      requires Shape() == true && i < |deps| && cacheMap.Some?
      modifies `deps, `err
      ensures Shape() == true
      ensures deps == old(deps)[i := old(deps[i]).(keyMap := deps[i].keyMap)]
      ensures old(deps[i].keyMap) <= deps[i].keyMap
      ensures found <==> deps[i].keyMap != old(deps[i].keyMap)
      ensures depKeys == [] || ignoreCache ==> !found && err == old(err)
      ensures old(err).Some? ==> err.Some?
    {
      if depKeys == [] || ignoreCache { return false; }
      var answer: set<KeyID>, failed: bool := *, *;
      if failed { err := Some(Failed("error on cache query")); }
      var d := deps[i];
      found := !(answer <= d.keyMap);
      ghost var before := deps;
      deps := deps[i := d.(keyMap := d.keyMap + answer)];
      MatchesGrow(before, deps);
    }

    /** Input i has no match, and there is nothing left that it could get one from. */
    predicate CannotMatch(i: nat)
      requires i < |deps| && cacheMap.Some? && |cacheMap.value.deps| == |deps|
      reads `cacheMap, `deps
    {
      && deps[i].keyMap == {}
      && if SlowFn(i) then deps[i].slowCacheComplete && !deps[i].slowCacheFoundKey else deps[i].state >= CACHE_SLOW
    }

    ghost predicate AnyCannotMatch(n: nat)
      requires n <= |deps| && cacheMap.Some? && |cacheMap.value.deps| == |deps|
      reads `cacheMap, `deps
    {
      exists i | 0 <= i < n :: CannotMatch(i)
    }

    method CheckDepMatchPossible(i: nat)
      requires i < |deps| && cacheMap.Some? && |cacheMap.value.deps| == |deps|
      modifies `noCacheMatchPossible
      ensures noCacheMatchPossible <==> old(noCacheMatchPossible) || CannotMatch(i)
    {
      var d := deps[i];
      var hasSlow := SlowFn(i);
      if !noCacheMatchPossible
         && ((!d.slowCacheFoundKey && d.slowCacheComplete && hasSlow) || (!hasSlow && d.state >= CACHE_SLOW))
         && d.keyMap == {}
      {
        noCacheMatchPossible := true;
      }
    }

    /** Records found under one key are remembered, without those that were tried to no avail where they are to be
        skipped, and the key becomes a key of the edge, unless the cache does not answer. */
    method AddKey(k: KeyID, skipLoaded: bool) returns (ghost answer: Option<set<RecordID>>)
      requires Shape() == true && cacheMap.Some? && !ignoreCache
      requires inputs == [] || MatchedByAll(deps, k)
      modifies `cacheRecords, `keys
      ensures Shape() == true
      ensures keys == if answer.Some? then old(keys) + [k] else old(keys)
      ensures cacheRecords == if answer.None? then old(cacheRecords) else
        old(cacheRecords) + FoundUnder(k, answer.value - if skipLoaded then cacheRecordsLoaded else {})
    {
      var records: set<RecordID>, failed: bool := *, *;
      answer := None;
      if failed { return; }
      answer := Some(records);
      if skipLoaded { records := records - cacheRecordsLoaded; }
      cacheRecords := cacheRecords + FoundUnder(k, records);
      keys := keys + [k];
    }

    method ProcessCacheMapReq(ghost edges: set<Edge>)
      requires Shape() == Wired() == true && cacheMapReq != null && cacheMapReq.recv.completed && cacheMapReq !in done
      requires depsInit
      requires cacheMapReq.creator == this && cacheMapReq.Fits(cacheMapReq.recv, edges)
      modifies `cacheMapReq, `err, `cacheMap, `cacheMapDone, `cacheMapIndex, `cacheMapDigests, `cacheRecords, `keys,
               `state, `keysDidChange, `deps, `noCacheMatchPossible, `done
      ensures Shape() == Wired() == true && done == old(done) + {old(cacheMapReq)}
      ensures old(cacheMapReq).recv.err.Some? ==>
        && cacheMapReq == null && cacheMap == old(cacheMap) && deps == old(deps) && keys == old(keys)
          && state == old(state)
        && err == if old(err).None? && !old(cacheMapReq).recv.canceled then old(cacheMapReq).recv.err else old(err)
      ensures old(cacheMapReq).recv.err.None? ==>
        && cacheMap == Some(old(cacheMapReq).recv.value.cacheMap)
          && cacheMapDone == old(cacheMapReq).recv.value.complete
        && cacheMapIndex == old(cacheMapIndex) + 1 && cacheMapReq == (if cacheMapDone then old(cacheMapReq) else null)
        && state == if inputs == [] then CACHE_SLOW else old(state)
      ensures old(cacheMapReq).recv.err.None? ==>
        && (keysDidChange <==> old(keysDidChange) || AllDepsHaveKeys(false))
        && (noCacheMatchPossible <==> old(noCacheMatchPossible) || AnyCannotMatch(|deps|))
        && cacheMapDigests == old(cacheMapDigests) + if inputs == [] then [cacheMap.value.digest] else []
      ensures old(cacheMap).Some? ==> cacheMap.Some?
      ensures old(err).Some? ==> err.Some?
      ensures old(cacheMapReq).recv.err.None? && inputs == [] ==> err == old(err) && keysDidChange
    {
      hide OnlyMatched, Requested, NoKeys;
      var reply := cacheMapReq.recv;
      if reply.err.Some? {
        done, cacheMapReq := done + {cacheMapReq}, null;
        if !reply.canceled && err.None? { err := reply.err; }
      } else {
        CacheMapArrived(reply.value.cacheMap, reply.value.complete);
      }
    }

    method CacheMapArrived(resp: CacheMap, complete: bool)
      requires Shape() == Wired() == true && cacheMapReq != null && cacheMapReq !in done && |resp.deps| == |inputs|
      requires depsInit
      modifies `cacheMapReq, `err, `cacheMap, `cacheMapDone, `cacheMapIndex, `cacheMapDigests, `cacheRecords, `keys,
               `state, `keysDidChange, `deps, `noCacheMatchPossible, `done
      ensures Shape() == Wired() == true && done == old(done) + {old(cacheMapReq)}
      ensures cacheMap == Some(resp) && cacheMapDone == complete && cacheMapIndex == old(cacheMapIndex) + 1
      ensures cacheMapReq == (if complete then old(cacheMapReq) else null)
        && state == if inputs == [] then CACHE_SLOW else old(state)
      ensures old(err).Some? ==> err.Some?
      ensures inputs == [] ==> err == old(err) && keysDidChange
      ensures keysDidChange <==> old(keysDidChange) || AllDepsHaveKeys(false)
      ensures noCacheMatchPossible <==> old(noCacheMatchPossible) || AnyCannotMatch(|deps|)
      ensures cacheMapDigests == if inputs == [] then old(cacheMapDigests) + [resp.digest] else old(cacheMapDigests)
    {
      LearnCacheMap(resp, complete);
      SameRequestsStayWired(old(deps), deps, depRequests, mine, done);
      CacheMapProcessed();
    }

    method LearnCacheMap(resp: CacheMap, complete: bool)
      requires Shape() == true && |resp.deps| == |inputs| && depsInit
      requires !cacheMapDone && (inputs == [] ==> result.None? && execReq == null)
      modifies `err, `cacheMap, `cacheMapDone, `cacheMapIndex, `cacheMapDigests, `cacheRecords, `keys, `state,
               `keysDidChange, `deps, `noCacheMatchPossible
      ensures Shape() == true && cacheMap == Some(resp) && cacheMapDone == complete && SameRequests(old(deps), deps)
      ensures old(cacheRecords) != map[] ==> cacheRecords != map[]
      ensures cacheMapIndex == old(cacheMapIndex) + 1 && state == if inputs == [] then CACHE_SLOW else old(state)
      ensures old(err).Some? ==> err.Some?
      ensures inputs == [] ==> err == old(err) && keysDidChange
      ensures keysDidChange <==> old(keysDidChange) || AllDepsHaveKeys(false)
      ensures noCacheMatchPossible <==> old(noCacheMatchPossible) || AnyCannotMatch(|deps|)
      ensures cacheMapDigests == if inputs == [] then old(cacheMapDigests) + [resp.digest] else old(cacheMapDigests)
    {
      TakeCacheMap(resp, complete);
      if AllDepsHaveKeys(false) { keysDidChange := true; }
      ProbeAll();
    }

    /** A cache map that is not the last one is followed by another request. */
    method CacheMapProcessed()
      requires Shape() == true && cacheMapReq != null && cacheMapReq in mine && cacheMapReq.work == CacheMapFn
      modifies `cacheMapReq, `done
      ensures Shape() == true && done == old(done) + {old(cacheMapReq)}
      ensures cacheMapReq == if cacheMapDone then old(cacheMapReq) else null
    {
      done := done + {cacheMapReq};
      if !cacheMapDone { cacheMapReq := null; }
    }

    method TakeCacheMap(resp: CacheMap, complete: bool)
      requires Shape() == true && |resp.deps| == |inputs| && depsInit
      requires !cacheMapDone && (inputs == [] ==> result.None? && execReq == null)
      modifies `cacheMap, `cacheMapDone, `cacheMapIndex, `cacheMapDigests, `cacheRecords, `keys, `state
      ensures Shape() == true && cacheMap == Some(resp) && cacheMapDone == complete
        && cacheMapIndex == old(cacheMapIndex) + 1
      ensures old(cacheRecords).Keys <= cacheRecords.Keys
      ensures cacheMapDigests == if inputs == [] then old(cacheMapDigests) + [resp.digest] else old(cacheMapDigests)
      ensures inputs == [] ==> state == CACHE_SLOW
      ensures inputs != [] ==> state == old(state) && keys == old(keys) && cacheRecords == old(cacheRecords)
    {
      cacheMap := Some(resp);
      cacheMapDone := complete;
      cacheMapIndex := cacheMapIndex + 1;
      if |deps| == 0 {
        cacheMapDigests := cacheMapDigests + [resp.digest];
        AddRootKeys();
        state := CACHE_SLOW;
      }
    }

    /** The keys of an edge without inputs come from its own cache map. */
    method AddRootKeys()
      requires Shape() == true && cacheMap.Some? && inputs == []
      modifies `cacheRecords, `keys
      ensures Shape() == true && old(cacheRecords).Keys <= cacheRecords.Keys
      ensures old(keys) <= keys && (ignoreCache ==> keys == old(keys))
    {
      if ignoreCache { return; }
      var matches: seq<KeyID> := *;
      for n := 0 to |matches|
        invariant Shape() == true && old(cacheRecords).Keys <= cacheRecords.Keys && old(keys) <= keys
      {
        var _ := AddKey(matches[n], false);
      }
    }

    /** Keys that were loaded before the cache map are probed. */
    method ProbeAll()
      requires Shape() == true && cacheMap.Some?
      modifies `deps, `err, `noCacheMatchPossible
      ensures Shape() == true && SameRequests(old(deps), deps)
      ensures old(err).Some? ==> err.Some?
      ensures deps == [] ==> err == old(err)
      ensures noCacheMatchPossible <==> old(noCacheMatchPossible) || AnyCannotMatch(|deps|)
      ensures AllDepsHaveKeys(false) <==> old(AllDepsHaveKeys(false))
    {
      for i := 0 to |deps|
        invariant Shape() == true && |deps| == old(|deps|) && SameRequests(old(deps), deps)
        invariant (old(err).Some? ==> err.Some?) && (i == 0 ==> err == old(err))
        invariant noCacheMatchPossible <==> old(noCacheMatchPossible) || AnyCannotMatch(i)
        invariant forall j | 0 <= j < |deps| :: deps[j] == old(deps)[j].(keyMap := deps[j].keyMap)
      {
        label Before:
        var _ := ProbeCache(i, deps[i].keys);
        assert forall j | 0 <= j < i :: CannotMatch(j) == old@Before(CannotMatch(j));
        CheckDepMatchPossible(i);
      }
    }

    method ProcessExecReq(ghost edges: set<Edge>)
      requires Shape() == Wired() == true && execReq != null && execReq.recv.completed && execReq !in done
      requires execReq.Fits(execReq.recv, edges)
      modifies `execReq, `cacheRecords, `err, `result, `state, `keys, `done
      ensures Shape() == Wired() == true && done == old(done) + {old(execReq)}
      ensures old(execReq).recv.err.Some? ==>
        && execReq == null && result == old(result) && keys == old(keys)
        && cacheRecords == (if execCacheLoad then old(cacheRecords) - cacheRecordsLoaded else old(cacheRecords))
        && err == if !execCacheLoad && !old(execReq).recv.canceled
          && old(err).None? then old(execReq).recv.err else old(err)
      ensures old(execReq).recv.err.None? ==>
        && result == Some(old(execReq).recv.value.result) && state == COMPLETE && err == old(err)
          && cacheRecords == old(cacheRecords)
        && keys == if execCacheLoad || ignoreCache then old(keys) else old(keys) + old(execReq).recv.value.keys
      ensures old(result).Some? ==> result == old(result)
    {
      var reply := execReq.recv;
      if reply.err.Some? {
        ExecFailed(reply.err.value, reply.canceled);
      } else {
        ExecSucceeded(reply.value.result, reply.value.keys);
      }
    }

    /** After a failed cache load the loaded records are dropped, so they are not tried again. */
    method ExecFailed(e: Error, canceled: bool)
      requires Shape() == Wired() == true && execReq != null
      modifies `execReq, `cacheRecords, `err, `done
      ensures Shape() == Wired() == true && done == old(done) + {old(execReq)} && execReq == null
      ensures cacheRecords == if execCacheLoad then old(cacheRecords) - cacheRecordsLoaded else old(cacheRecords)
      ensures err == if !execCacheLoad && !canceled && old(err).None? then Some(e) else old(err)
    {
      hide Requested, NoKeys, OnlyMatched, DepsWired;
      FewerRecords(keyMap, cacheRecords, inputs, deps, cacheRecordsLoaded);
      ExecDoneStaysWired(deps, depRequests, mine, done, cacheMap.Some?, execReq);
      done, execReq := done + {execReq}, null;
      if execCacheLoad {
        cacheRecords := cacheRecords - cacheRecordsLoaded;
      } else if !canceled && err.None? {
        err := Some(e);
      }
    }

    method ExecSucceeded(res: ResultID, resultKeys: seq<KeyID>)
      requires Shape() == Wired() == true && execReq != null
      modifies `result, `state, `keys, `done
      ensures Shape() == Wired() == true && done == old(done) + {old(execReq)}
      ensures result == Some(res) && state == COMPLETE
      ensures keys == if execCacheLoad || ignoreCache then old(keys) else old(keys) + resultKeys
    {
      hide OnlyMatched, Requested, NoKeys, DepsWired;
      ExecDoneStaysWired(deps, depRequests, mine, done, cacheMap.Some?, execReq);
      done := done + {execReq};
      result := Some(res);
      state := COMPLETE;
      if !execCacheLoad && !ignoreCache {
        keys := keys + resultKeys;
      }
    }

    static ghost function Teller(reply: Reply): set<Edge> {
      if reply.value.StateOf? then {reply.value.edge} else {}
    }

    /** Exactly the state that the input reports has been copied, without losing a match; a reply without a state
        changes nothing about the inputs. */
    ghost predicate DepAnswered(before: seq<Dep<Pipe?>>, reply: Reply, i: nat, changed: bool)
      requires i < |before|
      reads `cacheMap, `deps, Teller(reply)`state, Teller(reply)`result, Teller(reply)`cacheMap, Teller(reply)`keys
    {
      if reply.value.StateOf? then
        var st := reply.value.edge.Snapshot();
        && |deps| == |before| && deps == before[i := before[i].(keyMap := deps[i].keyMap).Copying(st)]
        && before[i].keyMap <= deps[i].keyMap
        && changed == (|before[i].keys| < |st.keys| || (cacheMap.Some? && st.state != before[i].state))
      else
        deps == before && !changed
    }

    method ProcessDepReq(i: nat, ghost edges: set<Edge>) returns (depChanged: bool)
      requires Shape() == true && i < |deps| && deps[i].req != null && deps[i].req.Fits(deps[i].req.recv, edges)
      requires deps[i].req.work.Request? || deps[i].req.work.BrokenGraph?
      modifies `err, `deps, `keysDidChange, `noCacheMatchPossible
      ensures Shape() == true && SameRequests(old(deps), deps)
      ensures !depChanged && old(Synced()) ==> Synced() == true
      ensures DepAnswered(old(deps), old(deps[i].req).recv, i, depChanged)
      ensures var reply := old(deps[i].req).recv;
        if reply.value.StateOf? then !reply.canceled && reply.completed && reply.err.Some? ==> err.Some?
        else err == if !reply.canceled && reply.completed && old(err).None? then reply.err else old(err)
      ensures var reply := old(deps[i].req).recv;
        if reply.value.StateOf? then
          var st := reply.value.edge.Snapshot();
          && (keysDidChange <==>
                || old(keysDidChange) || (old(deps[i].state) != COMPLETE && st.state == COMPLETE)
                || (|old(deps[i].keys)| < |st.keys| && AllDepsHaveKeys(false)))
          && (noCacheMatchPossible <==>
                old(noCacheMatchPossible) || (cacheMap.Some? && st.state != old(deps[i].state) && CannotMatch(i)))
        else
          unchanged(`keysDidChange, `noCacheMatchPossible)
      ensures old(err).Some? ==> err.Some?
    {
      hide Shape, Synced;
      var reply := deps[i].req.recv;
      if !reply.canceled && reply.completed && reply.err.Some? && err.None? {
        err := reply.err;
      }
      depChanged := false;
      if reply.value.StateOf? { depChanged := Absorb(i, reply.value.edge.Snapshot()); }
    }

    method Absorb(i: nat, st: EdgeState) returns (changed: bool)
      requires Shape() == true && i < |deps|
      modifies `err, `deps, `keysDidChange, `noCacheMatchPossible
      ensures Shape() == true && SameRequests(old(deps), deps) && old(deps[i].keyMap) <= deps[i].keyMap
      ensures !changed && old(Synced()) ==> Synced() == true
      ensures deps == old(deps)[i := old(deps[i]).(keyMap := deps[i].keyMap).Copying(st)]
      ensures changed == (|old(deps[i].keys)| < |st.keys| || (cacheMap.Some? && st.state != old(deps[i].state)))
      ensures old(err).Some? ==> err.Some?
      ensures keysDidChange <==>
        || old(keysDidChange) || (old(deps[i].state) != COMPLETE && st.state == COMPLETE)
        || (|old(deps[i].keys)| < |st.keys| && AllDepsHaveKeys(false))
      ensures noCacheMatchPossible <==>
        old(noCacheMatchPossible) || (cacheMap.Some? && st.state != old(deps[i].state) && CannotMatch(i))
    {
      hide Shape, Synced;
      changed := false;
      if |deps[i].keys| < |st.keys| {
        AbsorbKeys(i, st.keys);
        changed := true;
      }
      var moved := AbsorbState(i, st);
      changed := changed || moved;
    }

    /** The same, for the input that the request is one to; the reply is that to the latest request. */
    ghost predicate DepAnsweredTo(before: seq<Dep<Pipe?>>, upt: Pipe, changed: bool)
      reads this, set d | d in before && d.req != null :: d.req,
            set d | d in before && d.req != null && d.req.recv.value.StateOf? :: d.req.recv.value.edge
    {
      upt in depRequests ==>
        var i := depRequests[upt];
        i < |before| && before[i].req != null && DepAnswered(before, before[i].req.recv, i, changed)
    }

    method DepUpdated(upt: Pipe, ghost edges: set<Edge>) returns (depChanged: bool)
      requires Shape() == Wired() == true && upt in depRequests
      requires forall p | p in mine :: p.Fits(p.recv, edges)
      modifies `err, `deps, `keysDidChange, `noCacheMatchPossible, `done
      ensures Shape() == Wired() == true
      ensures done == if upt.recv.completed then old(done) + {upt} else old(done)
      ensures !depChanged && old(Synced()) ==> Synced() == true
      ensures old(err).Some? ==> err.Some?
      ensures DepAnsweredTo(old(deps), upt, depChanged)
    {
      hide DepAnswered, Synced, Shape, DepsWired;
      AskedInput(upt);
      depChanged := ProcessDepReq(depRequests[upt], edges);
      SameRequestsStayWired(old(deps), deps, depRequests, mine, done);
      MarkDone(upt);
    }

    lemma AskedInput(upt: Pipe)
      requires Shape() == Wired() == true && upt in depRequests
      ensures depRequests[upt] < |deps| && deps[depRequests[upt]].req != null && upt in mine
      ensures var req := deps[depRequests[upt]].req; req in mine && (req.work.Request? || req.work.BrokenGraph?)
    {
    }

    /** A completed request that no field but depRequests remembers. */
    ghost method MarkDone(upt: Pipe)
      requires Wired() == true && (upt in depRequests || !Remembers(upt))
      modifies `done
      ensures Wired() == true
      ensures done == if upt in mine && upt.recv.completed then old(done) + {upt} else old(done)
    {
      if upt in mine && upt.recv.completed { done := done + {upt}; }
    }

    /** The request is one whose completion changes the edge. */
    ghost predicate Remembers(p: Pipe)
      reads this
    {
      p == cacheMapReq || p == execReq || exists i | 0 <= i < |deps| :: deps[i].slowCacheReq == p
    }

    /** Keys of the input that the edge has not seen are probed. */
    method AbsorbKeys(i: nat, newKeys: seq<KeyID>)
      requires Shape() == true && i < |deps| && |deps[i].keys| < |newKeys|
      modifies `err, `deps, `keysDidChange
      ensures Shape() == true && SameRequests(old(deps), deps) && old(deps[i].keyMap) <= deps[i].keyMap
      ensures deps == old(deps)[i := old(deps[i]).(keyMap := deps[i].keyMap, keys := deps[i].keys)]
      ensures deps[i].keys == if cacheMap.Some? then newKeys else old(deps[i].keys)
      ensures keysDidChange <==> old(keysDidChange) || (cacheMap.Some? && AllDepsHaveKeys(false))
      ensures old(err).Some? ==> err.Some?
    {
      if cacheMap.Some? {
        var _ := ProbeCache(i, newKeys[|deps[i].keys|..]);
        SetDep(i, deps[i].(keys := newKeys));
        if AllDepsHaveKeys(false) { keysDidChange := true; }
      }
    }

    /** The edge copies the state of the input. */
    method AbsorbState(i: nat, st: EdgeState) returns (moved: bool)
      requires Shape() == true && i < |deps|
      modifies `deps, `keysDidChange, `noCacheMatchPossible
      ensures Shape() == true && SameRequests(old(deps), deps)
      ensures deps == old(deps)[i := old(deps[i]).Copying(st)]
      ensures moved == (cacheMap.Some? && st.state != old(deps[i].state))
      ensures !moved && old(Synced()) ==> Synced() == true
      ensures keysDidChange <==> old(keysDidChange) || (old(deps[i].state) != COMPLETE && st.state == COMPLETE)
      ensures noCacheMatchPossible <==> old(noCacheMatchPossible) || (moved && CannotMatch(i))
    {
      moved := cacheMap.Some? && st.state != deps[i].state;
      if deps[i].state != COMPLETE && st.state == COMPLETE { keysDidChange := true; }
      var d := deps[i].Copying(st);
      if moved {
        SetDep(i, d);
        CheckDepMatchPossible(i);
      } else {
        SetDepInSync(i, d);
      }
    }

    method SetDepInSync(i: nat, d: Dep<Pipe?>)
      requires Shape() == true && i < |deps| && d.keyMap == deps[i].keyMap && (deps[i].req != null ==> d.req != null)
      requires d.slowCacheComplete == deps[i].slowCacheComplete && (cacheMap.Some? ==> d.state == deps[i].state)
      modifies `deps
      ensures Shape() == true && deps == old(deps)[i := d]
      ensures old(Synced()) ==> Synced() == true
    {
      hide Shape, BoundsOf;
      ghost var before := deps;
      ghost var synced := Synced();
      SetDep(i, d);
      if synced {
        MatchesGrow(deps, before);
        MatchesGrow(before, deps);
        if cacheMap.Some? { BoundsCongruence(before, deps, cacheMap.value.deps, |deps|); }
      }
    }

    method SetDep(i: nat, d: Dep<Pipe?>)
      requires Shape() == true && i < |deps| && d.keyMap == deps[i].keyMap && (deps[i].req != null ==> d.req != null)
      modifies `deps
      ensures Shape() == true && deps == old(deps)[i := d]
    {
      ghost var before := deps;
      deps := deps[i := d];
      MatchesGrow(before, deps);
    }

    /** What a digest tells about an input: it becomes the slow key, unless it is empty or not asked for, and whatever
        is found under it is matched. */
    function WithSlowKey(d: Dep<Pipe?>, i: nat, dgst: Digest, found: set<KeyID>): Dep<Pipe?>
      requires i < |deps| && (cacheMap.Some? ==> |cacheMap.value.deps| == |deps|)
      reads `cacheMap, `deps
    {
      if SlowFn(i) && dgst != "" then
        d.(slowCacheKey := Some(dgst), keyMap := found, slowCacheFoundKey := found != d.keyMap,
          slowCacheComplete := true)
      else
        d.(slowCacheComplete := true)
    }

    method ProcessDepSlowCacheReq(i: nat, ghost edges: set<Edge>)
      requires Shape() == Wired() == true && i < |deps| && deps[i].slowCacheReq != null
        && deps[i].slowCacheReq.recv.completed
      requires deps[i].slowCacheReq !in done && deps[i].slowCacheReq.Fits(deps[i].slowCacheReq.recv, edges)
      modifies `deps, `err, `keysDidChange, `noCacheMatchPossible, `done
      ensures Shape() == Wired() == true && done == old(done) + {old(deps[i].slowCacheReq)}
      ensures SlowAnswered(old(deps), old(deps[i].slowCacheReq).recv, i)
      ensures var reply := old(deps[i].slowCacheReq).recv;
        reply.err.Some? ==> err == if !reply.canceled && old(err).None? then reply.err else old(err)
      ensures old(err).Some? ==> err.Some?
      ensures old(deps[i].slowCacheReq).recv.err.None? && !old(deps[i].slowCacheComplete) ==>
        keysDidChange && (noCacheMatchPossible <==> old(noCacheMatchPossible) || CannotMatch(i))
      ensures old(deps[i].slowCacheReq).recv.err.Some? || old(deps[i].slowCacheComplete) ==>
        unchanged(`keysDidChange, `noCacheMatchPossible)
    {
      hide Shape;
      ghost var req := deps[i].slowCacheReq;
      TakeSlowReply(i, deps[i].slowCacheReq.recv);
      SlowReqsStayWired(old(deps), deps, i, depRequests, mine, done);
      done := done + {req};
    }

    /** An error clears the request; a digest completes the slow cache of the input, once; nothing else about the
        inputs has changed and no match is lost. */
    ghost predicate SlowAnswered(before: seq<Dep<Pipe?>>, reply: Reply, i: nat)
      reads `cacheMap, `deps
      requires i < |before| == |deps| && (cacheMap.Some? ==> |cacheMap.value.deps| == |deps|)
      requires reply.err.None? ==> reply.value.DigestVal?
    {
      && before[i].keyMap <= deps[i].keyMap
      && deps == before[i :=
           if reply.err.Some? then before[i].(slowCacheReq := null)
           else if before[i].slowCacheComplete then before[i]
           else WithSlowKey(before[i], i, reply.value.digest, deps[i].keyMap)]
    }

    ghost predicate SlowTold(before: seq<Dep<Pipe?>>, upt: Pipe, i: nat)
      requires i < |before|
      reads `cacheMap, `deps, upt`recv
    {
      && before[i].slowCacheReq == upt && |deps| == |before| && (cacheMap.Some? ==> |cacheMap.value.deps| == |deps|)
      && (upt.recv.err.None? ==> upt.recv.value.DigestVal?) && SlowAnswered(before, upt.recv, i)
    }

    method TakeSlowReply(i: nat, reply: Reply)
      requires Shape() == true && i < |deps| && cacheMap.Some? && (reply.err.None? ==> reply.value.DigestVal?)
      modifies `deps, `err, `keysDidChange, `noCacheMatchPossible
      ensures Shape() == true && |deps| == old(|deps|) && SlowAnswered(old(deps), reply, i)
      ensures reply.err.Some? ==> err == if !reply.canceled && old(err).None? then reply.err else old(err)
      ensures old(err).Some? ==> err.Some?
      ensures reply.err.None? && !old(deps[i].slowCacheComplete) ==>
        keysDidChange && (noCacheMatchPossible <==> old(noCacheMatchPossible) || CannotMatch(i))
      ensures reply.err.Some? || old(deps[i].slowCacheComplete) ==> unchanged(`keysDidChange, `noCacheMatchPossible)
    {
      if reply.err.Some? {
        SetDep(i, deps[i].(slowCacheReq := null));
        if !reply.canceled && err.None? { err := reply.err; }
      } else if !deps[i].slowCacheComplete {
        SlowKeyArrived(i, reply.value.digest);
      }
    }

    method SlowKeyArrived(i: nat, dgst: Digest)
      requires Shape() == true && i < |deps| && cacheMap.Some?
      modifies `deps, `err, `keysDidChange, `noCacheMatchPossible
      ensures Shape() == true && |deps| == old(|deps|) && old(deps[i].keyMap) <= deps[i].keyMap && keysDidChange
      ensures deps == old(deps)[i := WithSlowKey(old(deps[i]), i, dgst, deps[i].keyMap)]
      ensures old(err).Some? ==> err.Some?
      ensures noCacheMatchPossible <==> old(noCacheMatchPossible) || CannotMatch(i)
    {
      hide Shape, OnlyMatched, NoKeys, Requested;
      MapFits();
      if SlowFn(i) && dgst != "" { TakeSlowKey(i, dgst); }
      SetDep(i, deps[i].(slowCacheComplete := true));
      keysDidChange := true;
      CheckDepMatchPossible(i);
    }

    lemma MapFits()
      requires Shape() == true
      ensures cacheMap.Some? ==> |cacheMap.value.deps| == |deps|
    {
    }

    method TakeSlowKey(i: nat, dgst: Digest)
      requires Shape() == true && i < |deps| && cacheMap.Some?
      modifies `deps, `err
      ensures Shape() == true && |deps| == old(|deps|) && old(deps[i].keyMap) <= deps[i].keyMap
      ensures deps == old(deps)[i := old(deps[i]).(slowCacheKey := Some(dgst), keyMap := deps[i].keyMap,
                                     slowCacheFoundKey := deps[i].keyMap != old(deps[i].keyMap))]
      ensures old(err).Some? ==> err.Some?
    {
      hide Shape;
      SetDep(i, deps[i].(slowCacheKey := Some(dgst)));
      var found := ProbeCache(i, [dgst]);
      SetDep(i, deps[i].(slowCacheFoundKey := found));
    }

    method ProcessUpdate(upt: Pipe, ghost edges: set<Edge>) returns (depChanged: bool)
      requires Shape() == Wired() == true && (upt in mine ==> upt !in done) && Started()
      requires forall p | p in mine :: p.creator == this && p.Fits(p.recv, edges)
      modifies `cacheMapReq, `err, `cacheMap, `cacheMapDone, `cacheMapIndex, `cacheMapDigests, `cacheRecords, `keys,
               `state, `result, `execReq, `keysDidChange, `deps, `noCacheMatchPossible, `done
      ensures Shape() == Wired() == true && (old(cacheMap).Some? ==> cacheMap.Some?) && Started()
      ensures old(result).Some? ==> result == old(result)
      ensures done == if upt in mine && upt.recv.completed then old(done) + {upt} else old(done)
      ensures !depChanged && old(Synced()) ==> Synced() == true
      ensures old(err).Some? ==> err.Some?
      ensures old(TakesMap([upt])) ==> TookMap()
      ensures inputs == [] && old(execReq) == null && upt != old(cacheMapReq) ==>
        unchanged(`err, `result, `cacheMapReq, `cacheMap, `cacheMapDone, `keysDidChange, `execReq)
      ensures cacheMapReq == null || cacheMapReq == old(cacheMapReq)
      ensures !(upt.recv.completed && (upt == old(cacheMapReq) || upt == old(execReq))) ==>
        DepAnsweredTo(old(deps), upt, depChanged)
    {
      hide DepAnsweredTo, SlowTold, AnyCannotMatch, Shape, Synced, DepsWired, OneExec;
      if upt == cacheMapReq && upt.recv.completed {
        ProcessCacheMapReq(edges);
        return true;
      }
      if upt == execReq && upt.recv.completed {
        ProcessExecReq(edges);
        return true;
      }
      depChanged := ProcessInputUpdate(upt, edges);
    }

    /** A reply of an input or of the content-based key of an input; any other reply changes nothing. */
    method ProcessInputUpdate(upt: Pipe, ghost edges: set<Edge>) returns (depChanged: bool)
      requires Shape() == Wired() == true && (upt in mine ==> upt !in done) && Started()
      requires upt.recv.completed ==> upt != cacheMapReq && upt != execReq
      requires forall p | p in mine :: p.creator == this && p.Fits(p.recv, edges)
      modifies `err, `keysDidChange, `deps, `noCacheMatchPossible, `done
      ensures Shape() == Wired() == true
      ensures done == if upt in mine && upt.recv.completed then old(done) + {upt} else old(done)
      ensures !depChanged && old(Synced()) ==> Synced() == true
      ensures old(err).Some? ==> err.Some?
      ensures inputs == [] ==> unchanged(`err, `keysDidChange)
      ensures DepAnsweredTo(old(deps), upt, depChanged)
      ensures upt !in depRequests && !depChanged ==> deps == old(deps)
      ensures upt !in depRequests && depChanged ==> exists i | 0 <= i < |old(deps)| :: SlowTold(old(deps), upt, i)
      ensures upt !in depRequests ==>
        (depChanged <==> upt.recv.completed && exists i | 0 <= i < |old(deps)| :: old(deps)[i].slowCacheReq == upt)
    {
      if upt in depRequests {
        depChanged := DepUpdated(upt, edges);
        return;
      }
      for i := 0 to |deps|
        invariant forall j | 0 <= j < i :: upt == deps[j].slowCacheReq ==> !upt.recv.completed
      {
        if upt == deps[i].slowCacheReq && upt.recv.completed {
          ProcessDepSlowCacheReq(i, edges);
          assert SlowTold(old(deps), upt, i);
          return true;
        }
      }
      if upt.recv.completed { MarkDone(upt); }
      depChanged := false;
    }

    // ---- recomputation of the derived state ----

    /** The keys that every input has matched and the edge does not know yet. */
    method NewKeys() returns (newKeys: set<KeyID>)
      ensures forall k :: k in newKeys <==> MatchedByAll(deps, k) && k !in keyMap
    {
      newKeys := {};
      for i := 0 to |deps|
        invariant i == 0 ==> newKeys == {}
        invariant i > 0 ==> forall k :: k in newKeys <==> k !in keyMap && forall j | 0 <= j < i :: k in deps[j].keyMap
      {
        if i == 0 {
          newKeys := deps[0].keyMap - keyMap;
        } else {
          newKeys := newKeys * deps[i].keyMap;
        }
        if newKeys == {} { return; }
      }
    }

    /** Each new key becomes a key of the edge, with the records found under it, unless the cache does not answer. */
    method AddNewKeys(newKeys: set<KeyID>) returns (ghost unanswered: set<KeyID>)
      requires Shape() == Wired() == true && forall k | k in newKeys :: MatchedByAll(deps, k)
      modifies `keyMap, `keys, `cacheRecords
      ensures Shape() == Wired() == true && keyMap == old(keyMap) + newKeys
      ensures unanswered <= newKeys && Added(old(keys), keys, newKeys - unanswered)
      ensures old(cacheRecords).Keys <= cacheRecords.Keys
      ensures cacheRecords.Keys !! cacheRecordsLoaded - old(cacheRecords).Keys
    {
      unanswered := {};
      keyMap := keyMap + newKeys;
      var todo := newKeys;
      while todo != {}
        invariant Shape() == true && todo <= newKeys && keyMap == old(keyMap) + newKeys
        invariant unanswered <= newKeys - todo && Added(old(keys), keys, newKeys - todo - unanswered)
        invariant old(cacheRecords).Keys <= cacheRecords.Keys
        invariant cacheRecords.Keys !! cacheRecordsLoaded - old(cacheRecords).Keys
        invariant inputs == [] ==> cacheRecords == old(cacheRecords)
        decreases todo
      {
        var k :| k in todo;
        assert deps[0].keyMap != {};
        OneAdded(old(keys), keys, newKeys - todo - unanswered, k);
        ghost var answer := AddKey(k, true);
        assert newKeys - (todo - {k}) - unanswered == newKeys - todo - unanswered + {k};
        assert newKeys - (todo - {k}) - (unanswered + {k}) == newKeys - todo - unanswered;
        if answer.None? { unanswered := unanswered + {k}; }
        todo := todo - {k};
      }
    }

    method ComputeBounds(infos: seq<DepInfo>) returns (b: Bounds)
      requires |infos| == |deps|
      ensures b == BoundsOf(deps, infos, |deps|)
    {
      b := NO_BOUNDS;
      for i := 0 to |deps|
        invariant b == BoundsOf(deps, infos, i)
      {
        LowAtMostSlow(deps, infos, i);
        b := AddBounds(b, deps[i], infos[i]);
      }
    }

    /** One input: what is still pending, and how far the edge can be and must have come because of it. */
    static method AddBounds(b: Bounds, d: Dep<Pipe?>, info: DepInfo) returns (now: Bounds)
      requires b.low <= CACHE_SLOW
      ensures now == Tighten(b, d, info)
    {
      var slow := d.state == CACHE_SLOW || (d.state == COMPLETE && !d.slowCacheComplete);
      var keyPending, pending := info.hasSlow && slow, (info.hasSlow || info.hasPre) && slow;
      now := b;
      if d.state > b.low && d.keyMap == {} && !pending {
        now := now.(low := if d.state < CACHE_SLOW then d.state else CACHE_SLOW);
      }
      var effective := if keyPending then CACHE_FAST else d.state;
      if effective < b.high { now := now.(high := effective); }
      if pending || d.state < COMPLETE { now := now.(completed := false); }
      if d.state < CACHE_FAST { now := now.(completedCacheFast := false); }
      if keyPending || d.state < CACHE_SLOW { now := now.(completedCacheSlow := false); }
      if d.state < CACHE_SLOW && d.keyMap == {} { now := now.(stateCacheSlow := false); }
    }

    /** The state after the bounds have been applied, before the upgrade to cache-slow. */
    ghost function BoundedState(before: EdgeStatus, b: Bounds): EdgeStatus
      reads `cacheMapDone, `keys
    {
      if !cacheMapDone && keys == [] then INITIAL else Max(before, Max(b.low, b.high))
    }

    method ApplyBounds(b: Bounds)
      requires Shape() == true && cacheMap.Some? && AllMatched(keyMap, deps)
      requires b == BoundsOf(deps, cacheMap.value.deps, |deps|)
      modifies `state, `allDepsCompletedCacheFast, `allDepsCompletedCacheSlow, `allDepsStateCacheSlow, `allDepsCompleted
      ensures Shape() == Synced() == true && state == BoundedState(old(state), b)
    {
      hide OnlyMatched, Requested, NoKeys, AllMatched;
      LowMeaning(deps, cacheMap.value.deps, |deps|);
      HighMeaning(deps, cacheMap.value.deps, |deps|);
      RaiseState(b.low, b.high);
      SetFlags(b);
    }

    method SetFlags(b: Bounds)
      modifies `allDepsCompletedCacheFast, `allDepsCompletedCacheSlow, `allDepsStateCacheSlow, `allDepsCompleted
      ensures allDepsCompletedCacheFast == (cacheMapDone && b.completedCacheFast)
      ensures allDepsCompletedCacheSlow == (cacheMapDone && b.completedCacheSlow)
      ensures allDepsStateCacheSlow == (cacheMapDone && b.stateCacheSlow)
      ensures allDepsCompleted == (cacheMapDone && b.completed)
    {
      allDepsCompletedCacheFast := cacheMapDone && b.completedCacheFast;
      allDepsCompletedCacheSlow := cacheMapDone && b.completedCacheSlow;
      allDepsStateCacheSlow := cacheMapDone && b.stateCacheSlow;
      allDepsCompleted := cacheMapDone && b.completed;
    }

    /** An edge that has its result keeps its state: it has a key, or its last cache map. */
    method RaiseState(low: EdgeStatus, high: EdgeStatus)
      requires Shape() == true && low <= CACHE_SLOW && high <= CACHE_SLOW
      modifies `state
      ensures Shape() == true
      ensures state == if !cacheMapDone && keys == [] then INITIAL else Max(old(state), Max(low, high))
    {
      if low > state { state := low; }
      if high > state { state := high; }
      if !cacheMapDone && keys == [] { state := INITIAL; }
    }

    /** The input takes part in the search for keys that could still match. */
    predicate Settled(i: nat)
      requires i < |deps| && cacheMap.Some? && |cacheMap.value.deps| == |deps|
      reads `deps, `cacheMap, `keyMap
    {
      !deps[i].SlowKeyPending(cacheMap.value.deps[i])
    }

    /** k is not a key of the edge but all settled inputs among the first n match it. */
    ghost predicate Open(k: KeyID, n: nat)
      requires n <= |deps| && cacheMap.Some? && |cacheMap.value.deps| == |deps|
      reads `deps, `cacheMap, `keyMap
    {
      k !in keyMap && forall j | 0 <= j < n :: Settled(j) ==> k in deps[j].keyMap
    }

    /** Some input is settled, and no key is matched by all settled inputs without being a key of the edge. */
    ghost predicate NoOpenKey()
      requires cacheMap.Some? && |cacheMap.value.deps| == |deps|
      reads `deps, `cacheMap, `keyMap
    {
      && (exists i | 0 <= i < |deps| :: Settled(i))
      && forall k :: !Open(k, |deps|)
    }

    method OpenKeysExhausted() returns (exhausted: bool)
      requires cacheMap.Some? && |cacheMap.value.deps| == |deps|
      ensures exhausted <==> NoOpenKey()
    {
      var openKeys: set<KeyID> := {};
      exhausted := false;
      ghost var seen := false;
      for i := 0 to |deps|
        invariant seen <==> exists j | 0 <= j < i :: Settled(j)
        invariant exhausted ==> NoOpenKey()
        invariant !seen ==> openKeys == {} && !exhausted
        invariant !exhausted && seen ==> openKeys != {} && forall k :: k in openKeys <==> Open(k, i)
      {
        if Settled(i) {
          ghost var open := !exhausted;
          var openDepKeys := deps[i].keyMap - keyMap;
          if openKeys != {} {
            openKeys := openKeys * openDepKeys;
          } else {
            openKeys := openDepKeys;
          }
          assert open ==> forall k :: k in openKeys <==> Open(k, i + 1);
          if openKeys == {} {
            assert forall k :: Open(k, |deps|) ==> k in openKeys || !open;
            exhausted := true;
          }
          seen := true;
        }
      }
    }

    /** The state that follows from the inputs, the keys and the records: it is raised to what the inputs allow, and to
        cache-slow when all of them are there, there are records, and no open key could bring more. */
    ghost function RaisedState(before: EdgeStatus): EdgeStatus
      requires cacheMap.Some? && |cacheMap.value.deps| == |deps|
      reads `cacheMap, `cacheMapDone, `deps, `keyMap, `keys, `cacheRecords, `allDepsStateCacheSlow
    {
      var bounded := BoundedState(before, BoundsOf(deps, cacheMap.value.deps, |deps|));
      if allDepsStateCacheSlow && cacheRecords != map[] && bounded == CACHE_FAST && NoOpenKey() then CACHE_SLOW
      else bounded
    }

    /** The keys that all inputs have matched become keys of the edge, and the state is what follows from the inputs. */
    method RecalcCurrentState() returns (ghost unanswered: set<KeyID>)
      requires Shape() == Wired() == true && (cacheMap.None? ==> FlagsClear())
      modifies `keyMap, `keys, `cacheRecords, `state, `allDepsCompletedCacheFast, `allDepsCompletedCacheSlow,
               `allDepsStateCacheSlow, `allDepsCompleted
      ensures Shape() == Synced() == Wired() == true
      ensures forall k :: k in keyMap <==> k in old(keyMap) || MatchedByAll(deps, k)
      ensures Added(old(keys), keys, keyMap - old(keyMap) - unanswered)
      ensures state == if cacheMap.Some? then RaisedState(old(state)) else old(state)
    {
      var newKeys := NewKeys();
      unanswered := AddNewKeys(newKeys);
      assert newKeys == keyMap - old(keyMap);
      if cacheMap.Some? { RecalcBounds(); }
    }

    method RecalcBounds()
      requires Shape() == true && cacheMap.Some? && AllMatched(keyMap, deps)
      modifies `state, `allDepsCompletedCacheFast, `allDepsCompletedCacheSlow, `allDepsStateCacheSlow, `allDepsCompleted
      ensures Shape() == Synced() == true && state == RaisedState(old(state))
    {
      var b := ComputeBounds(cacheMap.value.deps);
      ApplyBounds(b);
      UpgradeToSlow();
    }

    method UpgradeToSlow()
      requires Shape() == Synced() == true && cacheMap.Some?
      modifies `state
      ensures Shape() == Synced() == true
      ensures state == if allDepsStateCacheSlow && cacheRecords != map[] && old(state) == CACHE_FAST && NoOpenKey()
                       then CACHE_SLOW else old(state)
    {
      if allDepsStateCacheSlow && cacheRecords != map[] && state == CACHE_FAST {
        var exhausted := OpenKeysExhausted();
        if exhausted { state := CACHE_SLOW; }
      }
    }

    /** An update is a cache map, not the last one, for an edge without inputs that does not execute. */
    ghost predicate TakesMap(updates: seq<Pipe>)
      reads `err, `result, `execReq, `cacheMapReq, (if cacheMapReq == null then {} else {cacheMapReq})`recv
    {
      && inputs == [] && err.None? && result.None? && execReq == null && cacheMapReq != null && cacheMapReq in updates
      && cacheMapReq.recv.completed && cacheMapReq.recv.err.None?
      && cacheMapReq.recv.value.MapResp? && !cacheMapReq.recv.value.complete
    }

    predicate TookMap()
      reads `err, `keysDidChange, `cacheMap, `cacheMapDone, `cacheMapReq, `result, `execReq
    {
      && err.None? && keysDidChange && cacheMap.Some? && !cacheMapDone && cacheMapReq == null && result.None?
      && execReq == null
    }

    method ProcessUpdates(updates: seq<Pipe>, ghost edges: set<Edge>)
      requires Shape() == Synced() == Wired() == true && NoDup(updates) && Started()
      requires forall p | p in updates && p in mine :: p !in done
      requires forall p | p in mine :: p.creator == this && p.Fits(p.recv, edges)
      modifies `cacheMapReq, `err, `cacheMap, `cacheMapDone, `cacheMapIndex, `cacheMapDigests, `cacheRecords, `keys,
               `state, `result, `execReq, `keysDidChange, `deps, `noCacheMatchPossible, `done, `keyMap,
               `allDepsCompletedCacheFast, `allDepsCompletedCacheSlow, `allDepsStateCacheSlow, `allDepsCompleted
      ensures Shape() == Synced() == Wired() == true && Started()
      ensures old(result).Some? ==> result == old(result)
      ensures done == old(done) + set p | p in updates && p in mine && p.recv.completed
      ensures old(err).Some? ==> err.Some?
      ensures old(TakesMap(updates)) ==> TookMap()
      ensures cacheMapReq == null || cacheMapReq == old(cacheMapReq)
      ensures updates == [] ==> unchanged(this)
    {
      hide Shape, Wired, Synced, NoDup;
      var depChanged := TakeUpdates(updates, edges);
      if depChanged { var _ := RecalcCurrentState(); }
    }

    method TakeUpdates(updates: seq<Pipe>, ghost edges: set<Edge>) returns (depChanged: bool)
      requires Shape() == Synced() == Wired() == true && NoDup(updates) && Started()
      requires forall p | p in updates && p in mine :: p !in done
      requires forall p | p in mine :: p.creator == this && p.Fits(p.recv, edges)
      modifies `cacheMapReq, `err, `cacheMap, `cacheMapDone, `cacheMapIndex, `cacheMapDigests, `cacheRecords, `keys,
               `state, `result, `execReq, `keysDidChange, `deps, `noCacheMatchPossible, `done
      ensures Shape() == Wired() == true && (depChanged || Synced() == true) && (cacheMap.None? ==> FlagsClear())
      ensures Started() && (old(result).Some? ==> result == old(result))
      ensures done == old(done) + set p | p in updates && p in mine && p.recv.completed
      ensures old(err).Some? ==> err.Some?
      ensures old(TakesMap(updates)) ==> TookMap()
      ensures cacheMapReq == null || cacheMapReq == old(cacheMapReq)
      ensures updates == [] ==> unchanged(this) && !depChanged
    {
      hide Shape, Wired;
      depChanged := false;
      for n := 0 to |updates|
        invariant Shape() == Wired() == true && (depChanged || Synced() == true) && (cacheMap.None? ==> FlagsClear())
        invariant Started() && (old(result).Some? ==> result == old(result)) && (old(err).Some? ==> err.Some?)
        invariant done == old(done) + set p | p in updates[..n] && p in mine && p.recv.completed
        invariant n == 0 ==> unchanged(this) && !depChanged
        invariant cacheMapReq == null || cacheMapReq == old(cacheMapReq)
        invariant old(TakesMap(updates)) ==>
          if old(cacheMapReq) in updates[..n] then TookMap()
          else err.None? && result.None? && execReq == null && cacheMapReq == old(cacheMapReq)
      {
        var changed := ProcessUpdate(updates[n], edges);
        depChanged := depChanged || changed;
      }
      assert updates[..|updates|] == updates;
    }

    // ---- what to ask for next ----

    /** Another input has found no key and could still find one, while input i has found one and could compute another.
        */
    predicate SkipPhase2SlowCache(i: nat)
      requires i < |deps| && (cacheMap.Some? ==> |cacheMap.value.deps| == |deps|)
      reads `cacheMap, `deps
    {
      && (exists j | 0 <= j < |deps| ::
            ((!deps[j].slowCacheComplete && SlowFn(j)) || deps[j].state < CACHE_SLOW) && deps[j].keyMap == {})
      && !deps[i].slowCacheComplete && SlowFn(i) && deps[i].keyMap != {}
    }

    predicate SkipPhase2FastCache(i: nat)
      requires i < |deps| && (cacheMap.Some? ==> |cacheMap.value.deps| == |deps|)
      reads `cacheMap, `deps
    {
      && (exists j | 0 <= j < |deps| ::
            || cacheMap.None?
            || (deps[j].keyMap == {} &&
                ((!deps[j].slowCacheComplete && SlowFn(j)) || (deps[j].state < COMPLETE && !SlowFn(j)))))
      && deps[i].keyMap != {}
    }

    /** Input j has no match and could get one, from its content or by going on. */
    predicate CanStillMatch(j: nat)
      requires j < |deps| && (cacheMap.Some? ==> |cacheMap.value.deps| == |deps|)
      reads `cacheMap, `deps
    {
      deps[j].keyMap == {} && if SlowFn(j) then !deps[j].slowCacheComplete else deps[j].state < COMPLETE
    }

    /** Nothing makes the edge ask for results at once. */
    predicate InSteps(force: bool)
      reads `noCacheMatchPossible
    {
      !force && !noCacheMatchPossible
    }

    /** The state the edge wants from input i: at least the state the input has, and one more at a time. An input
        without a match goes on, but not to its result when there are records to load. An input with a match waits
        until no other one can still get a match. */
    function DesiredStateDep(i: nat, desired: EdgeStatus, force: bool): (r: EdgeStatus)
      requires i < |deps| && (cacheMap.Some? ==> |cacheMap.value.deps| == |deps|)
      reads `cacheMap, `deps, `noCacheMatchPossible, `allDepsCompletedCacheFast, `allDepsCompletedCacheSlow, `keys,
            `cacheRecords
      ensures r >= deps[i].state
      ensures force || noCacheMatchPossible ==> r == COMPLETE
      ensures InSteps(force) ==> r <= deps[i].state + 1
      ensures InSteps(force) && deps[i].state == CACHE_SLOW && desired == COMPLETE && cacheRecords != map[] ==>
        r == CACHE_SLOW
      ensures deps[i].keyMap == {} && deps[i].state < desired && cacheMap.Some? ==>
        r > deps[i].state || (deps[i].state == CACHE_SLOW && cacheRecords != map[])
      ensures InSteps(force) && cacheMap.Some? && deps[i].keyMap == {} && deps[i].state == desired == CACHE_SLOW ==>
        (r == COMPLETE <==> SlowFn(i))
      ensures InSteps(force) && deps[i].keyMap != {} && deps[i].state == CACHE_FAST ==>
        r == CACHE_FAST || forall j | 0 <= j < |deps| :: !CanStillMatch(j)
    {
      var d := deps[i];
      if noCacheMatchPossible || force then COMPLETE
      else if d.state == INITIAL && desired > d.state then CACHE_FAST
      else if d.state == CACHE_FAST && desired > d.state then
        if ((allDepsCompletedCacheFast && keys == []) || d.keyMap == {} || AllDepsHaveKeys(true))
           && !SkipPhase2FastCache(i) && cacheMap.Some?
        then CACHE_SLOW else d.state
      else if cacheMap.Some? && d.state == CACHE_SLOW && desired == COMPLETE then
        if (d.keyMap == {} || allDepsCompletedCacheSlow || (!SkipPhase2FastCache(i) && SlowFn(i)))
           && cacheRecords == map[]
           && (d.keyMap == {} || !SkipPhase2SlowCache(i))
        then COMPLETE else d.state
      else if cacheMap.Some? && d.state == CACHE_SLOW && SlowFn(i) && desired == CACHE_SLOW then
        if d.keyMap == {} || !SkipPhase2SlowCache(i) then COMPLETE else d.state
      else d.state
    }

    /** Input j has no match and could get one at cache-slow or from its content. */
    predicate CanMatchSlowly(j: nat)
      requires j < |deps| && (cacheMap.Some? ==> |cacheMap.value.deps| == |deps|)
      reads `cacheMap, `deps
    {
      deps[j].keyMap == {} && (deps[j].state < CACHE_SLOW || (SlowFn(j) && !deps[j].slowCacheComplete))
    }

    /** When an input with a match is asked for more: from cache-fast on, as soon as no other one can still get a match,
        if all have keys, or none of the edge's keys is known and all are at cache-fast; its result, only if there are
        no records to load and no other input without a match comes first. */
    lemma MatchedInTurn(i: nat, desired: EdgeStatus)
      requires i < |deps| && cacheMap.Some? && |cacheMap.value.deps| == |deps| && deps[i].keyMap != {}
      requires InSteps(false) && deps[i].state < desired
      ensures deps[i].state == CACHE_FAST ==> (DesiredStateDep(i, desired, false) == CACHE_SLOW <==>
        && (forall j | 0 <= j < |deps| :: !CanStillMatch(j))
        && (AllDepsHaveKeys(true) || (allDepsCompletedCacheFast && keys == [])))
      ensures deps[i].state == CACHE_SLOW ==> (DesiredStateDep(i, desired, false) == COMPLETE <==>
        && cacheRecords == map[]
        && (deps[i].slowCacheComplete || !SlowFn(i) || forall j | 0 <= j < |deps| :: !CanMatchSlowly(j))
        && (allDepsCompletedCacheSlow || (SlowFn(i) && forall j | 0 <= j < |deps| :: !CanStillMatch(j))))
    {
      if j :| 0 <= j < |deps| && CanStillMatch(j) {
        assert deps[j].keyMap == {} && SkipPhase2FastCache(i);
      }
      if SkipPhase2FastCache(i) {
        var j :| 0 <= j < |deps| && deps[j].keyMap == {}
          && ((!deps[j].slowCacheComplete && SlowFn(j)) || (deps[j].state < COMPLETE && !SlowFn(j)));
        assert CanStillMatch(j);
      }
      if SkipPhase2SlowCache(i) {
        var j :| 0 <= j < |deps| && deps[j].keyMap == {}
          && ((!deps[j].slowCacheComplete && SlowFn(j)) || deps[j].state < CACHE_SLOW);
        assert CanMatchSlowly(j);
      }
    }

    /** Input i cannot contribute anything more without another request. */
    predicate Exhausted(i: nat)
      requires i < |deps|
      reads `deps, `cacheMap
    {
      && deps[i].state == COMPLETE
      && (cacheMap.Some? && |cacheMap.value.deps| == |deps| ==>
            (cacheMap.value.deps[i].hasSlow || cacheMap.value.deps[i].hasPre ==> deps[i].slowCacheReq != null))
    }

    /** The function that computes a content-based key for input i is to be run. */
    predicate NeedsSlowKey(i: nat)
      requires i < |deps| && FitsMap()
      reads `deps, `cacheMap
    {
      && deps[i].state == COMPLETE && deps[i].slowCacheReq == null && cacheMap.Some?
      && (cacheMap.value.deps[i].hasPre || cacheMap.value.deps[i].hasSlow)
    }

    predicate FitsMap()
      reads `deps, `cacheMap
    {
      cacheMap.Some? ==> |cacheMap.value.deps| == |deps|
    }

    /** The states that are wanted from the first n inputs. */
    ghost function Wants(n: nat, desired: EdgeStatus, force: bool): (ws: seq<EdgeStatus>)
      requires n <= |deps| && FitsMap()
      reads `cacheMap, `deps, `noCacheMatchPossible, `allDepsCompletedCacheFast, `allDepsCompletedCacheSlow, `keys,
            `cacheRecords
      ensures |ws| == n && forall i | 0 <= i < n :: ws[i] == DesiredStateDep(i, desired, force)
    {
      if n == 0 then [] else Wants(n - 1, desired, force) + [DesiredStateDep(n - 1, desired, force)]
    }

    /** What is wanted from the inputs is the same as before. */
    twostate predicate KeepsWants()
      reads `cacheMap, `deps, `noCacheMatchPossible, `allDepsCompletedCacheFast, `allDepsCompletedCacheSlow, `keys,
            `cacheRecords
    {
      old(FitsMap()) ==>
        FitsMap() && forall desired, force :: Wants(|deps|, desired, force) == old(Wants(|deps|, desired, force))
    }

    /** A request to input i is noted, which does not change what is wanted. */
    method NoteRequest(i: nat, d: Dep<Pipe?>)
      requires Shape() == true && i < |deps| && (deps[i].req != null ==> d.req != null)
      requires d == deps[i].(req := d.req, slowCacheReq := d.slowCacheReq)
      modifies `deps
      ensures Shape() == true && deps == old(deps)[i := d]
      ensures old(Synced()) ==> Synced() == true
      ensures KeepsWants()
    {
      hide Shape, Synced;
      SetDepInSync(i, d);
      if old(FitsMap()) {
        assert forall j | 0 <= j < |deps| ::
          deps[j] == old(deps)[j].(req := deps[j].req, slowCacheReq := deps[j].slowCacheReq);
        assert AllDepsHaveKeys(true) == old(AllDepsHaveKeys(true));
        forall j: nat | j < |deps|
          ensures SkipPhase2FastCache(j) == old(SkipPhase2FastCache(j))
          ensures SkipPhase2SlowCache(j) == old(SkipPhase2SlowCache(j))
        {
        }
      }
    }

    /** Nothing new is asked of input i: it has the state that is wanted, or there is an open request for it. */
    ghost predicate Waiting(i: nat, desired: EdgeStatus, force: bool)
      requires i < |deps| && FitsMap()
      reads `cacheMap, `deps, `noCacheMatchPossible, `allDepsCompletedCacheFast, `allDepsCompletedCacheSlow, `keys,
            `cacheRecords, `mine, mine`recv
    {
      var want := DesiredStateDep(i, desired, force);
      && (deps[i].state < want ==>
            deps[i].req != null && deps[i].req in mine && !deps[i].req.recv.completed && deps[i].req.desired == want)
      && !NeedsSlowKey(i)
    }

    ghost predicate AllWaiting(desired: EdgeStatus, force: bool)
      requires FitsMap()
      reads `cacheMap, `deps, `noCacheMatchPossible, `allDepsCompletedCacheFast, `allDepsCompletedCacheSlow, `keys,
            `cacheRecords, `mine, mine`recv
    {
      WaitingTo(|deps|, desired, force)
    }

    ghost predicate WaitingTo(n: nat, desired: EdgeStatus, force: bool)
      requires n <= |deps| && FitsMap()
      reads `cacheMap, `deps, `noCacheMatchPossible, `allDepsCompletedCacheFast, `allDepsCompletedCacheSlow, `keys,
            `cacheRecords, `mine, mine`recv
    {
      forall i | 0 <= i < n :: Waiting(i, desired, force)
    }

    /** The edge makes no request: it waits for a cache map or has records, and it waits for a result, or it cannot
        execute and has nothing to ask of its inputs, not even when it is forced. */
    ghost predicate NothingToAsk(desired: EdgeStatus)
      requires FitsMap()
      reads `cacheMap, `deps, `noCacheMatchPossible, `allDepsCompletedCacheFast, `allDepsCompletedCacheSlow, `keys,
            `cacheRecords, `cacheMapReq, `execReq, `allDepsCompleted,
            `mine, mine`recv
    {
      && (cacheMapReq != null || (cacheMap.Some? && cacheRecords != map[]))
      && (execReq != null ||
          (&& !(desired == COMPLETE && (cacheRecords != map[] || allDepsCompleted))
           && AllWaiting(desired, false) && AllWaiting(desired, true)))
    }

    /** If every request was processed, no cache map is needed, the edge cannot execute and all inputs
        are exhausted, then the edge has reached the desired state: it is never stuck. */
    lemma NeverStuck(desired: EdgeStatus)
      requires Shape() == Wired() == Synced() == true && !IsComplete() && depsInit
      requires forall p | p in mine && Remembered(p) :: p in done
      requires cacheMapReq != null || (cacheMap.Some? && cacheRecords != map[])
      requires desired == COMPLETE && execReq == null ==> cacheRecords == map[] && !allDepsCompleted
      requires execReq == null ==> forall i | 0 <= i < |deps| :: Exhausted(i)
      ensures desired <= state
    {
      var infos := cacheMap.value.deps;
      forall i | 0 <= i < |deps| ensures deps[i].Done(infos[i]) && deps[i].EffectiveState(infos[i]) == COMPLETE {
        assert Exhausted(i);
      }
      BoundsMeaning(deps, infos, |deps|);
      HighMeaning(deps, infos, |deps|);
    }

    /** The edge remembers the request as one it waits for. */
    ghost predicate Remembered(p: Pipe)
      reads this
    {
      || p == cacheMapReq || p == execReq
      || exists i | 0 <= i < |deps| :: deps[i].req == p || deps[i].slowCacheReq == p
    }

    /** An edge that waits for no answer and has not reached the desired state has something to ask. */
    lemma AlwaysAsks(desired: EdgeStatus)
      requires Shape() == Wired() == Synced() == true && Started() && !IsComplete() && FitsMap() && state < desired
      requires forall p | p in mine && Remembered(p) :: p in done
      requires forall p | p in done :: p.recv.completed
      ensures !NothingToAsk(desired)
    {
      if NothingToAsk(desired) {
        forall i | 0 <= i < |deps| && execReq == null ensures Exhausted(i) {
          assert Waiting(i, desired, true);
          if deps[i].req != null { assert deps[i].req in mine && Remembered(deps[i].req); }
        }
        NeverStuck(desired);
      }
    }

    /** The latest request to input i. */
    method AskInput(i: nat, p: Pipe)
      requires Shape() == Wired() == Synced() == true && i < |deps|
      requires p in mine && p !in done && p !in depRequests && (p.work == Request || p.work == BrokenGraph)
      modifies `deps, `depRequests
      ensures Shape() == Wired() == Synced() == true
      ensures deps == old(deps)[i := old(deps[i]).(req := p)] && depRequests == old(depRequests)[p := i]
      ensures KeepsWants()
    {
      hide KeepsWants, Synced, OnlyMatched, NoKeys, Requested, DepsWired;
      AskedStayWired(deps, depRequests, mine, done, cacheMap.Some?, i, p);
      NoteRequest(i, deps[i].(req := p));
      depRequests := depRequests[p := i];
    }

    method AskSlowKey(i: nat, p: Pipe)
      requires Shape() == Wired() == Synced() == true && i < |deps| && cacheMap.Some?
      requires p in mine && p !in done && p.work == SlowCacheFn(i)
      modifies `deps
      ensures Shape() == Wired() == Synced() == true
      ensures deps == old(deps)[i := old(deps[i]).(slowCacheReq := p)]
      ensures KeepsWants()
    {
      hide Synced, OnlyMatched, NoKeys;
      NoteRequest(i, deps[i].(slowCacheReq := p));
    }

    method EnsureDepsInitialized()
      requires Shape() == Wired() == Synced() == true
      modifies `deps, `depsInit, `depRequests
      ensures Shape() == Wired() == Synced() == true && depsInit
      ensures old(depsInit) ==> deps == old(deps) && depRequests == old(depRequests)
      ensures !old(depsInit) ==> depRequests == map[] && |deps| == |inputs| && forall d | d in deps :: d == NO_DEP
    {
      if !depsInit {
        depsInit := true;
        depRequests := map[];
        deps := seq(|inputs|, i => NO_DEP);
        assert deps != [] ==> deps[0].keyMap == {};
      }
    }

    method AskCacheMap(p: Pipe)
      requires Shape() == Wired() == true && cacheMapReq == null && p in mine && p !in done && p.work == CacheMapFn
      requires execReq == null && result.None? && (cacheMap.None? || cacheRecords == map[])
      modifies `cacheMapReq
      ensures Shape() == Wired() == true && cacheMapReq == p
    {
      cacheMapReq := p;
    }

    method AskExec(p: Pipe, load: bool)
      requires Shape() == Wired() == Synced() == true && execReq == null && result.None?
      requires p !in mine && p.work == ExecFn(load)
      requires if load then cacheRecords != map[] else allDepsCompleted
      modifies `execReq, `execCacheLoad, `mine
      ensures Shape() == Wired() == Synced() == true && execReq == p && execCacheLoad == load && mine == old(mine) + {p}
    {
      hide Requested, NoKeys, OnlyMatched, AllMatched, BoundsOf;
      mine := mine + {p};
      execReq := p;
      execCacheLoad := load;
    }

    /** The cache record that is loaded was found under a key that every input has matched,
        and an edge that ignores the cache loads none. */
    method LoadCache() returns (rec: RecordID)
      requires Shape() == Wired() == Synced() == true && execReq != null && execCacheLoad && result.None?
      modifies `cacheRecordsLoaded
      ensures rec in cacheRecords && !ignoreCache
      ensures inputs == [] || (cacheRecords[rec] in keyMap && forall i | 0 <= i < |deps| ::
        cacheRecords[rec] in deps[i].keyMap)
      ensures cacheRecordsLoaded == old(cacheRecordsLoaded) + {rec}
    {
      rec :| rec in cacheRecords;
      assert inputs == [] || MatchedByAll(deps, cacheRecords[rec]);
      cacheRecordsLoaded := cacheRecordsLoaded + {rec};
    }

    /** The key map is the intersection of the key maps of the inputs. */
    lemma KeyMapIsIntersection(k: KeyID)
      requires Shape() == Synced() == true && deps != []
      ensures k in keyMap <==> forall i | 0 <= i < |deps| :: k in deps[i].keyMap
    {
      assert MatchedByAll(deps, k) <==> forall i | 0 <= i < |deps| :: k in deps[i].keyMap;
    }
  }
}
