/** Values shared by the solver models: edge states, cache maps, dependency
    records and the bounds an edge derives from the states of its inputs. */
module SolverTypes {

  datatype Option<+T> = None | Some(value: T)

  type Digest = string
  type KeyID = string
  type RecordID = string
  type ResultID = string

  /** edgeStatusType: the four states an edge moves through, in order. */
  type EdgeStatus = s: nat | s <= 3
  const INITIAL: EdgeStatus := 0
  const CACHE_FAST: EdgeStatus := 1
  const CACHE_SLOW: EdgeStatus := 2
  const COMPLETE: EdgeStatus := 3

  datatype Error = Canceled | Failed(msg: string)

  /** One entry of CacheMap.Deps: the selector and whether the input has a
      content-based key function or a preprocess function. */
  datatype DepInfo = DepInfo(selector: Digest, hasSlow: bool, hasPre: bool)

  datatype CacheMap = CacheMap(digest: Digest, deps: seq<DepInfo>)

  /** edgeState: what an edge tells the edges that request it. */
  datatype EdgeState = EdgeState(
    state: EdgeStatus,
    result: Option<ResultID>,
    cacheMap: Option<CacheMap>,
    keys: seq<KeyID>)
  {
    /** isEqualState */
    predicate SameAs(other: EdgeState) {
      state == other.state && result == other.result && cacheMap == other.cacheMap && |keys| == |other.keys|
    }
  }

  const NO_STATE := EdgeState(INITIAL, None, None, [])

  /** What an edge remembers about one of its inputs. `P` is the type of request handles. */
  datatype Dep<P> = Dep(
    req: P,
    slowCacheReq: P,
    state: EdgeStatus,
    result: Option<ResultID>,
    cacheMap: Option<CacheMap>,
    keys: seq<KeyID>,
    keyMap: set<KeyID>,
    slowCacheComplete: bool,
    slowCacheFoundKey: bool,
    slowCacheKey: Option<Digest>)
  {
    function Snapshot(): EdgeState {
      EdgeState(state, result, cacheMap, keys)
    }

    /** The record with the input's latest state copied over it. */
    function Copying(st: EdgeState): Dep<P> {
      this.(state := st.state, result := st.result, cacheMap := st.cacheMap, keys := st.keys)
    }

    predicate AfterSlowState() {
      state == CACHE_SLOW || (state == COMPLETE && !slowCacheComplete)
    }

    /** A content-based key can still be computed for this input. */
    predicate SlowKeyPending(info: DepInfo) {
      info.hasSlow && AfterSlowState()
    }

    /** A content-based key or a preprocess step is still outstanding. */
    predicate SlowPending(info: DepInfo) {
      (info.hasSlow || info.hasPre) && AfterSlowState()
    }

    /** The input is complete and nothing about it is outstanding. */
    predicate Done(info: DepInfo) {
      state == COMPLETE && !SlowPending(info)
    }

    /** The state the input counts for while its content-based key is missing. */
    function EffectiveState(info: DepInfo): EdgeStatus {
      if SlowKeyPending(info) then CACHE_FAST else state
    }
  }

  function Min(a: EdgeStatus, b: EdgeStatus): EdgeStatus { if a < b then a else b }
  function Max(a: EdgeStatus, b: EdgeStatus): EdgeStatus { if a < b then b else a }

  /** An input that found no key and has nothing outstanding forces the edge up to its state. */
  predicate Forces<P>(d: Dep<P>, info: DepInfo) {
    d.keyMap == {} && !d.SlowPending(info)
  }

  /** What the inputs of an edge say about the edge: which stages all of them have
      passed, and the lowest and highest state the edge can be in. */
  datatype Bounds = Bounds(
    completedCacheFast: bool,
    completedCacheSlow: bool,
    stateCacheSlow: bool,
    completed: bool,
    low: EdgeStatus,
    high: EdgeStatus)

  const NO_BOUNDS := Bounds(true, true, true, true, INITIAL, CACHE_SLOW)

  /** The bounds b tightened by one more input. */
  function Tighten<P>(b: Bounds, d: Dep<P>, info: DepInfo): Bounds {
    Bounds(b.completedCacheFast && d.state >= CACHE_FAST,
           b.completedCacheSlow && d.state >= CACHE_SLOW && !d.SlowKeyPending(info),
           b.stateCacheSlow && (d.state >= CACHE_SLOW || d.keyMap != {}),
           b.completed && d.Done(info),
           if Forces(d, info) then Max(b.low, Min(d.state, CACHE_SLOW)) else b.low,
           Min(b.high, d.EffectiveState(info)))
  }

  /** Bounds from the first n inputs. */
  function BoundsOf<P>(deps: seq<Dep<P>>, infos: seq<DepInfo>, n: nat): Bounds
    requires n <= |deps| == |infos|
  {
    if n == 0 then NO_BOUNDS
    else Tighten(BoundsOf(deps, infos, n - 1), deps[n - 1], infos[n - 1])
  }

  /** The bounds say of all inputs at once what their names promise. */
  lemma {:induction false} BoundsMeaning<P>(deps: seq<Dep<P>>, infos: seq<DepInfo>, n: nat)
    requires n <= |deps| == |infos|
    ensures var b := BoundsOf(deps, infos, n);
      && (b.completedCacheFast <==> forall i | 0 <= i < n :: deps[i].state >= CACHE_FAST)
      && (b.completedCacheSlow <==>
        forall i | 0 <= i < n :: deps[i].state >= CACHE_SLOW && !deps[i].SlowKeyPending(infos[i]))
      && (b.stateCacheSlow <==> forall i | 0 <= i < n :: deps[i].state >= CACHE_SLOW || deps[i].keyMap != {})
      && (b.completed <==> forall i | 0 <= i < n :: deps[i].Done(infos[i]))
  {
    if n > 0 { BoundsMeaning(deps, infos, n - 1); }
  }

  /** The upper bound is the weakest input, capped at cache-slow. */
  lemma {:induction false} HighMeaning<P>(deps: seq<Dep<P>>, infos: seq<DepInfo>, n: nat)
    requires n <= |deps| == |infos|
    ensures var high := BoundsOf(deps, infos, n).high;
      && high <= CACHE_SLOW
      && (forall i | 0 <= i < n :: high <= deps[i].EffectiveState(infos[i]))
      && (high == CACHE_SLOW || exists i | 0 <= i < n :: high == deps[i].EffectiveState(infos[i]))
  {
    if n > 0 { HighMeaning(deps, infos, n - 1); }
  }

  /** The lower bound is the strongest input that can no longer contribute a key. */
  lemma {:induction false} LowMeaning<P>(deps: seq<Dep<P>>, infos: seq<DepInfo>, n: nat)
    requires n <= |deps| == |infos|
    ensures var low := BoundsOf(deps, infos, n).low;
      && low <= CACHE_SLOW
      && (forall i | 0 <= i < n && Forces(deps[i], infos[i]) :: low >= Min(deps[i].state, CACHE_SLOW))
      && (low == INITIAL ||
          exists i | 0 <= i < n :: Forces(deps[i], infos[i]) && low == Min(deps[i].state, CACHE_SLOW))
  {
    if n > 0 { LowMeaning(deps, infos, n - 1); }
  }

  lemma LowAtMostSlow<P>(deps: seq<Dep<P>>, infos: seq<DepInfo>, n: nat)
    requires n <= |deps| == |infos|
    ensures BoundsOf(deps, infos, n).low <= CACHE_SLOW
  {
    LowMeaning(deps, infos, n);
  }

  /** Bounds depend on nothing but the states, key maps and content-based progress of the inputs. */
  ghost predicate SameForBounds<P>(a: seq<Dep<P>>, b: seq<Dep<P>>) {
    && |a| == |b|
    && forall i | 0 <= i < |a| ::
         && a[i].state == b[i].state
         && a[i].keyMap == b[i].keyMap
         && a[i].slowCacheComplete == b[i].slowCacheComplete
  }

  lemma BoundsCongruence<P>(a: seq<Dep<P>>, b: seq<Dep<P>>, infos: seq<DepInfo>, n: nat)
    requires SameForBounds(a, b) && n <= |a| == |infos|
    ensures BoundsOf(a, infos, n) == BoundsOf(b, infos, n)
  {
    if n > 0 { BoundsCongruence(a, b, infos, n - 1); }
  }

  /** The keys matched by every input; no inputs, no keys. */
  ghost predicate MatchedByAll<P>(deps: seq<Dep<P>>, k: KeyID) {
    deps != [] && forall i | 0 <= i < |deps| :: k in deps[i].keyMap
  }
}
