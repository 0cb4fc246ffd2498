/** Records of the snapshot cache as layers, merges and diffs, and the chains of layers they stand for. */
module Layers {
  import opened SolverTypes

  datatype OptRef = NoRef | ARef(ref: Ref)

  datatype Ref =
    | Base(id: nat)
    | Layer(id: nat, parent: Ref)
    | Merge(id: nat, parents: seq<Ref>)
    | Diff(id: nat, lower: OptRef, upper: OptRef)

  /** A diff over a single layer is exported as that layer. */
  predicate ReusesUpper(d: Ref)
    requires d.Diff?
  {
    && d.upper.ARef?
    && ((d.lower.NoRef? && d.upper.ref.Base?)
        || (d.lower.ARef? && d.upper.ref.Layer? && d.upper.ref.parent.id == d.lower.ref.id))
  }

  /** The layers of a record, from lowest to highest. */
  function LayerChain(r: Ref): seq<Ref> {
    match r
    case Base(_) => [r]
    case Layer(_, parent) => LayerChain(parent) + [r]
    case Merge(_, parents) => Chains(parents)
    case Diff(_, _, upper) => if ReusesUpper(r) then [upper.ref] else [r]
  }

  /** The layers of several records, one after the other. */
  function Chains(rs: seq<Ref>): seq<Ref> {
    if rs == [] then [] else Chains(rs[..|rs| - 1]) + LayerChain(rs[|rs| - 1])
  }

  lemma {:induction false} ChainsAppend(a: seq<Ref>, b: seq<Ref>)
    ensures Chains(a + b) == Chains(a) + Chains(b)
  {
    if b == [] {
      assert a + b == a;
    } else {
      var n := |b| - 1;
      assert (a + b)[..|a + b| - 1] == a + b[..n];
      ChainsAppend(a, b[..n]);
    }
  }

  /** Merges have at least two parents, and none of them is itself a merge; so down to the bottom. */
  ghost predicate Flat(r: Ref) {
    match r
    case Base(_) => true
    case Layer(_, parent) => Flat(parent)
    case Merge(_, parents) => |parents| >= 2 && forall i | 0 <= i < |parents| :: !parents[i].Merge? && Flat(parents[i])
    case Diff(_, lower, upper) => (lower.ARef? ==> Flat(lower.ref)) && (upper.ARef? ==> Flat(upper.ref))
  }

  /** A layer stands for itself: it is never a merge, and never a diff that is exported as its upper. */
  ghost predicate IsLayer(x: Ref) {
    x.Base? || x.Layer? || (x.Diff? && !ReusesUpper(x))
  }

  lemma {:induction false} ChainElement(r: Ref, x: Ref)
    requires x in LayerChain(r)
    ensures IsLayer(x) && (Flat(r) ==> Flat(x))
  {
    match r
    case Base(_) =>
    case Layer(_, parent) => if x != r { ChainElement(parent, x); }
    case Merge(_, parents) =>
      var i := ChainOf(parents, x);
      ChainElement(parents[i], x);
    case Diff(_, _, _) =>
  }

  lemma {:induction false} ChainOf(rs: seq<Ref>, x: Ref) returns (i: nat)
    requires x in Chains(rs)
    ensures i < |rs| && x in LayerChain(rs[i])
  {
    if x in LayerChain(rs[|rs| - 1]) { i := |rs| - 1; } else { i := ChainOf(rs[..|rs| - 1], x); }
  }

  /** The layers of the inputs of a merge, without the missing ones. */
  ghost function InputChains(inputs: seq<OptRef>): seq<Ref> {
    if inputs == [] then []
    else InputChains(inputs[..|inputs| - 1]) + match inputs[|inputs| - 1] case NoRef => [] case ARef(r) => LayerChain(r)
  }

  ghost predicate SameIDs(a: seq<Ref>, b: seq<Ref>) {
    |a| == |b| && forall i | 0 <= i < |a| :: a[i].id == b[i].id
  }

  /** lower is an ancestor of upper, more than one layer down. */
  ghost predicate AncestorPath(lower: Ref, upper: OptRef) {
    && upper.ARef? && |LayerChain(upper.ref)| > |LayerChain(lower)| + 1
    && SameIDs(LayerChain(lower), LayerChain(upper.ref)[..|LayerChain(lower)|])
  }

  lemma NoInputs(inputs: seq<OptRef>)
    ensures Chains([]) == InputChains(inputs[..0])
  {
  }

  lemma NextInput(inputs: seq<OptRef>, i: nat)
    requires i < |inputs|
    ensures InputChains(inputs[..i + 1]) == InputChains(inputs[..i]) + if inputs[i].ARef? then LayerChain(inputs[i].ref)
      else []
  {
    assert inputs[..i + 1][..i] == inputs[..i];
  }

  lemma NextChain(rs: seq<Ref>, i: nat)
    requires i < |rs|
    ensures Chains(rs[..i + 1]) == Chains(rs[..i]) + LayerChain(rs[i])
  {
    assert rs[..i + 1][..i] == rs[..i];
  }

  /** The parents of a merge, or the record itself. */
  function Unmerged(r: Ref): (rs: seq<Ref>)
    ensures Chains(rs) == LayerChain(r)
    ensures Flat(r) ==> rs != [] && forall i | 0 <= i < |rs| :: !rs[i].Merge? && Flat(rs[i])
  {
    assert [r][..0] == [];
    if r.Merge? then r.parents else [r]
  }

  class Manager {
    var records: map<nat, Ref>
    var nextID: nat

    ghost predicate Valid()
      reads this
    {
      forall id | id in records :: id < nextID && records[id].id == id && Flat(records[id])
    }

    constructor ()
      ensures Valid()
    {
      records, nextID := map[], 0;
    }

    method Add(r: Ref)
      requires Valid() && r.id == nextID && Flat(r)
      modifies this
      ensures Valid() && records == old(records)[r.id := r] && nextID == old(nextID) + 1
    {
      records := records[r.id := r];
      nextID := nextID + 1;
    }

    method CreateMergeRef(parents: seq<Ref>) returns (m: OptRef)
      requires Valid() && forall i | 0 <= i < |parents| :: !parents[i].Merge? && Flat(parents[i])
      modifies this
      ensures Valid() && (m.NoRef? <==> parents == [])
      ensures m.ARef? ==> Flat(m.ref) && LayerChain(m.ref) == Chains(parents)
      ensures |parents| == 1 ==> m == ARef(parents[0])
      ensures |parents| >= 2 ==>
        m == ARef(Merge(old(nextID), parents)) && m.ref.id in records && m.ref.id !in old(records)
    {
      if parents == [] { return NoRef; }
      if |parents| == 1 {
        assert parents[..0] == [];
        return ARef(parents[0]);
      }
      m := ARef(Merge(nextID, parents));
      Add(m.ref);
    }

    /** Merges records; a merge among them is replaced by its parents. The layers of the result are those
        of the inputs, one after the other. */
    method MergeRefs(inputs: seq<OptRef>) returns (m: OptRef)
      requires Valid() && forall i | 0 <= i < |inputs| :: inputs[i].ARef? ==> Flat(inputs[i].ref)
      modifies this
      ensures Valid() && (m.NoRef? <==> forall i | 0 <= i < |inputs| :: inputs[i].NoRef?)
      ensures m.NoRef? ==> InputChains(inputs) == []
      ensures m.ARef? ==> Flat(m.ref) && LayerChain(m.ref) == InputChains(inputs)
    {
      var parents := Flattened(inputs);
      m := CreateMergeRef(parents);
    }

    static method Flattened(inputs: seq<OptRef>) returns (parents: seq<Ref>)
      requires forall i | 0 <= i < |inputs| :: inputs[i].ARef? ==> Flat(inputs[i].ref)
      ensures Chains(parents) == InputChains(inputs)
      ensures forall n | 0 <= n < |parents| :: !parents[n].Merge? && Flat(parents[n])
      ensures parents == [] <==> forall n | 0 <= n < |inputs| :: inputs[n].NoRef?
    {
      hide Chains, LayerChain, InputChains, Flat;
      parents := [];
      NoInputs(inputs);
      for i := 0 to |inputs|
        invariant Chains(parents) == InputChains(inputs[..i])
        invariant forall n | 0 <= n < |parents| :: !parents[n].Merge? && Flat(parents[n])
        invariant parents == [] <==> forall n | 0 <= n < i :: inputs[n].NoRef?
      {
        NextInput(inputs, i);
        if inputs[i].ARef? {
          var more := Unmerged(inputs[i].ref);
          ChainsAppend(parents, more);
          parents := parents + more;
        }
      }
      assert inputs[..|inputs|] == inputs;
    }

    method CreateDiffRef(lower: OptRef, upper: OptRef) returns (d: Ref)
      requires Valid() && (lower.ARef? ==> Flat(lower.ref)) && (upper.ARef? ==> Flat(upper.ref))
      modifies this
      ensures Valid() && d == Diff(old(nextID), lower, upper) && Flat(d) && d.id in records && d.id !in old(records)
    {
      d := Diff(nextID, lower, upper);
      Add(d);
    }

    /** The difference of two records. If lower is an ancestor of upper, more than one layer down, it is a
        merge of exactly the layers that separate the two. */
    method DiffRefs(lower: OptRef, upper: OptRef) returns (d: OptRef)
      requires Valid() && (lower.ARef? ==> Flat(lower.ref)) && (upper.ARef? ==> Flat(upper.ref))
      modifies this
      ensures Valid() && (d.NoRef? <==> lower.NoRef?) && (d.ARef? ==> Flat(d.ref))
      ensures d.ARef? && AncestorPath(lower.ref, upper) ==>
        d.ref.Merge? && LayerChain(upper.ref) == LayerChain(upper.ref)[..|LayerChain(lower.ref)|] + LayerChain(d.ref)
      ensures d.ARef? && !AncestorPath(lower.ref, upper) ==> d == ARef(Diff(old(nextID), lower, upper))
    {
      if lower.NoRef? { return NoRef; }
      if upper.ARef? {
        var low, high := LayerChain(lower.ref), LayerChain(upper.ref);
        var ancestor := |high| > |low| + 1;
        if ancestor { ancestor := StartsWith(high, low); }
        if ancestor {
          d := MergeLayers(upper.ref, |low|);
          return;
        }
      }
      var r := CreateDiffRef(lower, upper);
      d := ARef(r);
    }

    method StartsWith(high: seq<Ref>, low: seq<Ref>) returns (yes: bool)
      requires |low| <= |high|
      ensures yes == SameIDs(low, high[..|low|])
    {
      for i := 0 to |low|
        invariant forall n | 0 <= n < i :: low[n].id == high[n].id
      {
        if low[i].id != high[i].id { return false; }
      }
      return true;
    }

    /** A merge of the layers of upper from position n on, each as a diff to the layer it was made on. */
    method MergeLayers(upper: Ref, n: nat) returns (d: OptRef)
      requires Valid() && Flat(upper) && n + 1 < |LayerChain(upper)|
      modifies this
      ensures Valid() && d.ARef? && Flat(d.ref) && d.ref.Merge? && LayerChain(d.ref) == LayerChain(upper)[n..]
    {
      var layers := LayerChain(upper);
      var parents := [];
      for i := n to |layers|
        invariant Valid() && |parents| == i - n && Chains(parents) == layers[n..i]
        invariant forall k | 0 <= k < |parents| :: !parents[k].Merge? && Flat(parents[k])
      {
        var layer := layers[i];
        ChainElement(upper, layer);
        var p := layer;
        if layer.Layer? { p := CreateDiffRef(ARef(layer.parent), ARef(layer)); }
        assert LayerChain(p) == [layer];
        assert (parents + [p])[..|parents|] == parents;
        parents := parents + [p];
      }
      d := CreateMergeRef(parents);
    }
  }

  /** On top of a single layer the difference is that layer. */
  lemma DiffOfOneLayer(id: nat, lower: Ref, upper: Ref)
    requires upper.Layer? && upper.parent == lower
    ensures !AncestorPath(lower, ARef(upper))
    ensures LayerChain(upper) == LayerChain(lower) + LayerChain(Diff(id, ARef(lower), ARef(upper)))
  {
  }

  // ---- digests of layers ----

  type Blobs = map<Ref, Digest>

  /** The blobs of the given layers in order, or none if one has no blob. */
  ghost function BlobsOf(blobs: Blobs, layers: seq<Ref>): Option<seq<Digest>> {
    if layers == [] then Some([])
    else
      var below := BlobsOf(blobs, layers[..|layers| - 1]);
      if below.Some? && layers[|layers| - 1] in blobs then Some(below.value + [blobs[layers[|layers| - 1]]]) else None
  }

  lemma {:induction false} BlobsMeaning(blobs: Blobs, layers: seq<Ref>)
    ensures BlobsOf(blobs, layers).Some? <==> forall i | 0 <= i < |layers| :: layers[i] in blobs
    ensures BlobsOf(blobs, layers).Some? ==> |BlobsOf(blobs, layers).value| == |layers|
    ensures BlobsOf(blobs, layers).Some? ==>
      forall i | 0 <= i < |layers| :: BlobsOf(blobs, layers).value[i] == blobs[layers[i]]
  {
    if layers != [] { BlobsMeaning(blobs, layers[..|layers| - 1]); }
  }

  lemma {:induction false} BlobsAppend(blobs: Blobs, a: seq<Ref>, b: seq<Ref>)
    ensures BlobsOf(blobs, a + b) ==
      if BlobsOf(blobs, a).Some?
        && BlobsOf(blobs, b).Some? then Some(BlobsOf(blobs, a).value + BlobsOf(blobs, b).value) else None
  {
    if b == [] {
      assert a + b == a;
      if BlobsOf(blobs, a).Some? { assert BlobsOf(blobs, a).value + [] == BlobsOf(blobs, a).value; }
    } else {
      var n := |b| - 1;
      assert (a + b)[..|a + b| - 1] == a + b[..n];
      BlobsAppend(blobs, a, b[..n]);
      if BlobsOf(blobs, a + b).Some? {
        var x, y := BlobsOf(blobs, a).value, BlobsOf(blobs, b[..n]).value;
        assert x + y + [blobs[b[n]]] == x + (y + [blobs[b[n]]]);
      }
    }
  }

  lemma NoBlobs(blobs: Blobs, parents: seq<Ref>)
    ensures BlobsOf(blobs, Chains(parents[..0])) == Some([])
  {
  }

  lemma MissingBlob(blobs: Blobs, parents: seq<Ref>, i: nat)
    requires i < |parents| && BlobsOf(blobs, LayerChain(parents[i])).None?
    ensures BlobsOf(blobs, Chains(parents)).None?
  {
    hide Chains, LayerChain, BlobsOf;
    NextChain(parents, i);
    BlobsAppend(blobs, Chains(parents[..i]), LayerChain(parents[i]));
    assert parents[..i + 1] + parents[i + 1..] == parents;
    ChainsAppend(parents[..i + 1], parents[i + 1..]);
    BlobsAppend(blobs, Chains(parents[..i + 1]), Chains(parents[i + 1..]));
  }

  lemma OneBlob(blobs: Blobs, x: Ref)
    ensures BlobsOf(blobs, [x]) == if x in blobs then Some([blobs[x]]) else None
  {
    assert [x][..0] == [];
    if x in blobs { assert [] + [blobs[x]] == [blobs[x]]; }
  }

  /** Only records that are layers have blobs, and a memoised chain is that of the layers. */
  ghost predicate Memoised(blobs: Blobs, memo: map<Ref, seq<Digest>>) {
    && (forall r | r in blobs :: IsLayer(r))
    && (forall r | r in memo :: BlobsOf(blobs, LayerChain(r)) == Some(memo[r]))
  }

  class Digests {
    var blobs: Blobs
    var memo: map<Ref, seq<Digest>>

    ghost predicate Valid()
      reads this
    {
      Memoised(blobs, memo)
    }

    constructor ()
      ensures Valid()
    {
      blobs, memo := map[], map[];
    }

    /** The digests of the layers of a record, memoised once all of them have blobs. */
    method LayerDigestChain(r: Ref) returns (chain: Option<seq<Digest>>)
      requires Valid()
      modifies `memo
      ensures Valid() && chain == BlobsOf(blobs, LayerChain(r))
      ensures chain.Some? ==> r in memo && memo[r] == chain.value
      decreases r
    {
      if r in memo { return Some(memo[r]); }
      OneBlob(blobs, r);
      chain := None;
      match r {
        case Diff(_, _, upper) =>
          if ReusesUpper(r) { OneBlob(blobs, upper.ref); }
          if r in blobs { chain := Some([blobs[r]]); }
          else if ReusesUpper(r) && upper.ref in blobs { chain := Some([blobs[upper.ref]]); }
        case Merge(_, parents) =>
          chain := MergedChain(parents);
          if chain.None? { return; }
        case Layer(_, parent) =>
          if r in blobs {
            var below := LayerDigestChain(parent);
            BlobsAppend(blobs, LayerChain(parent), [r]);
            if below.Some? { chain := Some(below.value + [blobs[r]]); }
          }
        case Base(_) =>
          if r in blobs { chain := Some([blobs[r]]); }
      }
      if chain.Some? { memo := memo[r := chain.value]; }
    }

    method MergedChain(parents: seq<Ref>) returns (chain: Option<seq<Digest>>)
      requires Valid()
      modifies `memo
      ensures Valid() && chain == BlobsOf(blobs, Chains(parents))
      decreases parents
    {
      hide Chains, LayerChain, BlobsOf, Memoised;
      var all := [];
      NoBlobs(blobs, parents);
      for i := 0 to |parents|
        invariant Valid() && BlobsOf(blobs, Chains(parents[..i])) == Some(all)
      {
        var one := LayerDigestChain(parents[i]);
        NextChain(parents, i);
        BlobsAppend(blobs, Chains(parents[..i]), LayerChain(parents[i]));
        if one.None? {
          MissingBlob(blobs, parents, i);
          return None;
        }
        all := all + one.value;
      }
      assert parents[..|parents|] == parents;
      return Some(all);
    }

    /** Gives a layer its blob, unless it has one. */
    method SetBlob(r: Ref, blob: Digest)
      requires Valid() && IsLayer(r)
      modifies `blobs
      ensures Valid() && blobs == if r in old(blobs) then old(blobs) else old(blobs)[r := blob]
    {
      if r in blobs { return; }
      MemoStays(blobs, memo, r, blob);
      blobs := blobs[r := blob];
    }

    /** Gives every layer of a record a blob; afterwards the record has a chain of digests. */
    method ComputeBlobChain(r: Ref, make: Ref -> Digest)
      requires Valid()
      modifies `blobs
      ensures Valid() && Kept(old(blobs), blobs)
      ensures BlobsOf(blobs, LayerChain(r)).Some?
    {
      var layers := LayerChain(r);
      forall x | x in layers ensures IsLayer(x) { ChainElement(r, x); }
      var filter := set x | x in layers;
      ComputeBlobs(r, filter, make);
      BlobsMeaning(blobs, layers);
    }

    method ComputeBlobs(r: Ref, filter: set<Ref>, make: Ref -> Digest)
      requires Valid() && forall x | x in filter :: IsLayer(x)
      modifies `blobs
      ensures Valid() && Kept(old(blobs), blobs)
      ensures forall x | x in LayerChain(r) && x in filter :: x in blobs
      decreases r, 0
    {
      match r {
        case Merge(_, parents) => ComputeEach(parents, filter, make);
        case Diff(_, _, upper) => if r !in filter && upper.ARef? { ComputeBlobs(upper.ref, filter, make); }
        case Layer(_, parent) => ComputeBlobs(parent, filter, make);
        case Base(_) =>
      }
      if r in filter { SetBlob(r, make(r)); }
    }

    method ComputeEach(rs: seq<Ref>, filter: set<Ref>, make: Ref -> Digest)
      requires Valid() && forall x | x in filter :: IsLayer(x)
      modifies `blobs
      ensures Valid() && Kept(old(blobs), blobs)
      ensures forall x | x in Chains(rs) && x in filter :: x in blobs
      decreases rs, 0
    {
      for i := 0 to |rs|
        invariant Valid() && Kept(old(blobs), blobs)
        invariant forall x | x in Chains(rs[..i]) && x in filter :: x in blobs
      {
        assert rs[..i + 1][..i] == rs[..i];
        ComputeBlobs(rs[i], filter, make);
      }
      assert rs[..|rs|] == rs;
    }
  }

  /** A blob is never replaced. */
  ghost predicate Kept(before: Blobs, now: Blobs) {
    forall r | r in before :: r in now && now[r] == before[r]
  }

  lemma MemoStays(blobs: Blobs, memo: map<Ref, seq<Digest>>, x: Ref, blob: Digest)
    requires Memoised(blobs, memo) && x !in blobs && IsLayer(x)
    ensures Memoised(blobs[x := blob], memo)
  {
    forall r | r in memo ensures BlobsOf(blobs[x := blob], LayerChain(r)) == Some(memo[r]) {
      BlobsStay(blobs, x, blob, LayerChain(r));
    }
  }

  lemma {:induction false} BlobsStay(blobs: Blobs, x: Ref, blob: Digest, layers: seq<Ref>)
    requires x !in blobs && BlobsOf(blobs, layers).Some?
    ensures BlobsOf(blobs[x := blob], layers) == BlobsOf(blobs, layers)
  {
    if layers != [] { BlobsStay(blobs, x, blob, layers[..|layers| - 1]); }
  }
}
