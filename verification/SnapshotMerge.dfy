/** Merging snapshots: diffs are applied one after the other from scratch, or on top of a base that is
    already the result of the first of them. */
module SnapshotMerge {
  type Key = string        // "" is the empty snapshot
  type Path = seq<string>

  datatype File = Dir(mode: nat) | Blob(mode: nat, data: string)

  type Tree = map<Path, File>

  datatype Diff = Diff(lower: Key, upper: Key)

  datatype Snapshot = Snapshot(parent: Key, tree: Tree)

  type Snapshots = map<Key, Snapshot>

  /** Everything lies in a directory. The root is no part of a tree: it is always there and is not compared. */
  ghost predicate WellFormed(t: Tree) {
    forall p | p in t :: p != [] && Housed(t, p)
  }

  ghost predicate Housed(t: Tree, p: Path) {
    forall n | 0 < n < |p| :: p[..n] in t && t[p[..n]].Dir?
  }

  // ---- the changes between two trees, one by one ----

  datatype Change = Put(path: Path, file: File) | Delete(path: Path)

  predicate Changed(lower: Tree, upper: Tree, p: Path) {
    p in upper && (p !in lower || lower[p] != upper[p])
  }

  /** p is gone from a directory that is still there. */
  predicate Deleted(lower: Tree, upper: Tree, p: Path) {
    && p in lower && p !in upper && p != []
    && (|p| == 1 || (p[..|p| - 1] in upper && upper[p[..|p| - 1]].Dir?))
  }

  /** p is a directory above something that has changed or is gone. */
  predicate Above(lower: Tree, upper: Tree, p: Path) {
    && p in upper
    && exists c | c in lower.Keys + upper.Keys :: p < c && (Changed(lower, upper, c) || Deleted(lower, upper, c))
  }

  /** The changes that a walk over both trees comes across, with the directories that they lie in. */
  function Changes(lower: Tree, upper: Tree): set<Change> {
    (set p | p in upper && (Changed(lower, upper, p) || Above(lower, upper, p)) :: Put(p, upper[p]))
    + (set p | p in lower && Deleted(lower, upper, p) :: Delete(p))
  }

  /** The tree without p and all that lies below it. */
  function Without(t: Tree, p: Path): Tree {
    map q | q in t && !(p <= q) :: t[q]
  }

  /** One change is applied. What stands in the way is removed, except that a directory is merged into a directory. */
  function Step(t: Tree, c: Change): Tree {
    match c
    case Delete(p) => Without(t, p)
    case Put(p, f) => (if p in t && !(t[p].Dir? && f.Dir?) then Without(t, p) else t)[p := f]
  }

  // ---- what a diff makes of a tree, path by path ----

  /** The diff removes p: p or a directory above it is deleted, or a directory above it became a file. */
  predicate Removed(lower: Tree, upper: Tree, p: Path) {
    || (exists n | 0 < n <= |p| :: p[..n] in lower && p[..n] !in upper)
    || (exists n | 0 < n < |p| :: Changed(lower, upper, p[..n]) && upper[p[..n]].Blob?)
  }

  predicate Touched(lower: Tree, upper: Tree, p: Path) {
    Changed(lower, upper, p) || Above(lower, upper, p)
  }

  predicate Stays(t: Tree, lower: Tree, upper: Tree, p: Path) {
    p in t && !Removed(lower, upper, p)
  }

  /** The diff between two trees applied to a third: what it changes, with the directories above, is as in the upper
      tree; of the rest there is what it does not remove. */
  ghost function Apply(t: Tree, lower: Tree, upper: Tree): Tree {
    map p | p in t.Keys + upper.Keys && (Touched(lower, upper, p) || Stays(t, lower, upper, p)) ::
      if Touched(lower, upper, p) then upper[p] else t[p]
  }

  // ---- the changes applied one by one make what the diff makes ----

  /** p is removed by one of the changes. */
  ghost predicate Gone(done: set<Change>, p: Path) {
    exists c | c in done :: (c.Delete? && c.path <= p) || (c.Put? && c.file.Blob? && c.path < p)
  }

  /** What the changes so far have made of path p. */
  ghost predicate MadeOf(t: Tree, upper: Tree, done: set<Change>, now: Tree, p: Path) {
    if p in upper && Put(p, upper[p]) in done then p in now && now[p] == upper[p]
    else if p in t && !Gone(done, p) then p in now && now[p] == t[p]
    else p !in now
  }

  /** The directories that c lies in have been applied. */
  predicate Prepared(done: set<Change>, upper: Tree, c: Change) {
    forall n | 0 < n < |c.path| :: c.path[..n] in upper && Put(c.path[..n], upper[c.path[..n]]) in done
  }

  ghost predicate Ordered(done: set<Change>, upper: Tree) {
    forall c | c in done :: Prepared(done, upper, c)
  }

  ghost predicate Correct(t: Tree, upper: Tree, done: set<Change>, now: Tree) {
    forall p: Path :: MadeOf(t, upper, done, now, p)
  }

  lemma StepMakes(t: Tree, lower: Tree, upper: Tree, done: set<Change>, now: Tree, c: Change)
    requires WellFormed(t) && WellFormed(lower) && WellFormed(upper)
    requires done <= Changes(lower, upper) && c in Changes(lower, upper)
    requires Ordered(done, upper) && Correct(t, upper, done, now)
    ensures Correct(t, upper, done + {c}, Step(now, c))
  {
    forall q: Path ensures MadeOf(t, upper, done + {c}, Step(now, c), q) {
      assert MadeOf(t, upper, done, now, q);
      GoneMore(done, c, q);
      if c.path <= q {
        StepBelow(t, lower, upper, done, now, c, q);
      }
    }
  }

  lemma GoneMore(done: set<Change>, c: Change, q: Path)
    ensures Gone(done + {c}, q) <==>
      Gone(done, q) || (c.Delete? && c.path <= q) || (c.Put? && c.file.Blob? && c.path < q)
  {
    if Gone(done, q) {
      var d :| d in done && ((d.Delete? && d.path <= q) || (d.Put? && d.file.Blob? && d.path < q));
      assert d in done + {c};
    }
    if (c.Delete? && c.path <= q) || (c.Put? && c.file.Blob? && c.path < q) { assert c in done + {c}; }
  }

  lemma StepBelow(t: Tree, lower: Tree, upper: Tree, done: set<Change>, now: Tree, c: Change, q: Path)
    requires WellFormed(t) && WellFormed(lower) && WellFormed(upper) && c.path <= q
    requires done <= Changes(lower, upper) && c in Changes(lower, upper)
    requires Ordered(done, upper) && Correct(t, upper, done, now)
    ensures MadeOf(t, upper, done + {c}, Step(now, c), q)
  {
    GoneMore(done, c, q);
    assert MadeOf(t, upper, done, now, q) && MadeOf(t, upper, done, now, c.path);
    if c.path < q {
      assert q[..|c.path|] == c.path;
      assert q in upper ==> Housed(upper, q);
      assert q in t ==> Housed(t, q);
      if c.Put? && q in upper && Put(q, upper[q]) in done { assert Prepared(done, upper, Put(q, upper[q])); }
      if Gone(done, c.path) { GoneBelow(done, c.path, q); }
    } else {
      assert c.path == q;
    }
  }

  lemma GoneBelow(done: set<Change>, p: Path, q: Path)
    requires Gone(done, p) && p <= q
    ensures Gone(done, q)
  {
    var c :| c in done && ((c.Delete? && c.path <= p) || (c.Put? && c.file.Blob? && c.path < p));
    assert c.path <= q && (c.path < p ==> c.path < q);
  }

  /** Where a directory on the way to p is missing from the upper tree, the walk comes across the reason. */
  lemma {:induction false} DeletedAbove(lower: Tree, upper: Tree, p: Path, n: nat)
    requires WellFormed(lower) && WellFormed(upper) && 0 < n <= |p| && p[..n] in lower && p[..n] !in upper
    ensures Gone(Changes(lower, upper), p)
  {
    var r := p[..n];
    assert Housed(lower, r);
    if n > 1 && r[..n - 1] !in upper {
      assert r[..n - 1] == p[..n - 1];
      DeletedAbove(lower, upper, p, n - 1);
    } else if n > 1 && upper[r[..n - 1]].Blob? {
      assert Put(r[..n - 1], upper[r[..n - 1]]) in Changes(lower, upper) && r[..n - 1] < p;
    } else {
      assert Delete(r) in Changes(lower, upper);
    }
  }

  lemma GoneIsRemoved(lower: Tree, upper: Tree, p: Path)
    requires WellFormed(lower) && WellFormed(upper)
    ensures Gone(Changes(lower, upper), p) <==> Removed(lower, upper, p)
  {
    var all := Changes(lower, upper);
    if Gone(all, p) {
      var c :| c in all && ((c.Delete? && c.path <= p) || (c.Put? && c.file.Blob? && c.path < p));
      assert p[..|c.path|] == c.path;
      if c.Put? && Above(lower, upper, c.path) { AboveIsDir(lower, upper, c.path); }
    }
    if n :| 0 < n <= |p| && p[..n] in lower && p[..n] !in upper {
      DeletedAbove(lower, upper, p, n);
    } else if n :| 0 < n < |p| && Changed(lower, upper, p[..n]) && upper[p[..n]].Blob? {
      assert Put(p[..n], upper[p[..n]]) in all && p[..n] < p;
    }
  }

  lemma AboveIsDir(lower: Tree, upper: Tree, p: Path)
    requires WellFormed(lower) && WellFormed(upper) && Above(lower, upper, p)
    ensures upper[p].Dir?
  {
    var c :| c in lower.Keys + upper.Keys && p < c && (Changed(lower, upper, c) || Deleted(lower, upper, c));
    assert p == c[..|p|];
    if c in upper {
      assert Housed(upper, c);
    } else if |p| < |c| - 1 {
      assert Housed(upper, c[..|c| - 1]) && c[..|c| - 1][..|p|] == p;
    }
  }

  lemma AboveToo(lower: Tree, upper: Tree, p: Path, n: nat)
    requires WellFormed(lower) && WellFormed(upper) && 0 < n < |p|
    requires Touched(lower, upper, p) || Deleted(lower, upper, p)
    ensures Above(lower, upper, p[..n]) && upper[p[..n]].Dir?
  {
    var c := p;
    if !Changed(lower, upper, p) && !Deleted(lower, upper, p) {
      c :| c in lower.Keys + upper.Keys && p < c && (Changed(lower, upper, c) || Deleted(lower, upper, c));
    }
    assert p[..n] == c[..n] && p[..n] < c;
    if c in upper {
      assert Housed(upper, c);
    } else if n < |c| - 1 {
      assert Housed(upper, c[..|c| - 1]) && c[..|c| - 1][..n] == c[..n];
    }
  }

  lemma Shortest(todo: set<Change>) returns (c: Change)
    requires todo != {}
    ensures c in todo && forall d | d in todo :: |c.path| <= |d.path|
  {
    var x :| x in todo;
    if todo == {x} { return x; }
    var y := Shortest(todo - {x});
    c := if |x.path| <= |y.path| then x else y;
  }

  lemma NextPrepared(lower: Tree, upper: Tree, done: set<Change>, todo: set<Change>) returns (c: Change)
    requires WellFormed(lower) && WellFormed(upper) && todo != {} && done + todo == Changes(lower, upper)
    ensures c in todo && Prepared(done, upper, c)
  {
    c := Shortest(todo);
    forall n | 0 < n < |c.path|
      ensures c.path[..n] in upper && Put(c.path[..n], upper[c.path[..n]]) in done
    {
      AboveToo(lower, upper, c.path, n);
      assert Put(c.path[..n], upper[c.path[..n]]) in Changes(lower, upper);
    }
  }

  /** Applies the changes between two trees to a third one, in any order in which a directory comes before what lies
      in it. They make what the diff makes. */
  method HandleChanges(t: Tree, lower: Tree, upper: Tree) returns (now: Tree)
    requires WellFormed(t) && WellFormed(lower) && WellFormed(upper)
    ensures now == Apply(t, lower, upper)
  {
    hide WellFormed, Changes, Step, Prepared, Apply, Gone;
    now := t;
    var todo, done := Changes(lower, upper), {};
    assert Correct(t, upper, done, now) by { NothingGone(); }
    while todo != {}
      invariant done + todo == Changes(lower, upper)
      invariant Ordered(done, upper) && Correct(t, upper, done, now)
    {
      ghost var next := NextPrepared(lower, upper, done, todo);
      var c :| c in todo && Prepared(done, upper, c);
      StepMakes(t, lower, upper, done, now, c);
      PreparedMore(done, upper, c);
      now := Step(now, c);
      todo, done := todo - {c}, done + {c};
    }
    AllMake(t, lower, upper, now);
  }

  lemma NothingGone()
    ensures forall p: Path :: !Gone({}, p)
  {
  }

  lemma PreparedMore(done: set<Change>, upper: Tree, c: Change)
    requires Ordered(done, upper) && Prepared(done, upper, c)
    ensures Ordered(done + {c}, upper)
  {
  }

  lemma AllMake(t: Tree, lower: Tree, upper: Tree, now: Tree)
    requires WellFormed(lower) && WellFormed(upper)
    requires Correct(t, upper, Changes(lower, upper), now)
    ensures now == Apply(t, lower, upper)
  {
    forall p: Path
      ensures p in now <==> p in Apply(t, lower, upper)
      ensures p in now ==> now[p] == Apply(t, lower, upper)[p]
    {
      assert MadeOf(t, upper, Changes(lower, upper), now, p);
      GoneIsRemoved(lower, upper, p);
    }
  }

  /** Path by path: what the diff removes is gone; what it changes, and the directories above, are as in the upper tree;
      every other path is as it was. */
  lemma ApplyByPath(t: Tree, lower: Tree, upper: Tree, p: Path)
    requires WellFormed(lower) && WellFormed(upper)
    ensures var now := Apply(t, lower, upper);
      if Removed(lower, upper, p) then p !in now && p !in upper
      else if Touched(lower, upper, p) then p in now && now[p] == upper[p]
      else (p in now <==> p in t) && (p in t ==> now[p] == t[p])
  {
    if p in upper { NotRemoved(lower, upper, p); }
  }

  lemma NotRemoved(lower: Tree, upper: Tree, p: Path)
    requires WellFormed(lower) && WellFormed(upper) && p in upper
    ensures !Removed(lower, upper, p)
  {
    assert Housed(upper, p) && p[..|p|] == p;
  }

  lemma ApplyWellFormed(t: Tree, lower: Tree, upper: Tree)
    requires WellFormed(t) && WellFormed(lower) && WellFormed(upper)
    ensures WellFormed(Apply(t, lower, upper))
  {
    var now := Apply(t, lower, upper);
    forall p | p in now ensures p != [] && Housed(now, p) {
      forall n | 0 < n < |p| ensures p[..n] in now && now[p[..n]].Dir? {
        if Touched(lower, upper, p) {
          AboveToo(lower, upper, p, n);
        } else {
          StaysToo(t, lower, upper, p, n);
        }
      }
    }
  }

  lemma StaysToo(t: Tree, lower: Tree, upper: Tree, p: Path, n: nat)
    requires WellFormed(t) && WellFormed(lower) && WellFormed(upper) && Stays(t, lower, upper, p) && 0 < n < |p|
    ensures Stays(t, lower, upper, p[..n]) && t[p[..n]].Dir? && (Touched(lower, upper, p[..n]) ==> upper[p[..n]].Dir?)
  {
    assert Housed(t, p);
    assert forall k | 0 <= k <= n :: p[..n][..k] == p[..k];
    if Above(lower, upper, p[..n]) { AboveIsDir(lower, upper, p[..n]); }
  }

  /** Applying a diff to its own lower side gives its upper side. */
  lemma ApplyToLower(lower: Tree, upper: Tree)
    requires WellFormed(lower) && WellFormed(upper)
    ensures Apply(lower, lower, upper) == upper
  {
    forall p: Path
      ensures p in Apply(lower, lower, upper) <==> p in upper
      ensures p in upper ==> Apply(lower, lower, upper)[p] == upper[p]
    {
      ApplyByPath(lower, lower, upper, p);
      assert p in lower && p !in upper ==> p[..|p|] == p && Removed(lower, upper, p);
    }
  }

  /** No file of one tree is where the other one has anything. */
  ghost predicate FilesApart(a: Tree, b: Tree) {
    forall p | p in a && p in b :: a[p].Dir? && b[p].Dir?
  }

  /** A tree added to another one, with no file of one where the other has anything, leaves both. */
  lemma AddApart(a: Tree, b: Tree)
    requires WellFormed(a) && WellFormed(b) && FilesApart(a, b)
    ensures Apply(a, map[], b) == a + b
  {
    assert WellFormed(map[]);
    forall p: Path
      ensures p in Apply(a, map[], b) <==> p in a || p in b
      ensures p in b ==> Apply(a, map[], b)[p] == b[p]
      ensures p in a && p !in b ==> Apply(a, map[], b)[p] == a[p]
    {
      ApplyByPath(a, map[], b, p);
      if p in a { assert Housed(a, p); }
    }
  }

  /** The contents of a snapshot; nothing for the empty one. */
  function Contents(snaps: Snapshots, k: Key): Tree
    requires k == "" || k in snaps
  {
    if k == "" then map[] else snaps[k].tree
  }

  predicate Known(snaps: Snapshots, k: Key) {
    k == "" || k in snaps
  }

  predicate AllKnown(snaps: Snapshots, diffs: seq<Diff>) {
    forall i | 0 <= i < |diffs| :: Known(snaps, diffs[i].lower) && Known(snaps, diffs[i].upper)
  }

  /** The diffs applied onto one another in order, starting from a tree. */
  ghost function ApplyAll(snaps: Snapshots, t: Tree, diffs: seq<Diff>): Tree
    requires AllKnown(snaps, diffs)
  {
    if diffs == [] then t
    else
      var d := diffs[|diffs| - 1];
      Apply(ApplyAll(snaps, t, diffs[..|diffs| - 1]), Contents(snaps, d.lower), Contents(snaps, d.upper))
  }

  /** Two snapshots merged from scratch, with no file of one where the other has anything, are both there; where they
      agree on the directories they share, in either order. */
  lemma MergedApart(snaps: Snapshots, a: Key, b: Key)
    requires "" !in snaps && a in snaps && b in snaps && WellFormed(snaps[a].tree) && WellFormed(snaps[b].tree)
    requires FilesApart(snaps[a].tree, snaps[b].tree)
    ensures ApplyAll(snaps, map[], [Diff("", a), Diff("", b)]) == Contents(snaps, a) + Contents(snaps, b)
    ensures (forall p | p in Contents(snaps, a) && p in Contents(snaps, b) ::
      Contents(snaps, a)[p] == Contents(snaps, b)[p]) ==>
      ApplyAll(snaps, map[], [Diff("", a), Diff("", b)]) == ApplyAll(snaps, map[], [Diff("", b), Diff("", a)])
  {
    hide Apply, WellFormed;
    MergedInOrder(snaps, a, b);
    MergedInOrder(snaps, b, a);
  }

  lemma MergedInOrder(snaps: Snapshots, a: Key, b: Key)
    requires "" !in snaps && a in snaps && b in snaps && WellFormed(snaps[a].tree) && WellFormed(snaps[b].tree)
    requires FilesApart(snaps[a].tree, snaps[b].tree)
    ensures ApplyAll(snaps, map[], [Diff("", a), Diff("", b)]) == Contents(snaps, a) + Contents(snaps, b)
  {
    hide Apply, WellFormed;
    var diffs := [Diff("", a), Diff("", b)];
    EmptyWellFormed();
    ApplyToLower(map[], snaps[a].tree);
    AddApart(snaps[a].tree, snaps[b].tree);
    assert ApplyAll(snaps, map[], [Diff("", a)]) == snaps[a].tree by { assert [Diff("", a)][..0] == []; }
    assert diffs[..1] == [Diff("", a)];
  }

  lemma EmptyWellFormed()
    ensures WellFormed(map[])
  {
  }

  lemma NoDiffs(snaps: Snapshots)
    ensures AllKnown(snaps, []) && ApplyAll(snaps, map[], []) == map[] && WellFormed(map[])
  {
  }

  lemma EachKnown(snaps: Snapshots, diffs: seq<Diff>)
    requires AllKnown(snaps, diffs)
    ensures forall i | 0 <= i < |diffs| :: Known(snaps, diffs[i].lower) && Known(snaps, diffs[i].upper)
  {
  }

  /** A diff from what has been made so far makes its upper side. */
  lemma NextOnBase(snaps: Snapshots, diffs: seq<Diff>, i: nat, base: Key)
    requires i < |diffs| && AllKnown(snaps, diffs[..i]) && Known(snaps, base) && Known(snaps, diffs[i].upper)
    requires diffs[i].lower == base && ApplyAll(snaps, map[], diffs[..i]) == Contents(snaps, base)
    requires WellFormed(Contents(snaps, base)) && WellFormed(Contents(snaps, diffs[i].upper))
    ensures AllKnown(snaps, diffs[..i + 1])
    ensures ApplyAll(snaps, map[], diffs[..i + 1]) == Contents(snaps, diffs[i].upper)
  {
    hide Apply;
    assert diffs[..i + 1][..i] == diffs[..i];
    ApplyToLower(Contents(snaps, base), Contents(snaps, diffs[i].upper));
  }

  lemma KnownSplit(snaps: Snapshots, diffs: seq<Diff>, n: nat)
    requires n <= |diffs|
    ensures AllKnown(snaps, diffs) <==> AllKnown(snaps, diffs[..n]) && AllKnown(snaps, diffs[n..])
  {
    if AllKnown(snaps, diffs[..n]) && AllKnown(snaps, diffs[n..]) {
      assert diffs == diffs[..n] + diffs[n..];
    }
  }

  lemma {:induction false} ApplyAllSplit(snaps: Snapshots, t: Tree, a: seq<Diff>, b: seq<Diff>)
    requires AllKnown(snaps, a + b) && AllKnown(snaps, a) && AllKnown(snaps, b)
    ensures ApplyAll(snaps, t, a + b) == ApplyAll(snaps, ApplyAll(snaps, t, a), b)
  {
    if b == [] {
      assert a + b == a;
    } else {
      var n := |b| - 1;
      assert (a + b)[..|a + b| - 1] == a + b[..n];
      ApplyAllSplit(snaps, t, a, b[..n]);
    }
  }

  lemma {:induction false} ApplyAllWellFormed(snaps: Snapshots, t: Tree, diffs: seq<Diff>)
    requires AllKnown(snaps, diffs) && WellFormed(t) && forall k | k in snaps :: WellFormed(snaps[k].tree)
    ensures WellFormed(ApplyAll(snaps, t, diffs))
  {
    if diffs != [] {
      var d := diffs[|diffs| - 1];
      ApplyAllWellFormed(snaps, t, diffs[..|diffs| - 1]);
      ApplyWellFormed(ApplyAll(snaps, t, diffs[..|diffs| - 1]), Contents(snaps, d.lower), Contents(snaps, d.upper));
    }
  }

  /** The snapshot that the first n diffs end at. */
  function Top(diffs: seq<Diff>, n: nat): Key
    requires n <= |diffs|
  {
    if n == 0 then "" else diffs[n - 1].upper
  }

  /** The diff is one layer on top of the snapshot that the diffs before it end at. */
  predicate Layered(snaps: Snapshots, diffs: seq<Diff>, i: nat)
    requires i < |diffs|
  {
    && Known(snaps, diffs[i].upper) && diffs[i].lower == Top(diffs, i)
    && diffs[i].lower == if diffs[i].upper == "" then "" else snaps[diffs[i].upper].parent
  }

  /** The first n diffs are layers on top of one another, and no more are. */
  ghost predicate LongestBase(snaps: Snapshots, diffs: seq<Diff>, n: nat) {
    && n <= |diffs| && (forall i | 0 <= i < n :: Layered(snaps, diffs, i))
    && (n < |diffs| ==> !Layered(snaps, diffs, n))
  }

  class MergeSnapshotter {
    var snaps: Snapshots
    const skipBaseLayers: bool

    ghost predicate Valid()
      reads this
    {
      "" !in snaps && forall k | k in snaps :: WellFormed(snaps[k].tree)
    }

    constructor (skipBaseLayers: bool)
      ensures Valid() && snaps == map[] && this.skipBaseLayers == skipBaseLayers
    {
      snaps := map[];
      this.skipBaseLayers := skipBaseLayers;
    }

    /** Follows the diffs from the start for as long as each is the next layer on top of the one before.
        What lies on the snapshot it ends at is what these diffs make from scratch. */
    method FindBase(diffs: seq<Diff>) returns (ok: bool, baseKey: Key, baseIndex: nat)
      requires Valid()
      ensures AllKnown(snaps, diffs) ==> ok
      ensures ok ==> baseIndex <= |diffs| && Known(snaps, baseKey) && AllKnown(snaps, diffs[..baseIndex])
      ensures ok ==> ApplyAll(snaps, map[], diffs[..baseIndex]) == Contents(snaps, baseKey)
      ensures ok ==> LongestBase(snaps, diffs, baseIndex) && baseKey == Top(diffs, baseIndex)
    {
      hide Apply, ApplyAll, WellFormed, AllKnown;
      ok, baseKey, baseIndex := true, "", 0;
      NoDiffs(snaps);
      if AllKnown(snaps, diffs) { EachKnown(snaps, diffs); }
      for i := 0 to |diffs|
        invariant ok && baseIndex == i && Known(snaps, baseKey) && AllKnown(snaps, diffs[..i])
        invariant ApplyAll(snaps, map[], diffs[..i]) == Contents(snaps, baseKey)
        invariant baseKey == Top(diffs, i) && forall j | 0 <= j < i :: Layered(snaps, diffs, j)
      {
        var d := diffs[i];
        var parentKey := "";
        if d.upper != "" {
          if d.upper !in snaps { return false, "", 0; }
          parentKey := snaps[d.upper].parent;
        }
        if parentKey != d.lower { break; }
        if d.lower != baseKey { break; }
        NextOnBase(snaps, diffs, i, baseKey);
        baseKey, baseIndex := d.upper, i + 1;
      }
    }

    /** Makes a snapshot whose contents are the given diffs applied onto one another from scratch, whether or not a
        base is skipped. Its parent is the longest base where one is skipped. */
    method Merge(key: Key, diffs: seq<Diff>) returns (ok: bool)
      requires Valid() && key != "" && key !in snaps
      modifies `snaps
      ensures Valid() && (ok <==> AllKnown(old(snaps), diffs)) && (!ok ==> snaps == old(snaps))
      ensures ok ==> key in snaps && snaps == old(snaps)[key := snaps[key]]
      ensures ok ==> snaps[key].tree == ApplyAll(old(snaps), map[], diffs)
      ensures ok && !skipBaseLayers ==> snaps[key].parent == ""
      ensures ok && skipBaseLayers ==>
        exists n | 0 <= n <= |diffs| :: LongestBase(old(snaps), diffs, n) && snaps[key].parent == Top(diffs, n)
    {
      hide Apply, ApplyAll, WellFormed, AllKnown;
      var baseKey, baseIndex := "", 0;
      ok := true;
      NoDiffs(snaps);
      if skipBaseLayers {
        ok, baseKey, baseIndex := FindBase(diffs);
        if !ok { return; }
      }
      var rest := diffs[baseIndex..];
      ok := CanApply(rest);
      KnownSplit(snaps, diffs, baseIndex);
      if ok {
        assert diffs == diffs[..baseIndex] + rest;
        ApplyAllSplit(snaps, map[], diffs[..baseIndex], rest);
        ApplyAllWellFormed(snaps, Contents(snaps, baseKey), rest);
        var tree := DiffApply(Contents(snaps, baseKey), rest);
        snaps := snaps[key := Snapshot(baseKey, tree)];
      }
    }

    method CanApply(diffs: seq<Diff>) returns (ok: bool)
      ensures ok == AllKnown(snaps, diffs)
    {
      ok := true;
      for i := 0 to |diffs|
        invariant ok <==> AllKnown(snaps, diffs[..i])
      {
        ok := ok && (diffs[i].lower == "" || diffs[i].lower in snaps)
          && (diffs[i].upper == "" || diffs[i].upper in snaps);
      }
      assert diffs[..|diffs|] == diffs;
    }

    method DiffApply(t: Tree, diffs: seq<Diff>) returns (tree: Tree)
      requires Valid() && WellFormed(t) && AllKnown(snaps, diffs)
      ensures tree == ApplyAll(snaps, t, diffs)
    {
      hide Apply, WellFormed;
      tree := t;
      for i := 0 to |diffs|
        invariant tree == ApplyAll(snaps, t, diffs[..i]) && WellFormed(tree)
      {
        assert diffs[..i + 1][..i] == diffs[..i];
        var lower, upper := Contents(snaps, diffs[i].lower), Contents(snaps, diffs[i].upper);
        EmptyWellFormed();
        ApplyWellFormed(tree, lower, upper);
        tree := HandleChanges(tree, lower, upper);
      }
      assert diffs[..|diffs|] == diffs;
    }
  }
}
