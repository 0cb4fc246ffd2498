/** Results that are shared by cloning: every clone splits the handle in two, and a split result releases
    what it was split from once both halves are released. */
module SharedResults {
  /** The underlying result, or one of the two halves made by split k: the new handle or the clone. */
  datatype Result = Underlying | Main(k: nat) | Clone(k: nat)

  /** One split: how often each half has been released, the counter they share, what was split and how often that had
      been released by then. */
  datatype Split = Split(main: nat, clone: nat, sem: nat, inner: Result, was: nat)

  function One(b: bool): nat { if b then 1 else 0 }

  /** What split k splits: the handle after the splits before it. */
  function Inner(k: nat): Result {
    if k == 0 then Underlying else Main(k - 1)
  }

  ghost predicate Chained(splits: seq<Split>) {
    forall k | 0 <= k < |splits| :: splits[k].inner == Inner(k)
  }

  /** The counter of a split counts the halves that have been released. */
  ghost predicate Counted(s: Split) {
    s.sem == One(s.main > 0) + One(s.clone > 0)
  }

  /** How often what split k splits has been released. */
  ghost function Releases(splits: seq<Split>, releases: nat, k: nat): nat
    requires k <= |splits|
  {
    if k == 0 then releases else splits[k - 1].main
  }

  /** What split k splits has been released once more if both halves have been, and not otherwise. */
  ghost predicate PassedOn(splits: seq<Split>, releases: nat, k: nat)
    requires k < |splits|
  {
    Releases(splits, releases, k) == splits[k].was + One(splits[k].sem == 2)
  }

  ghost predicate AllCounted(splits: seq<Split>) {
    forall k | 0 <= k < |splits| :: Counted(splits[k])
  }

  /** Every split but number n has passed on its releases. */
  ghost predicate SettledBut(splits: seq<Split>, releases: nat, n: nat) {
    AllCounted(splits) && forall k | 0 <= k < |splits| && k != n :: PassedOn(splits, releases, k)
  }

  ghost predicate Settled(splits: seq<Split>, releases: nat) {
    SettledBut(splits, releases, |splits|)
  }

  /** Split k is due to pass on its release. */
  ghost predicate Due(splits: seq<Split>, releases: nat, k: nat)
    requires k < |splits|
  {
    splits[k].sem == 2 && Releases(splits, releases, k) == splits[k].was
  }

  function MainReleased(splits: seq<Split>, k: nat): seq<Split>
    requires k < |splits|
  {
    var s := splits[k];
    splits[k := if s.main > 0 then s.(main := s.main + 1) else s.(main := 1, sem := s.sem + 1)]
  }

  function CloneReleased(splits: seq<Split>, k: nat): seq<Split>
    requires k < |splits|
  {
    var s := splits[k];
    splits[k := if s.clone > 0 then s.(clone := s.clone + 1) else s.(clone := 1, sem := s.sem + 1)]
  }

  lemma CloneSettles(splits: seq<Split>, releases: nat, inner: Result)
    requires Settled(splits, releases)
    ensures Settled(splits + [Split(0, 0, 0, inner, Releases(splits, releases, |splits|))], releases)
  {
    hide PassedOn, Releases, Counted;
    var s := Split(0, 0, 0, inner, Releases(splits, releases, |splits|));
    NewIsSettled(splits, s, releases);
    forall i | 0 <= i < |splits| ensures PassedOn(splits + [s], releases, i) { PassedPrefix(splits, s, releases, i); }
  }

  lemma NewIsSettled(splits: seq<Split>, s: Split, releases: nat)
    requires s.was == Releases(splits, releases, |splits|) && s.sem == s.main == s.clone == 0
    ensures Counted(s) && PassedOn(splits + [s], releases, |splits|)
  {
  }

  lemma PassedPrefix(splits: seq<Split>, s: Split, releases: nat, i: nat)
    requires i < |splits| && PassedOn(splits, releases, i)
    ensures PassedOn(splits + [s], releases, i)
  {
  }

  lemma ReleasesUnderlying(splits: seq<Split>, releases: nat)
    requires SettledBut(splits, releases, 0) && (|splits| > 0 ==> Due(splits, releases, 0))
    ensures Settled(splits, releases + 1)
  {
    var now := releases + 1;
    forall i | 0 <= i < |splits| ensures PassedOn(splits, now, i) {
      if i > 0 { assert PassedOn(splits, releases, i); }
    }
  }

  lemma ReleasesMain(splits: seq<Split>, releases: nat, k: nat)
    requires k < |splits| && SettledBut(splits, releases, k + 1) && (k + 1 < |splits| ==> Due(splits, releases, k + 1))
    ensures var now := MainReleased(splits, k);
      if splits[k].main == 0 && now[k].sem == 2 then SettledBut(now, releases, k)
        && Due(now, releases, k) else Settled(now, releases)
  {
    var now := MainReleased(splits, k);
    assert Counted(splits[k]) && PassedOn(splits, releases, k);
    forall i | 0 <= i < |now| ensures Counted(now[i]) {}
    forall i | 0 <= i < |now| && i != k ensures PassedOn(now, releases, i) {
      if i != k + 1 { assert PassedOn(splits, releases, i); }
    }
  }

  lemma ReleasesClone(splits: seq<Split>, releases: nat, k: nat)
    requires k < |splits| && Settled(splits, releases)
    ensures var now := CloneReleased(splits, k);
      if splits[k].clone == 0 && now[k].sem == 2 then SettledBut(now, releases, k)
        && Due(now, releases, k) else Settled(now, releases)
  {
    var now := CloneReleased(splits, k);
    assert Counted(splits[k]) && PassedOn(splits, releases, k);
    forall i | 0 <= i < |now| ensures Counted(now[i]) {}
    forall i | 0 <= i < |now| && i != k ensures PassedOn(now, releases, i) {
      assert PassedOn(splits, releases, i);
    }
  }

  class SharedResult {
    var main: Result
    var splits: seq<Split>
    var releases: nat            // how often the underlying result has been released

    ghost predicate Valid()
      reads this
    {
      Chained(splits) && main == Inner(|splits|) && Settled(splits, releases)
    }

    /** How often the handle has been released. */
    ghost function HandleReleases(): nat
      reads this
    {
      Releases(splits, releases, |splits|)
    }

    constructor ()
      ensures Valid() && splits == [] && HandleReleases() == 0
    {
      main, splits, releases := Underlying, [], 0;
    }

    /** A new clone. The handle starts again, even if it has been released. */
    method MakeClone() returns (clone: Result)
      requires Valid()
      modifies this
      ensures Valid() && HandleReleases() == 0 && releases == old(releases) && clone == Result.Clone(|old(splits)|)
      ensures splits == old(splits) + [Split(0, 0, 0, old(main), old(HandleReleases()))]
    {
      hide Settled;
      CloneSettles(splits, releases, main);
      var k := |splits|;
      splits := splits + [Split(0, 0, 0, main, if k == 0 then releases else splits[k - 1].main)];
      main, clone := Main(k), Result.Clone(k);
    }

    method Release()
      requires Valid()
      modifies `splits, `releases
      ensures Valid() && HandleReleases() == old(HandleReleases()) + 1 && SameClones(old(splits), splits, |splits|)
    {
      ReleaseMain(|splits|);
    }

    /** Releases what split k splits, which nothing has released before if k is a split. */
    method ReleaseMain(k: nat)
      requires k <= |splits| && Chained(splits)
      requires SettledBut(splits, releases, k) && (k < |splits| ==> Due(splits, releases, k))
      modifies `splits, `releases
      ensures Chained(splits) && Settled(splits, releases) && SameClones(old(splits), splits, k)
      ensures Releases(splits, releases, k) == Releases(old(splits), old(releases), k) + 1
      decreases k
    {
      hide PassedOn, Due, AllCounted;
      if k == 0 {
        ReleasesUnderlying(splits, releases);
        releases := releases + 1;
        return;
      }
      hide Settled, SettledBut;
      ReleasesMain(splits, releases, k - 1);
      var first := splits[k - 1].main == 0;
      splits := MainReleased(splits, k - 1);
      if first && splits[k - 1].sem == 2 { ReleaseMain(k - 1); }
    }

    method ReleaseClone(k: nat)
      requires Valid() && k < |splits|
      modifies `splits, `releases
      ensures Valid() && |splits| == |old(splits)| && HandleReleases() == old(HandleReleases())
      ensures splits[k].clone == old(splits)[k].clone + 1 && forall i | 0 <= i < |splits| ::
        splits[i].was == old(splits)[i].was
      ensures forall i | 0 <= i < |splits| && i != k :: splits[i].clone == old(splits)[i].clone
      ensures old(splits)[k].clone > 0 ==> releases == old(releases)
    {
      hide Settled, SettledBut;
      ReleasesClone(splits, releases, k);
      var first := splits[k].clone == 0;
      splits := CloneReleased(splits, k);
      if first && splits[k].sem == 2 { ReleaseMain(k); }
    }
  }

  /** Nothing about clones has changed, and nothing at all from split k on. */
  ghost predicate SameClones(before: seq<Split>, now: seq<Split>, k: nat) {
    && |now| == |before| && (forall i | 0 <= i < |now| ::
      now[i].clone == before[i].clone && now[i].was == before[i].was)
    && forall i | k <= i < |now| :: now[i] == before[i]
  }

  /** The handle has been released when split j was the last one. */
  ghost predicate ReleasedAfter(splits: seq<Split>, j: nat)
    requires j < |splits|
  {
    if j == |splits| - 1 then splits[j].main > 0 else splits[j + 1].was > 0
  }

  /** The handle has been released after some split, and the clones of all splits from k up to that one too. */
  ghost predicate ReleasedFrom(splits: seq<Split>, k: nat) {
    exists j | k <= j < |splits| :: ReleasedAfter(splits, j) && forall i | k <= i <= j :: splits[i].clone > 0
  }

  /** The underlying result has been released as often as the handle was before it was first cloned, and once more if
      the handle has been released after some clone was made and all clones up to that one have been. */
  lemma ReleasedExactly(r: SharedResult)
    requires r.Valid()
    ensures r.releases ==
      if r.splits == [] then r.HandleReleases() else r.splits[0].was + One(ReleasedFrom(r.splits, 0))
    ensures r.releases <= 1 <==>
      if r.splits == [] then r.HandleReleases() <= 1
      else r.splits[0].was == 0 || (r.splits[0].was == 1 && !ReleasedFrom(r.splits, 0))
    ensures r.splits != [] && (forall k | 0 <= k < |r.splits| :: r.splits[k].was == 0) ==>
      r.releases == One(r.HandleReleases() > 0 && forall k | 0 <= k < |r.splits| :: r.splits[k].clone > 0)
  {
    if r.splits != [] {
      AllReleased(r.splits, r.releases, 0);
      assert PassedOn(r.splits, r.releases, 0);
      assert r.HandleReleases() > 0 ==> ReleasedAfter(r.splits, |r.splits| - 1);
    }
  }

  lemma {:induction false} AllReleased(splits: seq<Split>, releases: nat, k: nat)
    requires Settled(splits, releases) && k < |splits|
    ensures splits[k].sem == 2 <==> ReleasedFrom(splits, k)
    decreases |splits| - k
  {
    assert Counted(splits[k]);
    if k + 1 < |splits| {
      AllReleased(splits, releases, k + 1);
      assert PassedOn(splits, releases, k + 1);
      if splits[k].clone > 0 && ReleasedFrom(splits, k + 1) {
        var j :| k + 1 <= j < |splits| && ReleasedAfter(splits, j) && forall i | k + 1 <= i <= j :: splits[i].clone > 0;
        assert ReleasedAfter(splits, j);
      }
    }
    if splits[k].main > 0 && !(k + 1 < |splits| && ReleasedFrom(splits, k + 1)) { assert ReleasedAfter(splits, k); }
  }

  /** A handle that was never cloned releases the underlying result twice if it is released twice. */
  method NeverCloned() returns (r: SharedResult)
    ensures r.Valid() && r.releases == 2
  {
    r := new SharedResult();
    r.Release();
    r.Release();
    ReleasedExactly(r);
  }

  /** A handle that is released, cloned and released with its clone has released the underlying result twice. */
  method ReleasedThenCloned() returns (r: SharedResult)
    ensures r.Valid() && r.releases == 2
  {
    hide SharedResult.Valid, PassedOn, AllCounted;
    r := new SharedResult();
    r.Release();
    var clone := r.MakeClone();
    assert r.splits[0].was == 1 && |r.splits| == 1;
    r.Release();
    r.ReleaseClone(0);
    ReleasedExactly(r);
    assert ReleasedAfter(r.splits, 0) && ReleasedFrom(r.splits, 0);
  }
}
