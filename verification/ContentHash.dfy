/** Content hashes: a radix tree of records by path, where the digest of a directory covers its header
    and its children, and changes make the digests above them be computed again. */
module ContentHash {
  import opened KeyOrder

  datatype Digest = Unset | Content(n: nat) | ListOf(parts: seq<Part>)
  datatype Part = Part(name: Key, digest: Digest)

  datatype RecordType = File | Dir | DirHeader | Symlink

  datatype Record = Record(kind: RecordType, digest: Digest)

  type Tree = map<Key, Record>

  const SEP: Byte := 0
  const LAST: Byte := 255

  /** s lies under directory k: its header, or something in it at any depth. */
  predicate Under(k: Key, s: Key) {
    k + [SEP] <= s
  }

  /** s is an immediate child of directory k. */
  predicate IsChild(k: Key, s: Key) {
    Under(k, s) && |s| > |k| + 1 && SEP !in s[|k| + 1..]
  }

  ghost function Children(t: Tree, k: Key): set<Key> {
    set s | s in t && IsChild(k, s)
  }

  /** Every key is the root, the header of a directory or a child of a directory; every directory has a header. */
  predicate Closed(t: Tree) {
    && [] in t && t[[]].kind == Dir
    && (forall s | s in t && s != [] :: HasParent(t, s))
    && (forall k | k in t && t[k].kind == Dir :: k + [SEP] in t)
  }

  /** The directory that s is the header or a child of. */
  predicate HasParent(t: Tree, s: Key)
    requires s in t
  {
    exists k | k in t && t[k].kind == Dir :: IsEntry(t, k, s)
  }

  predicate IsEntry(t: Tree, k: Key, s: Key)
    requires s in t
  {
    || (s == k + [SEP] && t[s].kind == DirHeader)
    || (IsChild(k, s) && t[s].kind != DirHeader)
  }

  // ---- walking a directory ----

  lemma ParentOf(t: Tree, s: Key) returns (k: Key)
    requires Closed(t) && s in t && s != []
    ensures k in t && t[k].kind == Dir && IsEntry(t, k, s)
  {
    assert HasParent(t, s);
    k :| k in t && t[k].kind == Dir && IsEntry(t, k, s);
  }

  lemma ChildBytes(d: Key, s: Key)
    requires IsChild(d, s)
    ensures forall i | |d| < i < |s| :: s[i] != SEP
  {
    forall i | |d| < i < |s| ensures s[i] != SEP {
      assert s[i] == s[|d| + 1..][i - |d| - 1];
    }
  }

  /** In a closed tree whatever lies under a directory is its header, a child, or under a child that is a directory. */
  lemma {:induction false} UnderChild(t: Tree, k: Key, s: Key) returns (c: Key)
    requires Closed(t) == true && k in t && t[k].kind == Dir && s in t && Under(k, s) && s != k + [SEP]
    ensures c in t && IsChild(k, c) && (c == s || (t[c].kind == Dir && Under(c, s)))
    decreases |s|
  {
    hide Closed;
    var d := ParentOf(t, s);
    if d == k {
      c := s;
    } else {
      if d != [] { DirKey(t, d); }
      EntryUnder(k, d, s);
      c := UnderChild(t, k, d);
      assert Under(d, s);
    }
  }

  lemma EntryUnder(k: Key, d: Key, s: Key)
    requires Under(k, s) && (s == d + [SEP] || IsChild(d, s)) && d != k && s != k + [SEP]
      && (d != [] ==> d[|d| - 1] != SEP)
    ensures Under(k, d) && d != k + [SEP] && |d| < |s|
  {
    if s != d + [SEP] { ChildBytes(d, s); }
    assert s[|k|] == SEP && s[..|k|] == k && s[..|d|] == d;
    assert |k| <= |d|;
    assert d[..|k| + 1] == s[..|k| + 1] == k + [SEP];
  }

  /** The key of a directory does not end with a separator. */
  lemma DirKey(t: Tree, d: Key)
    requires Closed(t) == true && d in t && t[d].kind != DirHeader && d != []
    ensures d[|d| - 1] != SEP
  {
    hide Closed;
    var k := ParentOf(t, d);
    ChildBytes(k, d);
  }

  /** Of two children of a directory the later one also comes after everything under the earlier one. */
  lemma ChildAfter(k: Key, a: Key, b: Key, x: Key)
    requires IsChild(k, a) && IsChild(k, b) && Less(a, b)
    ensures Less(a + [SEP] + x, b)
  {
    if a <= b {
      var y := b[|a|..];
      assert b == a + y && (y == [] ==> a == b);
      Total(a, b);
      ChildBytes(k, b);
      assert y[0] == b[|a|] && ([SEP] + x)[0] == SEP;
      SamePrefix(a, [SEP] + x, y);
      assert a + [SEP] + x == a + ([SEP] + x);
    } else {
      ExtendLess(a, [SEP] + x, b);
      assert a + [SEP] + x == a + ([SEP] + x);
    }
  }

  /** Where the walk goes on after s: past everything under a directory, else to the next key. */
  function Bound(t: Tree, s: Key): Key
    requires s in t
  {
    if t[s].kind == Dir then s + [SEP, LAST] else s + [SEP]
  }

  /** s is the header of directory k or one of its children. */
  ghost predicate IsStop(t: Tree, k: Key, s: Key) {
    s in t && (s == k + [SEP] || IsChild(k, s))
  }

  lemma StopLies(t: Tree, k: Key, s: Key)
    requires IsStop(t, k, s)
    ensures Lies(t, k, s)
  {
  }

  lemma StopIsChild(t: Tree, k: Key, s: Key)
    requires Closed(t) == true && IsStop(t, k, s) && t[s].kind == Dir
    ensures IsChild(k, s)
  {
    if s == k + [SEP] { DirKey(t, s); }
  }

  /** The children after s are exactly those from the bound on. */
  lemma ChildrenFromBound(t: Tree, k: Key, s: Key, c: Key)
    requires Closed(t) && k in t && t[k].kind == Dir && IsStop(t, k, s) && c in Children(t, k)
    ensures Less(s, c) <==> AtLeast(c, Bound(t, s))
  {
    hide Closed, Less, IsChild;
    if t[s].kind == Dir {
      StopIsChild(t, k, s);
      if Less(s, c) {
        ChildAfter(k, s, c, [LAST]);
        assert s + [SEP] + [LAST] == s + [SEP, LAST];
        Total(s + [SEP, LAST], c);
      } else {
        Total(s, c);
        BoundAfter(t, s);
        if s != c { Transitive(c, s, Bound(t, s)); }
      }
    } else {
      Successor(s, c);
    }
  }

  lemma BoundAfter(t: Tree, s: Key)
    requires s in t
    ensures Less(s, Bound(t, s))
  {
    SamePrefix(s, [], if t[s].kind == Dir then [SEP, LAST] else [SEP]);
    assert s + [] == s;
  }

  lemma HeaderFirst(k: Key, c: Key)
    requires IsChild(k, c)
    ensures Less(k + [SEP], c)
  {
    var h := k + [SEP];
    assert c == h + c[|h|..] && h + [] == h;
    SamePrefix(h, [], c[|h|..]);
  }

  lemma NotHeader(t: Tree, k: Key, s: Key, n: Key)
    requires IsStop(t, k, s) && AtLeast(n, Bound(t, s))
    ensures n != k + [SEP]
  {
    var h := k + [SEP];
    BoundAfter(t, s);
    if s != h {
      HeaderFirst(k, s);
      Transitive(h, s, Bound(t, s));
    }
  }

  /** After a directory the walk passes over exactly those keys below it whose first byte there is not the last one. */
  lemma SkippedExactly(t: Tree, c: Key, n: Key)
    requires c in t && t[c].kind == Dir && Under(c, n)
    ensures Less(n, Bound(t, c)) <==> n == c + [SEP] || n[|c| + 1] != LAST
  {
    var x := n[|c| + 1..];
    assert n == c + [SEP] + x && Bound(t, c) == c + [SEP] + [LAST];
    SamePrefix(c + [SEP], x, [LAST]);
    assert [LAST][1..] == [];
    if x != [] { assert x[0] == n[|c| + 1]; }
  }

  // ---- the walk ----

  /** The keys under k that come after s and are not skipped. */
  ghost function Ahead(t: Tree, k: Key, s: Key): set<Key>
    requires s in t
  {
    set x | x in t && Under(k, x) && AtLeast(x, Bound(t, s))
  }

  ghost function After(t: Tree, s: Key): set<Key> {
    set x | x in t && Less(s, x)
  }

  lemma AheadShrinks(t: Tree, k: Key, s: Key, n: Key)
    requires s in t && n in Ahead(t, k, s)
    ensures After(t, n) < After(t, s)
  {
    hide Less;
    BoundAfter(t, s);
    Total(n, Bound(t, s));
    if n != Bound(t, s) { Transitive(s, Bound(t, s), n); }
    Total(n, n);
    assert n in After(t, s) && n !in After(t, n);
    forall x | x in After(t, n) ensures x in After(t, s) { Transitive(s, n, x); }
  }

  /** The keys visited from s on, in order: each time the first key ahead. */
  ghost function WalkFrom(t: Tree, k: Key, s: Key): (ss: seq<Key>)
    requires s in t && Under(k, s)
    ensures ss != [] && ss[0] == s && forall i | 0 <= i < |ss| :: Lies(t, k, ss[i])
    decreases After(t, s)
  {
    var ahead := Ahead(t, k, s);
    if ahead == {} then [s]
    else
      var n := Least(ahead);
      AheadShrinks(t, k, s, n);
      [s] + WalkFrom(t, k, n)
  }

  ghost predicate Lies(t: Tree, k: Key, s: Key) {
    s in t && Under(k, s)
  }

  /** The keys that are visited for the digest of directory k. */
  ghost function Walk(t: Tree, k: Key): (ss: seq<Key>)
    ensures forall i | 0 <= i < |ss| :: Lies(t, k, ss[i])
  {
    if k + [SEP] in t then WalkFrom(t, k, k + [SEP]) else []
  }

  lemma StillAhead(t: Tree, k: Key, s: Key, n: Key, x: Key)
    requires Lies(t, k, s) && AtLeast(n, Bound(t, s)) && Under(k, x) && AtLeast(x, n)
    ensures Under(k, n)
  {
    var p := k + [SEP];
    var b := Bound(t, s);
    assert b == p + b[|p|..] && x == p + x[|p|..];
    Total(n, x);
    if n != x { Between(p, b[|p|..], n, x[|p|..]); }
  }

  /** Going to the first key from the bound on, and stopping when it is not under k, is the next step of the walk. */
  lemma WalkStep(t: Tree, k: Key, s: Key, ok: bool, n: Key)
    requires Lies(t, k, s)
    requires ok ==> n in t && AtLeast(n, Bound(t, s)) && forall x | x in t && AtLeast(x, Bound(t, s)) :: AtLeast(x, n)
    requires !ok ==> forall x | x in t :: Less(x, Bound(t, s))
    ensures WalkFrom(t, k, s) == if ok && Under(k, n) then [s] + WalkFrom(t, k, n) else [s]
  {
    hide Less;
    if ok && Under(k, n) {
      assert n in Ahead(t, k, s);
      var m := Least(Ahead(t, k, s));
      Total(n, m);
    } else if x :| x in Ahead(t, k, s) {
      StillAhead(t, k, s, n, x);
    }
  }

  /** A name in directory c starts with the byte that ends a skip. */
  ghost predicate HoldsLast(t: Tree, c: Key) {
    exists n | n in t :: IsChild(c, n) && n[|c| + 1] == LAST
  }

  /** No directory in k holds such a name. */
  ghost predicate Skippable(t: Tree, k: Key) {
    forall c | c in t && IsChild(k, c) && t[c].kind == Dir :: !HoldsLast(t, c)
  }

  /** Whatever lies under a directory without such names is passed over. */
  lemma PassedOver(t: Tree, c: Key, n: Key)
    requires Closed(t) == true && c in t && t[c].kind == Dir && n in t && Under(c, n) && !HoldsLast(t, c)
    ensures Less(n, Bound(t, c))
  {
    hide Closed, Less;
    SkippedExactly(t, c, n);
    if n != c + [SEP] {
      var d := UnderChild(t, c, n);
      assert d[|c| + 1] == n[|c| + 1] by { assert d == n || d + [SEP] <= n; }
    }
  }

  lemma ChildAhead(t: Tree, k: Key, s: Key, c: Key)
    requires Closed(t) == true && k in t && t[k].kind == Dir && IsStop(t, k, s) && c in Children(t, k) && Less(s, c)
    ensures c in Ahead(t, k, s)
  {
    hide Closed, Less;
    ChildrenFromBound(t, k, s, c);
  }

  /** If there are keys ahead, the first one is a child, and otherwise no child is left. */
  lemma NextIsChild(t: Tree, k: Key, s: Key)
    requires Closed(t) == true && k in t && t[k].kind == Dir && IsStop(t, k, s) && Skippable(t, k)
    ensures Ahead(t, k, s) != {} ==> var n := Least(Ahead(t, k, s)); IsChild(k, n) && Less(s, n)
    ensures Ahead(t, k, s) == {} ==> forall c | c in Children(t, k) :: !Less(s, c)
  {
    hide Closed, Less, IsChild, Skippable;
    if Ahead(t, k, s) != {} {
      var n := Least(Ahead(t, k, s));
      SteppedTo(t, k, s, n);
      ChildrenFromBound(t, k, s, n);
    } else {
      forall c | c in Children(t, k) ensures !Less(s, c) {
        if Less(s, c) { ChildAhead(t, k, s, c); }
      }
    }
  }

  lemma SteppedTo(t: Tree, k: Key, s: Key, n: Key)
    requires Closed(t) == true && k in t && t[k].kind == Dir && IsStop(t, k, s) && Skippable(t, k)
    requires IsMin(Ahead(t, k, s), n)
    ensures IsChild(k, n)
  {
    hide Closed, Less, IsChild;
    NotHeader(t, k, s, n);
    var c := UnderChild(t, k, n);
    if c != n {
      var x := n[|c| + 1..];
      assert n == c + [SEP] + x;
      PrefixFirst(c, [SEP] + x);
      assert c + ([SEP] + x) == n;
      ChildrenFromBound(t, k, s, c);
      Total(s, c);
      if s == k + [SEP] { HeaderFirst(k, c); }
      if Less(c, s) {
        ChildAfter(k, c, s, x);
        BoundAfter(t, s);
        Transitive(n, s, Bound(t, s));
      } else if s == c {
        PassedOver(t, s, n);
      } else {
        Total(c, n);
        ChildAhead(t, k, s, c);
      }
    }
  }

  // ---- digests ----

  ghost function Below(t: Tree, k: Key): set<Key> {
    set s | s in t && Under(k, s)
  }

  ghost function Stops(t: Tree, k: Key): set<Key> {
    set s | s in t && IsStop(t, k, s)
  }

  /** The header and the children of a directory in key order. */
  ghost function StopList(t: Tree, k: Key): (ss: seq<Key>)
    ensures Sorted(ss) && Elements(ss) == Stops(t, k) && forall i | 0 <= i < |ss| :: Lies(t, k, ss[i])
  {
    var ss := InOrder(Stops(t, k));
    assert forall i | 0 <= i < |ss| :: ss[i] in Elements(ss);
    ss
  }

  lemma BelowShrinks(t: Tree, k: Key, s: Key)
    requires Lies(t, k, s)
    ensures Below(t, s) < Below(t, k)
  {
    assert s in Below(t, k) && s !in Below(t, s);
    forall x | x in Below(t, s) ensures x in Below(t, k) {
      assert k + [SEP] <= s <= x;
    }
  }

  /** What a directory digest covers: the keys the walk visits, or the header and the children. */
  datatype Listing = Visits | Entries

  ghost function Listed(how: Listing, t: Tree, k: Key): (ss: seq<Key>)
    ensures forall i | 0 <= i < |ss| :: Lies(t, k, ss[i])
  {
    if how == Visits then Walk(t, k) else StopList(t, k)
  }

  ghost function DigestOf(how: Listing, t: Tree, k: Key): Digest
    requires k in t
    decreases Below(t, k), 1, 0
  {
    if t[k].kind == Dir then ListOf(Parts(how, t, k, Listed(how, t, k))) else t[k].digest
  }

  ghost function Parts(how: Listing, t: Tree, k: Key, ss: seq<Key>): seq<Part>
    requires forall i | 0 <= i < |ss| :: Lies(t, k, ss[i])
    decreases Below(t, k), 0, |ss|
  {
    if ss == [] then []
    else
      var s := ss[|ss| - 1];
      BelowShrinks(t, k, s);
      Parts(how, t, k, ss[..|ss| - 1]) + [Part(s[|k|..], DigestOf(how, t, s))]
  }

  /** The digest that the walk computes when no digest of a directory is known. */
  ghost function Scratch(t: Tree, k: Key): Digest
    requires k in t
  {
    DigestOf(Visits, t, k)
  }

  /** The digest a record should have: of a directory, from its header and its children in key order. */
  ghost function Proper(t: Tree, k: Key): Digest
    requires k in t
  {
    DigestOf(Entries, t, k)
  }

  /** Digests that are set are the ones from scratch; everything but a directory has its digest. */
  ghost predicate Good(t: Tree) {
    && (forall k | k in t && t[k].kind == Dir && t[k].digest != Unset :: t[k].digest == Scratch(t, k))
    && (forall k | k in t && t[k].kind != Dir :: t[k].digest != Unset)
  }

  /** The trees differ only in the digests of directories. */
  ghost predicate Alike(a: Tree, b: Tree) {
    a.Keys == b.Keys && forall k | k in a :: a[k].kind == b[k].kind && (a[k].kind != Dir ==> a[k] == b[k])
  }

  /** The first key from a bound on. */
  method SeekLowerBound(t: Tree, bound: Key) returns (ok: bool, n: Key)
    ensures ok ==> n in t && AtLeast(n, bound) && forall x | x in t && AtLeast(x, bound) :: AtLeast(x, n)
    ensures !ok ==> forall x | x in t :: Less(x, bound)
  {
    hide Less;
    ok, n := false, [];
    var todo := t.Keys;
    while todo != {}
      invariant todo <= t.Keys
      invariant ok ==> n in t && AtLeast(n, bound) && forall x | x in t.Keys - todo && AtLeast(x, bound) ::
        AtLeast(x, n)
      invariant !ok ==> forall x | x in t.Keys - todo :: Less(x, bound)
      decreases todo
    {
      var x :| x in todo;
      if AtLeast(x, bound) && (!ok || Less(x, n)) {
        forall y | y in t.Keys - todo && AtLeast(y, bound) && ok ensures AtLeast(y, x) {
          if Less(y, x) { Transitive(y, x, n); }
        }
        ok, n := true, x;
        Total(x, x);
      }
      todo := todo - {x};
    }
  }

  /** What has been visited when the walk is at stop s. */
  ghost predicate Visited(t: Tree, k: Key, vs: seq<Key>, s: Key) {
    Sorted(vs) && Elements(vs) == set x | x in Stops(t, k) && Less(x, s)
  }

  ghost predicate AllVisited(t: Tree, k: Key, vs: seq<Key>) {
    Sorted(vs) && Elements(vs) == Stops(t, k)
  }

  lemma StartAtHeader(t: Tree, k: Key)
    requires Closed(t) && k in t && t[k].kind == Dir
    ensures IsStop(t, k, k + [SEP]) && Visited(t, k, [], k + [SEP])
  {
    forall x | x in Stops(t, k) ensures !Less(x, k + [SEP]) {
      if x != k + [SEP] { HeaderFirst(k, x); }
      Total(x, k + [SEP]);
    }
  }

  lemma VisitNext(t: Tree, k: Key, vs: seq<Key>, s: Key)
    requires Closed(t) == true && k in t && t[k].kind == Dir && IsStop(t, k, s) && Visited(t, k, vs, s)
      && Skippable(t, k)
    ensures Ahead(t, k, s) == {} ==> AllVisited(t, k, vs + [s])
    ensures Ahead(t, k, s) != {} ==>
      IsStop(t, k, Least(Ahead(t, k, s))) && Visited(t, k, vs + [s], Least(Ahead(t, k, s)))
  {
    hide Closed, Less, IsChild, Skippable;
    AppendVisited(t, k, vs, s);
    NextIsChild(t, k, s);
    forall x | x in Stops(t, k) ensures Less(s, x) ==> IsChild(k, x) && x in Ahead(t, k, s) {
      if x == k + [SEP] {
        if s != x { HeaderFirst(k, s); }
        Total(x, s);
      } else {
        ChildrenFromBound(t, k, s, x);
        StopLies(t, k, x);
      }
    }
    if Ahead(t, k, s) != {} {
      var n := Least(Ahead(t, k, s));
      forall x | x in Stops(t, k) ensures Less(x, n) <==> Less(x, s) || x == s {
        Total(x, s);
        Total(x, n);
        if Less(x, s) { Transitive(x, s, n); }
      }
    } else {
      forall x | x in Stops(t, k) ensures Less(x, s) || x == s {
        Total(x, s);
      }
    }
  }

  lemma AppendVisited(t: Tree, k: Key, vs: seq<Key>, s: Key)
    requires Visited(t, k, vs, s) && IsStop(t, k, s)
    ensures Sorted(vs + [s]) && Elements(vs + [s]) == set x | x in Stops(t, k) && (Less(x, s) || x == s)
  {
    var ws := vs + [s];
    forall i, j | 0 <= i < j < |ws| ensures Less(ws[i], ws[j]) {
      if j == |vs| { assert vs[i] in Elements(vs); }
    }
    forall x ensures x in Elements(ws) <==> x in Elements(vs) || x == s {
      if x in Elements(vs) { var i :| 0 <= i < |vs| && vs[i] == x; assert ws[i] == x; }
      assert ws[|vs|] == s;
      if x in Elements(ws) && x != s { var i :| 0 <= i < |ws| && ws[i] == x; assert vs[i] == x; }
    }
  }

  lemma Finished(t: Tree, k: Key, vs: seq<Key>)
    requires AllVisited(t, k, vs)
    ensures vs == StopList(t, k)
  {
    hide Less;
    OneOrder(vs, StopList(t, k));
  }

  lemma {:induction false} WalkVisits(t: Tree, k: Key, vs: seq<Key>, s: Key)
    requires Closed(t) == true && k in t && t[k].kind == Dir && IsStop(t, k, s) && Visited(t, k, vs, s)
      && Skippable(t, k)
    ensures AllVisited(t, k, vs + WalkFrom(t, k, s))
    decreases After(t, s)
  {
    hide Closed, Less, IsChild, Visited, AllVisited, Skippable;
    VisitNext(t, k, vs, s);
    StopLies(t, k, s);
    if Ahead(t, k, s) != {} {
      var n := Least(Ahead(t, k, s));
      AheadShrinks(t, k, s, n);
      WalkVisits(t, k, vs + [s], n);
      assert vs + [s] + WalkFrom(t, k, n) == vs + WalkFrom(t, k, s);
    }
  }

  /** If the walk visits a directory that holds a name with the last byte first, it goes into it. */
  lemma {:induction false} WalkGoesIn(t: Tree, k: Key, s: Key, c: Key)
    requires Lies(t, k, s) && c in WalkFrom(t, k, s) && t[c].kind == Dir && HoldsLast(t, c)
    ensures exists m | m in WalkFrom(t, k, s) :: Under(c, m)
    decreases After(t, s)
  {
    hide Less;
    if s == c {
      var n :| n in t && IsChild(c, n) && n[|c| + 1] == LAST;
      assert Under(k, n) by { assert k + [SEP] <= c <= n; }
      SkippedExactly(t, c, n);
      assert n in Ahead(t, k, c);
      var m := Least(Ahead(t, k, c));
      BoundUnder(t, c, m, n);
      assert m == WalkFrom(t, k, m)[0];
      assert m in WalkFrom(t, k, s);
    } else {
      var m := Least(Ahead(t, k, s));
      AheadShrinks(t, k, s, m);
      WalkGoesIn(t, k, m, c);
    }
  }

  lemma BoundUnder(t: Tree, c: Key, m: Key, n: Key)
    requires c in t && t[c].kind == Dir && AtLeast(m, Bound(t, c)) && AtLeast(n, m) && Under(c, n)
    ensures Under(c, m)
  {
    var p := c + [SEP];
    assert Bound(t, c) == p + [LAST] && n == p + n[|p|..];
    Total(n, m);
    if n != m { Between(p, [LAST], m, n[|p|..]); }
  }

  lemma NotAStop(k: Key, c: Key, m: Key)
    requires IsChild(k, c) && Under(c, m)
    ensures m != k + [SEP] && !IsChild(k, m)
  {
    assert m[|c|] == SEP && |c| > |k| + 1;
    if IsChild(k, m) { ChildBytes(k, m); }
  }

  /** The walk visits the header of a directory and each of its children exactly once, in key order, if and only if
      no directory in it holds a name that starts with the last byte. */
  lemma WalkExactly(t: Tree, k: Key)
    requires Closed(t) == true && k in t && t[k].kind == Dir
    ensures Walk(t, k) == StopList(t, k) <==> Skippable(t, k)
  {
    hide Closed, Less, IsChild, Visited, AllVisited, WalkFrom;
    StartAtHeader(t, k);
    if Skippable(t, k) {
      WalkVisits(t, k, [], k + [SEP]);
      assert [] + Walk(t, k) == Walk(t, k);
      Finished(t, k, Walk(t, k));
    } else {
      var c :| c in t && IsChild(k, c) && t[c].kind == Dir && HoldsLast(t, c);
      if Walk(t, k) == StopList(t, k) {
        assert c in Elements(StopList(t, k));
        WalkGoesIn(t, k, k + [SEP], c);
        var m :| m in Walk(t, k) && Under(c, m);
        assert m in Elements(StopList(t, k));
        NotAStop(k, c, m);
      }
    }
  }

  lemma {:induction false} PartsAt(how: Listing, t: Tree, k: Key, ss: seq<Key>)
    requires forall i | 0 <= i < |ss| :: Lies(t, k, ss[i])
    ensures |Parts(how, t, k, ss)| == |ss|
    ensures forall i | 0 <= i < |ss| :: Parts(how, t, k, ss)[i] == Part(ss[i][|k|..], DigestOf(how, t, ss[i]))
    decreases |ss|
  {
    hide DigestOf;
    if ss != [] { PartsAt(how, t, k, ss[..|ss| - 1]); }
  }

  /** Parts tell which keys they are from. */
  lemma PartsOfOneList(t: Tree, k: Key, vs: seq<Key>, ss: seq<Key>)
    requires forall i | 0 <= i < |vs| :: Lies(t, k, vs[i])
    requires forall i | 0 <= i < |ss| :: Lies(t, k, ss[i])
    requires Parts(Visits, t, k, vs) == Parts(Entries, t, k, ss)
    ensures vs == ss && forall i | 0 <= i < |ss| :: Scratch(t, ss[i]) == Proper(t, ss[i])
  {
    hide DigestOf, Parts;
    PartsAt(Visits, t, k, vs);
    PartsAt(Entries, t, k, ss);
    forall i | 0 <= i < |vs| ensures vs[i] == ss[i] {
      assert vs[i] == vs[i][..|k|] + vs[i][|k|..] && ss[i] == ss[i][..|k|] + ss[i][|k|..];
      assert vs[i][..|k|] == k == ss[i][..|k|];
    }
  }

  lemma SameDigests(t: Tree, k: Key, ss: seq<Key>)
    requires forall i | 0 <= i < |ss| :: Lies(t, k, ss[i]) && Scratch(t, ss[i]) == Proper(t, ss[i])
    ensures Parts(Visits, t, k, ss) == Parts(Entries, t, k, ss)
  {
    hide DigestOf, Parts;
    PartsAt(Visits, t, k, ss);
    PartsAt(Entries, t, k, ss);
  }

  /** No directory below k holds a name that starts with the last byte. */
  ghost predicate AllSkippable(t: Tree, k: Key) {
    forall c | Lies(t, k, c) && t[c].kind == Dir :: !HoldsLast(t, c)
  }

  lemma AllSkippableStops(t: Tree, k: Key)
    requires Closed(t) == true && k in t && t[k].kind == Dir
    ensures AllSkippable(t, k) <==> Skippable(t, k) && forall s | IsStop(t, k, s) :: AllSkippable(t, s)
  {
    hide Closed, HoldsLast;
    if AllSkippable(t, k) {
      forall s | IsStop(t, k, s) ensures AllSkippable(t, s) {
        forall c | Lies(t, s, c) && t[c].kind == Dir ensures !HoldsLast(t, c) {
          assert Lies(t, k, c) by { assert k + [SEP] <= s <= c; }
        }
      }
      forall c | c in t && IsChild(k, c) && t[c].kind == Dir ensures !HoldsLast(t, c) { assert Lies(t, k, c); }
    } else {
      var c :| Lies(t, k, c) && t[c].kind == Dir && HoldsLast(t, c);
      if c == k + [SEP] { DirKey(t, c); }
      var d := UnderChild(t, k, c);
      assert c == d || Lies(t, d, c);
      assert IsStop(t, k, d);
    }
  }

  /** The digest that is computed is the one from the header and the children, all the way down, if and only if no
      directory below holds a name that starts with the last byte. */
  lemma {:induction false} ProperExactly(t: Tree, k: Key)
    requires Closed(t) == true && k in t
    ensures Scratch(t, k) == Proper(t, k) <==> AllSkippable(t, k)
    decreases Below(t, k)
  {
    hide Closed, Parts, Walk, StopList, Skippable, HoldsLast;
    if t[k].kind != Dir {
      forall c | Lies(t, k, c) ensures false { AncestorIsDir(t, k, c); }
    } else {
      WalkExactly(t, k);
      AllSkippableStops(t, k);
      var ss := StopList(t, k);
      forall s | IsStop(t, k, s) ensures Scratch(t, s) == Proper(t, s) <==> AllSkippable(t, s) {
        BelowShrinks(t, k, s);
        ProperExactly(t, s);
      }
      if Scratch(t, k) == Proper(t, k) {
        PartsOfOneList(t, k, Walk(t, k), ss);
        forall s | IsStop(t, k, s) ensures AllSkippable(t, s) { assert s in Stops(t, k) && s in Elements(ss); }
      }
      if AllSkippable(t, k) {
        forall i | 0 <= i < |ss| ensures Scratch(t, ss[i]) == Proper(t, ss[i]) { assert ss[i] in Elements(ss)
          && IsStop(t, k, ss[i]); }
        SameDigests(t, k, ss);
      }
    }
  }

  // ---- computing digests ----

  /** The digest of a record, taken from the tree or computed; digests of directories that were computed are stored. */
  method Checksum(root: Tree, txn0: Tree, k: Key) returns (cr: Record, txn: Tree)
    requires Closed(root) == true && Good(root) && k in root && Alike(root, txn0) && Stored(root, txn0)
    ensures cr.kind == root[k].kind && cr.digest == Scratch(root, k) && cr.digest != Unset
    ensures cr.digest == Proper(root, k) <==> AllSkippable(root, k)
    ensures Alike(root, txn) && Stored(root, txn)
    ensures k in txn && if root[k].digest == Unset then txn[k] == cr else txn == txn0 && cr == root[k]
    decreases Below(root, k), 1
  {
    hide Closed, Parts, StopList, Walk, AllSkippable;
    ProperExactly(root, k);
    txn := txn0;
    cr := root[k];
    if cr.digest != Unset { return; }
    var parts;
    parts, txn := ChecksumDir(root, txn, k);
    cr := Record(cr.kind, ListOf(parts));
    txn := txn[k := cr];
  }

  /** The walk has gone over vs and, if it goes on, is at s. */
  ghost predicate Underway(t: Tree, k: Key, vs: seq<Key>, s: Key, more: bool) {
    if more then Lies(t, k, s) && Walk(t, k) == vs + WalkFrom(t, k, s) else Walk(t, k) == vs
  }

  lemma StartWalk(t: Tree, k: Key)
    requires Closed(t) && k in t && t[k].kind == Dir
    ensures Underway(t, k, [], k + [SEP], true)
  {
  }

  lemma GoOn(t: Tree, k: Key, vs: seq<Key>, s: Key, ok: bool, n: Key)
    requires Underway(t, k, vs, s, true)
    requires ok ==> n in t && AtLeast(n, Bound(t, s)) && forall x | x in t && AtLeast(x, Bound(t, s)) :: AtLeast(x, n)
    requires !ok ==> forall x | x in t :: Less(x, Bound(t, s))
    ensures Underway(t, k, vs + [s], n, ok && Under(k, n)) && |vs| < |Walk(t, k)|
  {
    hide Less, WalkFrom;
    WalkStep(t, k, s, ok, n);
  }

  lemma PartsOfMore(t: Tree, k: Key, vs: seq<Key>, s: Key)
    requires Lies(t, k, s) && forall i | 0 <= i < |vs| :: Lies(t, k, vs[i])
    ensures Parts(Visits, t, k, vs + [s]) == Parts(Visits, t, k, vs) + [Part(s[|k|..], Scratch(t, s))]
  {
    hide DigestOf;
    assert (vs + [s])[..|vs|] == vs;
  }

  /** Goes over the keys of the walk and lists their digests. */
  method ChecksumDir(root: Tree, txn0: Tree, k: Key) returns (parts: seq<Part>, txn: Tree)
    requires Closed(root) == true && Good(root) && k in root && root[k].kind == Dir && Alike(root, txn0)
      && Stored(root, txn0)
    ensures parts == Parts(Visits, root, k, Walk(root, k)) && Alike(root, txn) && Stored(root, txn)
    ensures Walk(root, k) == StopList(root, k) <==> Skippable(root, k)
    decreases Below(root, k), 0
  {
    hide Closed, Good, Less, Skippable, AllSkippable, DigestOf, Alike, Stored, Walk, WalkFrom;
    txn, parts := txn0, [];
    var subk, ok := k + [SEP], true;
    ghost var vs: seq<Key> := [];
    StartWalk(root, k);
    while ok && Under(k, subk)
      invariant forall i | 0 <= i < |vs| :: Lies(root, k, vs[i])
      invariant parts == Parts(Visits, root, k, vs) && Alike(root, txn) == Stored(root, txn) == true
      invariant Underway(root, k, vs, subk, ok && Under(k, subk))
      decreases |Walk(root, k)| - |vs|
    {
      BelowShrinks(root, k, subk);
      var subcr;
      subcr, txn := Checksum(root, txn, subk);
      PartsOfMore(root, k, vs, subk);
      parts := parts + [Part(subk[|k|..], subcr.digest)];
      var more, n := SeekLowerBound(root, if subcr.kind == Dir then subk + [SEP, LAST] else subk + [SEP]);
      GoOn(root, k, vs, subk, more, n);
      vs := vs + [subk];
      subk, ok := n, more;
    }
    WalkExactly(root, k);
  }

  /** The digests of directories are unset or right. */
  ghost predicate Stored(root: Tree, txn: Tree) {
    forall k | k in txn && k in root && txn[k].kind == Dir && txn[k].digest != Unset ::
      txn[k].digest == Scratch(root, k)
  }

  // ---- digests depend only on what lies below ----

  ghost predicate SameAt(a: Tree, b: Tree, s: Key) {
    (s in a <==> s in b) && (s in a ==> a[s].kind == b[s].kind && (a[s].kind != Dir ==> a[s] == b[s]))
  }

  ghost predicate SameBelow(a: Tree, b: Tree, k: Key) {
    k in a && SameAt(a, b, k) && forall s | Under(k, s) :: SameAt(a, b, s)
  }

  lemma SameStops(a: Tree, b: Tree, k: Key)
    requires SameBelow(a, b, k)
    ensures Stops(a, k) == Stops(b, k)
  {
    forall s ensures s in Stops(a, k) <==> s in Stops(b, k) {
      assert Under(k, s) ==> SameAt(a, b, s);
    }
  }

  lemma SameInside(a: Tree, b: Tree, k: Key, s: Key)
    requires SameBelow(a, b, k) && Lies(a, k, s)
    ensures SameBelow(a, b, s)
  {
    assert SameAt(a, b, s);
    forall x | Under(s, x) ensures SameAt(a, b, x) {
      assert k + [SEP] <= s <= x;
    }
  }

  lemma {:induction false} SameWalk(a: Tree, b: Tree, k: Key, s: Key)
    requires SameBelow(a, b, k) && Lies(a, k, s) && Lies(b, k, s)
    ensures WalkFrom(a, k, s) == WalkFrom(b, k, s)
    decreases After(a, s)
  {
    hide Less;
    assert SameAt(a, b, s);
    forall x ensures x in Ahead(a, k, s) <==> x in Ahead(b, k, s) {
      assert Under(k, x) ==> SameAt(a, b, x);
    }
    assert Ahead(a, k, s) == Ahead(b, k, s);
    if Ahead(a, k, s) != {} {
      var n := Least(Ahead(a, k, s));
      AheadShrinks(a, k, s, n);
      SameWalk(a, b, k, n);
    }
  }

  lemma SameListed(how: Listing, a: Tree, b: Tree, k: Key)
    requires SameBelow(a, b, k)
    ensures Listed(how, a, k) == Listed(how, b, k)
  {
    SameStops(a, b, k);
    OneOrder(StopList(a, k), StopList(b, k));
    assert SameAt(a, b, k + [SEP]) by { assert Under(k, k + [SEP]); }
    if k + [SEP] in a { SameWalk(a, b, k, k + [SEP]); }
  }

  /** Digests depend only on what lies at the path and below it. */
  lemma {:induction false} SameDigest(how: Listing, a: Tree, b: Tree, k: Key)
    requires SameBelow(a, b, k)
    ensures DigestOf(how, a, k) == DigestOf(how, b, k)
    decreases Below(a, k), 1, 0
  {
    if a[k].kind == Dir {
      hide SameBelow, Listed;
      SameListed(how, a, b, k);
      SameParts(how, a, b, k, Listed(how, a, k));
    }
  }

  lemma {:induction false} SameParts(how: Listing, a: Tree, b: Tree, k: Key, ss: seq<Key>)
    requires SameBelow(a, b, k) == true && forall i | 0 <= i < |ss| :: Lies(a, k, ss[i]) && Lies(b, k, ss[i])
    ensures Parts(how, a, k, ss) == Parts(how, b, k, ss)
    decreases Below(a, k), 0, |ss|
  {
    hide SameBelow, DigestOf;
    if ss != [] {
      var s := ss[|ss| - 1];
      SameInside(a, b, k, s);
      BelowShrinks(a, k, s);
      SameDigest(how, a, b, s);
      SameParts(how, a, b, k, ss[..|ss| - 1]);
    }
  }

  /** Storing the digests that were computed keeps the tree good. */
  lemma StoredIsGood(root: Tree, txn: Tree)
    requires Good(root) && Alike(root, txn) && Stored(root, txn)
    ensures Good(txn) && (Closed(root) ==> Closed(txn)) && forall k | k in root :: Scratch(txn, k) == Scratch(root, k)
  {
    hide DigestOf, Closed;
    forall k | k in root ensures Scratch(txn, k) == Scratch(root, k) {
      SameDigest(Visits, root, txn, k);
    }
    if Closed(root) { AlikeClosed(root, txn); }
  }

  lemma AlikeClosed(a: Tree, b: Tree)
    requires Closed(a) && Alike(a, b)
    ensures Closed(b)
  {
    forall s | s in b && s != [] ensures HasParent(b, s) {
      var k := ParentOf(a, s);
      assert IsEntry(b, k, s);
    }
  }

  // ---- digests tell what lies below ----

  /** Where there is a directory in one tree there is one in the other; whatever else there is has the same digest. */
  ghost predicate SameRecord(a: Tree, b: Tree, s: Key) {
    && (s in a <==> s in b)
    && (s in a ==> (a[s].kind == Dir <==> b[s].kind == Dir) && (a[s].kind != Dir ==> a[s].digest == b[s].digest))
  }

  ghost predicate SameContent(a: Tree, b: Tree, k: Key) {
    forall s | OnPath(k, s) :: SameRecord(a, b, s)
  }

  /** The digest of what is not a directory is not that of a list. */
  ghost predicate Leaves(t: Tree) {
    forall s | s in t && t[s].kind != Dir :: !t[s].digest.ListOf?
  }

  /** Parts tell which keys and digests they are from. */
  lemma PartsTell(a: Tree, b: Tree, k: Key, vs: seq<Key>, ws: seq<Key>)
    requires forall i | 0 <= i < |vs| :: Lies(a, k, vs[i])
    requires forall i | 0 <= i < |ws| :: Lies(b, k, ws[i])
    ensures Parts(Entries, a, k, vs) == Parts(Entries, b, k, ws) <==>
      vs == ws && forall i | 0 <= i < |vs| :: Proper(a, vs[i]) == Proper(b, vs[i])
  {
    hide DigestOf, Parts;
    PartsAt(Entries, a, k, vs);
    PartsAt(Entries, b, k, ws);
    if Parts(Entries, a, k, vs) == Parts(Entries, b, k, ws) {
      forall i | 0 <= i < |vs| ensures vs[i] == ws[i] {
        assert vs[i] == vs[i][..|k|] + vs[i][|k|..] && ws[i] == ws[i][..|k|] + ws[i][|k|..];
        assert vs[i][..|k|] == k == ws[i][..|k|];
      }
    }
  }

  lemma NothingBelow(t: Tree, k: Key, s: Key)
    requires Closed(t) == true && (k in t ==> t[k].kind != Dir) && Under(k, s)
    ensures s !in t
  {
    if s in t { AncestorIsDir(t, k, s); }
  }

  lemma InsideToo(a: Tree, b: Tree, k: Key, s: Key)
    requires SameContent(a, b, k) && Under(k, s)
    ensures SameContent(a, b, s)
  {
    forall x | OnPath(s, x) ensures SameRecord(a, b, x) { assert k + [SEP] <= s <= x; }
  }

  lemma SameEntries(a: Tree, b: Tree, k: Key)
    requires SameContent(a, b, k)
    ensures StopList(a, k) == StopList(b, k)
  {
    forall s ensures s in Stops(a, k) <==> s in Stops(b, k) {
      assert Under(k, s) ==> SameRecord(a, b, s);
    }
    OneOrder(StopList(a, k), StopList(b, k));
  }

  /** What lies under k is the same if the header and the children are, with what lies below them. */
  lemma FromEntries(a: Tree, b: Tree, k: Key, s: Key)
    requires Closed(a) == Closed(b) == true && k in a && k in b && a[k].kind == b[k].kind == Dir && Under(k, s)
    requires Stops(a, k) == Stops(b, k) && forall c | c in Stops(a, k) :: SameContent(a, b, c)
    ensures SameRecord(a, b, s)
  {
    hide Closed, SameRecord;
    if s == k + [SEP] {
      if s in a || s in b { assert s in Stops(a, k) && SameContent(a, b, s); }
    } else if s in a {
      var c := UnderChild(a, k, s);
      assert c in Stops(a, k) && SameContent(a, b, c);
    } else if s in b {
      var c := UnderChild(b, k, s);
      assert c in Stops(b, k) && SameContent(a, b, c);
    }
    assert s !in a && s !in b ==> SameRecord(a, b, s) by { if s !in a && s !in b { Nowhere(a, b, s); } }
  }

  lemma Nowhere(a: Tree, b: Tree, s: Key)
    requires s !in a && s !in b
    ensures SameRecord(a, b, s)
  {
  }

  /** Digests from header and children are equal exactly if the same lies at the path and below it, all the way down. */
  lemma {:induction false} DigestTells(a: Tree, b: Tree, k: Key)
    requires Closed(a) == Closed(b) == true && Leaves(a) && Leaves(b) && k in a && k in b
    ensures Proper(a, k) == Proper(b, k) <==> SameContent(a, b, k)
    decreases Below(a, k)
  {
    hide Closed, Leaves;
    assert OnPath(k, k);
    if a[k].kind != Dir && b[k].kind != Dir {
      forall s | Under(k, s) ensures SameRecord(a, b, s) {
        NothingBelow(a, k, s);
        NothingBelow(b, k, s);
      }
    } else if a[k].kind == Dir && b[k].kind == Dir {
      DirTells(a, b, k);
    } else {
      assert Proper(a, k) != Proper(b, k) by { LeafIsNoList(a, k); LeafIsNoList(b, k); }
    }
  }

  lemma LeafIsNoList(t: Tree, k: Key)
    requires Leaves(t) && k in t
    ensures Proper(t, k).ListOf? <==> t[k].kind == Dir
  {
  }

  lemma {:induction false} DirTells(a: Tree, b: Tree, k: Key)
    requires Closed(a) == Closed(b) == Leaves(a) == Leaves(b) == true && k in a && k in b
    requires a[k].kind == b[k].kind == Dir
    ensures Proper(a, k) == Proper(b, k) <==> SameContent(a, b, k)
    decreases Below(a, k), 0
  {
    hide Closed, Leaves, SameContent, Parts;
    var vs, ws := StopList(a, k), StopList(b, k);
    PartsTell(a, b, k, vs, ws);
    if SameContent(a, b, k) { SameEntries(a, b, k); }
    forall i | 0 <= i < |vs| && vs[i] in b
      ensures Proper(a, vs[i]) == Proper(b, vs[i]) <==> SameContent(a, b, vs[i])
    {
      BelowShrinks(a, k, vs[i]);
      DigestTells(a, b, vs[i]);
    }
    if SameContent(a, b, k) {
      forall i | 0 <= i < |vs| ensures SameContent(a, b, vs[i]) { InsideToo(a, b, k, vs[i]); }
    } else if Proper(a, k) == Proper(b, k) {
      AllFromEntries(a, b, k, vs);
    }
  }

  lemma AllFromEntries(a: Tree, b: Tree, k: Key, ss: seq<Key>)
    requires Closed(a) == Closed(b) == true && k in a && k in b && a[k].kind == b[k].kind == Dir
    requires ss == StopList(a, k) == StopList(b, k) && forall i | 0 <= i < |ss| :: SameContent(a, b, ss[i])
    ensures SameContent(a, b, k)
  {
    hide Closed;
    assert Elements(ss) == Stops(a, k) == Stops(b, k);
    forall c | c in Stops(a, k) ensures SameContent(a, b, c) { assert c in Elements(ss); }
    forall s | OnPath(k, s) ensures SameRecord(a, b, s) {
      if s != k { FromEntries(a, b, k, s); }
    }
  }

  /** The same for the digests that are computed, where no directory below holds a name that starts with the last
      byte. */
  lemma ChecksumTells(a: Tree, b: Tree, k: Key)
    requires Closed(a) == Closed(b) == true && Leaves(a) && Leaves(b) && k in a && k in b
    requires AllSkippable(a, k) && AllSkippable(b, k)
    ensures Scratch(a, k) == Scratch(b, k) <==> SameContent(a, b, k)
  {
    hide Closed, Leaves, SameContent, DigestOf, AllSkippable;
    ProperExactly(a, k);
    ProperExactly(b, k);
    DigestTells(a, b, k);
  }

  /** The first part of the digest of a directory is its header, whatever names there are below it. */
  lemma HeaderLeads(t: Tree, k: Key)
    requires k in t && t[k].kind == Dir && k + [SEP] in t && t[k + [SEP]].kind != Dir
    ensures var d := Scratch(t, k);
      d.ListOf? && d.parts != [] && d.parts[0] == Part([SEP], t[k + [SEP]].digest)
  {
    hide Parts, WalkFrom;
    PartsAt(Visits, t, k, Walk(t, k));
  }

  // ---- changes ----

  /** The directory that a path lies in. */
  function DirOf(k: Key): (d: Key)
    requires SEP in k
    ensures Under(d, k) && SEP !in k[|d| + 1..] && |d| < |k|
  {
    if k[|k| - 1] == SEP then k[..|k| - 1] else DirOf(k[..|k| - 1])
  }

  /** k is the directory d or lies above it. */
  predicate OnPath(k: Key, d: Key) {
    k == d || Under(k, d)
  }

  lemma AboveParent(q: Key, k: Key)
    requires SEP in k && Under(q, k)
    ensures OnPath(q, DirOf(k))
  {
    var d := DirOf(k);
    assert forall i | |d| < i < |k| :: k[i] == k[|d| + 1..][i - |d| - 1];
    assert k[|q|] == SEP && k[..|q|] == q && k[..|d|] == d;
    if |q| < |d| { assert d[..|q| + 1] == k[..|q| + 1]; }
  }

  lemma Comparable(a: Key, b: Key, s: Key)
    requires Under(a, s) && Under(b, s)
    ensures a == b || Under(a, b) || Under(b, a)
  {
    assert s[..|a| + 1] == a + [SEP] && s[..|b| + 1] == b + [SEP];
    if |a| < |b| { assert b[..|a| + 1] == s[..|a| + 1]; }
    if |b| < |a| { assert a[..|b| + 1] == s[..|b| + 1]; }
    if |a| == |b| { assert s[..|a|] == a && s[..|b|] == b; }
  }

  /** The path of something that can be changed: a named entry of a directory of the tree. */
  predicate InDir(t: Tree, k: Key) {
    SEP in k && k[|k| - 1] != SEP && DirOf(k) in t && t[DirOf(k)].kind == Dir
  }

  lemma InDirHasParent(t: Tree, k: Key)
    requires InDir(t, k)
    ensures SEP in k
  {
  }

  /** The tree without k and everything below it. */
  ghost function Cut(t: Tree, k: Key): Tree {
    map s | s in t && s != k && !Under(k, s) :: t[s]
  }

  lemma UnderHeader(k: Key, d: Key)
    requires Under(k, d + [SEP])
    ensures OnPath(k, d)
  {
    var h := d + [SEP];
    assert h[..|k| + 1] == k + [SEP];
    if |k| == |d| { assert h[..|k|] == d; } else { assert d[..|k| + 1] == h[..|k| + 1]; }
  }

  lemma UnderUnder(k: Key, d: Key, s: Key)
    requires Under(k, d) && Under(d, s)
    ensures Under(k, s)
  {
    assert k + [SEP] <= d <= s;
  }

  lemma CutParent(t: Tree, k: Key, s: Key)
    requires Closed(t) == true && s in Cut(t, k) && s != []
    ensures HasParent(Cut(t, k), s)
  {
    hide Closed;
    var d := ParentOf(t, s);
    assert Under(d, s);
    if Under(k, d) { UnderUnder(k, d, s); }
    assert d in Cut(t, k) && IsEntry(Cut(t, k), d, s);
  }

  lemma CutClosed(t: Tree, k: Key)
    requires Closed(t) && k != [] && k[|k| - 1] != SEP
    ensures Closed(Cut(t, k))
  {
    hide HasParent, Under;
    var now := Cut(t, k);
    assert [] in now by { if Under(k, []) { NothingAboveRoot(k); } }
    forall s | s in now && s != [] ensures HasParent(now, s) { CutParent(t, k, s); }
    forall d | d in now && now[d].kind == Dir ensures d + [SEP] in now {
      if Under(k, d + [SEP]) { UnderHeader(k, d); }
      assert (d + [SEP])[|d|] == SEP;
    }
  }

  lemma NothingAboveRoot(k: Key)
    ensures !Under(k, [])
  {
  }

  lemma {:induction false} AncestorIsDir(t: Tree, k: Key, s: Key)
    requires Closed(t) == true && s in t && Under(k, s)
    ensures k in t && t[k].kind == Dir
    decreases |s|
  {
    hide Closed;
    var d := ParentOf(t, s);
    if d != k {
      if s == k + [SEP] { HeaderOf(d, k); }
      if d != [] { DirKey(t, d); }
      EntryUnder(k, d, s);
      AncestorIsDir(t, k, d);
    }
  }

  lemma HeaderOf(d: Key, k: Key)
    requires k + [SEP] == d + [SEP] || IsChild(d, k + [SEP])
    ensures d == k
  {
    var h := k + [SEP];
    assert h[|h| - 1] == SEP && h[..|h| - 1] == k;
    if h == d + [SEP] { assert h[..|h| - 1] == d; } else { ChildBytes(d, h); }
  }

  /** A clean path: the root, or one that starts with a separator, does not end with one and has no two in a row. */
  ghost predicate Plain(d: Key) {
    (d != [] ==> d[0] == SEP && d[|d| - 1] != SEP) && forall i | 0 <= i < |d| - 1 :: d[i] != SEP || d[i + 1] != SEP
  }

  lemma PlainJoin(d: Key, s: Key)
    requires Plain(d) && IsChild(d, s)
    ensures Plain(s)
  {
    ChildBytes(d, s);
    assert s[..|d|] == d && s[|d|] == SEP;
    forall i | 0 <= i < |s| - 1 ensures s[i] != SEP || s[i + 1] != SEP {
      if i < |d| - 1 { assert s[i] == d[i] && s[i + 1] == d[i + 1]; }
      if i == |d| - 1 { assert s[i] == d[i]; }
    }
  }

  lemma {:induction false} PlainKey(t: Tree, s: Key)
    requires Closed(t) == true && s in t && t[s].kind != DirHeader
    ensures Plain(s)
    decreases |s|
  {
    hide Closed;
    if s != [] {
      var d := ParentOf(t, s);
      PlainKey(t, d);
      PlainJoin(d, s);
    }
  }

  lemma PlainPath(t: Tree, k: Key)
    requires Closed(t) == true && InDir(t, k)
    ensures Plain(k) && Plain(DirOf(k)) && IsChild(DirOf(k), k)
  {
    hide Closed;
    PlainKey(t, DirOf(k));
    assert |k| > |DirOf(k)| + 1 by { assert k[|DirOf(k)|] == SEP; }
    PlainJoin(DirOf(k), k);
  }

  lemma HeaderNotOver(k: Key, d: Key)
    requires Plain(d)
    ensures !OnPath(k + [SEP], d)
  {
    assert |d| > |k| + 1 ==> d[|k|] != SEP || d[|k| + 1] != SEP;
    assert (k + [SEP] + [SEP])[|k|] == SEP && (k + [SEP] + [SEP])[|k| + 1] == SEP;
  }

  /** Some changed directory is q or lies below it. */
  predicate OverDirty(dirty: set<Key>, q: Key) {
    exists d | d in dirty :: OnPath(q, d)
  }

  lemma OverMore(dirty: set<Key>, more: set<Key>, q: Key)
    ensures OverDirty(dirty, q) ==> OverDirty(dirty + more, q)
  {
    if d :| d in dirty && OnPath(q, d) { assert d in dirty + more; }
  }

  /** A tree with changes: the digests of directories are right, except above the changes, where there are only
      directories. */
  ghost predicate Pending(t: Tree, dirty: set<Key>) {
    && Closed(t) && Clean(t, dirty) && (forall s | s in t && t[s].kind != Dir :: t[s].digest != Unset)
    && (forall q | q in t && OverDirty(dirty, q) :: t[q].kind == Dir) && forall d | d in dirty :: Plain(d)
  }

  ghost predicate Clean(t: Tree, dirty: set<Key>) {
    forall q | q in t && t[q].kind == Dir && t[q].digest != Unset && !OverDirty(dirty, q) ::
      t[q].digest == Scratch(t, q)
  }

  /** The trees are the same except at k and below it. */
  ghost predicate Agree(t: Tree, now: Tree, k: Key) {
    forall s | s != k && !Under(k, s) :: (s in t <==> s in now) && (s in t ==> now[s] == t[s])
  }

  lemma OutsideSame(t: Tree, now: Tree, k: Key, q: Key)
    requires Agree(t, now, k) && q in now && q != k && !Under(k, q) && !Under(q, k)
    ensures SameBelow(t, now, q)
  {
    forall s | Under(q, s) ensures SameAt(t, now, s) {
      if Under(k, s) { Comparable(q, k, s); }
    }
  }

  function WithDir(t: Tree, k: Key, header: Digest): Tree {
    t[k := Record(Dir, Unset)][k + [SEP] := Record(DirHeader, header)]
  }

  lemma WithDirClosed(t: Tree, k: Key, header: Digest)
    requires Closed(t) && InDir(t, k)
    ensures Closed(WithDir(t, k, header))
  {
    hide HasParent, Under, IsChild;
    var now := WithDir(t, k, header);
    assert (k + [SEP])[|k|] == SEP;
    forall s | s in now && s != [] ensures HasParent(now, s) {
      if s == k || s == k + [SEP] { WithDirOwn(t, k, header); } else {
        var d := ParentOf(t, s);
        WithDirEntry(t, k, header, d, s);
      }
    }
  }

  lemma WithDirOwn(t: Tree, k: Key, header: Digest)
    requires Closed(t) == true && InDir(t, k)
    ensures HasParent(WithDir(t, k, header), k) && HasParent(WithDir(t, k, header), k + [SEP])
  {
    hide Closed;
    var now := WithDir(t, k, header);
    PlainPath(t, k);
    NotHeaderOf(t, k, DirOf(k));
    assert k != k + [SEP];
    assert now[DirOf(k)].kind == Dir && IsEntry(now, DirOf(k), k);
    assert now[k].kind == Dir && IsEntry(now, k, k + [SEP]);
  }

  lemma NotHeaderOf(t: Tree, k: Key, d: Key)
    requires Closed(t) == true && d in t && t[d].kind == Dir
    ensures d != k + [SEP]
  {
    if d != [] { DirKey(t, d); }
  }

  lemma WithDirEntry(t: Tree, k: Key, header: Digest, d: Key, s: Key)
    requires Closed(t) == true && d in t && t[d].kind == Dir && s in t && IsEntry(t, d, s) && s != k && s != k + [SEP]
    ensures HasParent(WithDir(t, k, header), s)
  {
    NotHeaderOf(t, k, d);
    var now := WithDir(t, k, header);
    assert now[d].kind == Dir && now[s] == t[s] && IsEntry(now, d, s);
  }

  lemma AddDirKeeps(t: Tree, dirty: set<Key>, k: Key, header: Digest)
    requires Pending(t, dirty) && InDir(t, k) && header != Unset
    ensures Pending(WithDir(t, k, header), dirty + {k})
  {
    hide Closed, DigestOf, Under, IsChild;
    var now := WithDir(t, k, header);
    WithDirClosed(t, k, header);
    PlainPath(t, k);
    assert OnPath(k, k);
    forall q | q in now && now[q].kind == Dir && now[q].digest != Unset && !OverDirty(dirty + {k}, q)
      ensures now[q].digest == Scratch(now, q) {
      assert !OnPath(q, k);
      AddDirSame(t, k, header, q);
      SameDigest(Visits, t, now, q);
      OverMore(dirty, {k}, q);
    }
    forall q | q in now && OverDirty(dirty + {k}, q) ensures now[q].kind == Dir {
      var d :| d in dirty + {k} && OnPath(q, d);
      AddDirOver(t, dirty, k, header, q, d);
    }
  }

  lemma AddDirSame(t: Tree, k: Key, header: Digest, q: Key)
    requires q in WithDir(t, k, header) && WithDir(t, k, header)[q].kind == Dir && !OnPath(q, k)
    ensures SameBelow(t, WithDir(t, k, header), q) && t[q] == WithDir(t, k, header)[q]
  {
    var now := WithDir(t, k, header);
    if Under(k, q) {
      forall s | Under(q, s) ensures SameAt(t, now, s) {}
    } else {
      OutsideSame(t, now, k, q);
    }
  }

  lemma AddDirOver(t: Tree, dirty: set<Key>, k: Key, header: Digest, q: Key, d: Key)
    requires Pending(t, dirty) && InDir(t, k) && d in dirty + {k} && OnPath(q, d) && q in WithDir(t, k, header)
      && Plain(k)
    ensures WithDir(t, k, header)[q].kind == Dir
  {
    hide Closed;
    HeaderNotOver(k, d);
    if d == k && q != k {
      AboveParent(q, k);
      if q != DirOf(k) { AncestorIsDir(t, q, DirOf(k)); }
    } else if q != k {
      assert OverDirty(dirty, q);
    }
  }

  lemma CutKeeps(t: Tree, dirty: set<Key>, k: Key)
    requires Pending(t, dirty) && InDir(t, k)
    ensures Pending(Cut(t, k), dirty + {DirOf(k)})
  {
    hide Closed, DigestOf, Under, IsChild;
    var now := Cut(t, k);
    CutClosed(t, k);
    PlainPath(t, k);
    forall q | q in now && now[q].kind == Dir && now[q].digest != Unset && !OverDirty(dirty + {DirOf(k)}, q)
      ensures now[q].digest == Scratch(now, q) {
      CutSame(t, now, k, q);
      SameDigest(Visits, t, now, q);
      OverMore(dirty, {DirOf(k)}, q);
    }
    forall q | q in now && OverDirty(dirty + {DirOf(k)}, q) ensures now[q].kind == Dir {
      var d :| d in dirty + {DirOf(k)} && OnPath(q, d);
      OverParent(t, dirty, k, q, d);
    }
  }

  lemma CutSame(t: Tree, now: Tree, k: Key, q: Key)
    requires SEP in k && Agree(t, now, k) && q in now && q != k && !Under(k, q) && !OnPath(q, DirOf(k))
    ensures SameBelow(t, now, q)
  {
    if Under(q, k) { AboveParent(q, k); }
    OutsideSame(t, now, k, q);
  }

  lemma OverParent(t: Tree, dirty: set<Key>, k: Key, q: Key, d: Key)
    requires Pending(t, dirty) && InDir(t, k) && d in dirty + {DirOf(k)} && OnPath(q, d) && q in t
    ensures t[q].kind == Dir
  {
    hide Closed;
    if d in dirty {
      assert OverDirty(dirty, q);
    } else if q != DirOf(k) {
      AncestorIsDir(t, q, DirOf(k));
    }
  }

  lemma AddFileKeeps(t: Tree, dirty: set<Key>, k: Key, r: Record)
    requires Pending(t, dirty) && InDir(t, k) && r.kind != Dir && r.kind != DirHeader && r.digest != Unset
      && !OverDirty(dirty, k)
    ensures Pending(Cut(t, k)[k := r], dirty + {DirOf(k)})
  {
    hide Closed, DigestOf, Under, IsChild;
    var now := Cut(t, k)[k := r];
    PlainPath(t, k);
    FileClosed(t, k, r);
    forall q | q in now && now[q].kind == Dir && now[q].digest != Unset && !OverDirty(dirty + {DirOf(k)}, q)
      ensures now[q].digest == Scratch(now, q) {
      CutSame(t, now, k, q);
      SameDigest(Visits, t, now, q);
      OverMore(dirty, {DirOf(k)}, q);
    }
    forall q | q in now && OverDirty(dirty + {DirOf(k)}, q) ensures now[q].kind == Dir {
      var d :| d in dirty + {DirOf(k)} && OnPath(q, d);
      if q == k { NotOverParent(dirty, k, d); } else { OverParent(t, dirty, k, q, d); }
    }
  }

  lemma NotOverParent(dirty: set<Key>, k: Key, d: Key)
    requires SEP in k && d in dirty + {DirOf(k)} && OnPath(k, d)
    ensures OverDirty(dirty, k)
  {
    assert !OnPath(k, DirOf(k));
  }

  lemma FileClosed(t: Tree, k: Key, r: Record)
    requires Closed(t) && InDir(t, k) && r.kind != Dir && r.kind != DirHeader && IsChild(DirOf(k), k)
    ensures Closed(Cut(t, k)[k := r])
  {
    hide HasParent, Under, IsChild;
    CutClosed(t, k);
    var now := Cut(t, k)[k := r];
    forall s | s in now && s != [] ensures HasParent(now, s) {
      FileParent(t, k, r, s);
    }
  }

  lemma FileParent(t: Tree, k: Key, r: Record, s: Key)
    requires Closed(t) == true && InDir(t, k) && r.kind != Dir && r.kind != DirHeader && IsChild(DirOf(k), k)
    requires s in Cut(t, k)[k := r] && s != []
    ensures HasParent(Cut(t, k)[k := r], s)
  {
    hide Closed;
    var now := Cut(t, k)[k := r];
    NotUnderOwn(k);
    if s == k {
      assert now[DirOf(k)].kind == Dir && IsEntry(now, DirOf(k), k);
    } else {
      CutClosed(t, k);
      var d := ParentOf(Cut(t, k), s);
      assert now[d].kind == Dir && IsEntry(now, d, s);
    }
  }

  lemma NotUnderOwn(k: Key)
    requires SEP in k
    ensures !Under(k, DirOf(k)) && DirOf(k) != k
  {
  }

  // ---- committing ----

  /** The directories above d. */
  ghost function Aboves(d: Key): set<Key> {
    set i | 0 <= i < |d| && d[i] == SEP :: d[..i]
  }

  lemma AboveMeaning(a: Key, d: Key)
    ensures a in Aboves(d) <==> Under(a, d)
  {
    if Under(a, d) { assert d[|a|] == SEP && d[..|a|] == a; }
  }

  lemma ParentPlain(d: Key)
    requires Plain(d) && d != []
    ensures SEP in d && Plain(DirOf(d)) && Aboves(d) == Aboves(DirOf(d)) + {DirOf(d)}
  {
    var p := DirOf(d);
    assert d[..|p|] == p && d[|p|] == SEP;
    forall i | 0 <= i < |p| ensures p[i] == d[i] {}
    forall a ensures a in Aboves(d) <==> a in Aboves(p) + {p} {
      AboveMeaning(a, d);
      AboveMeaning(a, p);
      if Under(a, d) { AboveParent(a, d); }
      if Under(a, p) { UnderUnder(a, p, d); }
    }
  }

  method AddParentToMap(d: Key, m: set<Key>) returns (now: set<Key>)
    requires Plain(d)
    ensures now == m + Aboves(d)
    decreases |d|
  {
    if d == [] { return m; }
    ParentPlain(d);
    now := AddParentToMap(DirOf(d), m + {DirOf(d)});
  }

  /** The keys of a tree on the way to a change. */
  ghost function Overs(t: Tree, dirty: set<Key>): set<Key> {
    set q | q in t && OverDirty(dirty, q)
  }

  /** Directories in ds have to be computed again. */
  function Reset(t: Tree, ds: set<Key>): Tree {
    map s | s in t :: if s in ds then Record(Dir, Unset) else t[s]
  }

  /** Committing leaves a proper tree exactly if whatever lies above a change is a directory: a file there would
      become a directory without a header. */
  lemma ResetClosedExactly(t: Tree, ds: set<Key>)
    requires Closed(t)
    ensures Closed(Reset(t, ds)) <==> forall q | q in t && q in ds :: t[q].kind == Dir
  {
    var now := Reset(t, ds);
    if forall q | q in t && q in ds :: t[q].kind == Dir {
      AlikeClosed(t, now);
    }
    if Closed(now) {
      forall q | q in t && q in ds ensures t[q].kind == Dir {
        assert now[q].kind == Dir;
        assert Under(q, q + [SEP]);
        AncestorIsDir(t, q, q + [SEP]);
      }
    }
  }

  /** What a change leaves of a directory that goes: records that were not there when the transaction began. */
  function DeleteBelow(t: Tree, node: Tree, k: Key): Tree {
    map s | s in t && !(s in node && Under(k, s)) :: t[s]
  }

  /** Deleting a directory leaves a proper tree exactly if nothing below it was added since the transaction began. */
  lemma DeleteClosedExactly(t: Tree, node: Tree, k: Key)
    requires Closed(t) == true && k in t && k != [] && k[|k| - 1] != SEP
    ensures Closed(DeleteBelow(t - {k}, node, k)) <==> forall s | s in t && Under(k, s) :: s in node
  {
    hide Closed;
    var now := DeleteBelow(t - {k}, node, k);
    if forall s | s in t && Under(k, s) :: s in node {
      assert now == Cut(t, k);
      CutClosed(t, k);
    }
    if Closed(now) {
      forall s | s in t && Under(k, s) ensures s in node {
        if s !in node { AncestorIsDir(now, k, s); }
      }
    }
  }

  datatype Change = Delete | PutDir(header: Digest) | Put(record: Record)

  /** What is put has a digest, and only a directory has a header. */
  predicate IsChange(change: Change) {
    match change
    case Delete => true
    case PutDir(header) => header != Unset
    case Put(r) => r.kind != Dir && r.kind != DirHeader && r.digest != Unset
  }

  /** The tree after a change; node is the tree when the transaction began. */
  function Changed(t: Tree, node: Tree, change: Change, k: Key): Tree {
    match change
    case Delete => if k in t && t[k].kind == Dir then DeleteBelow(t - {k}, node, k) else t - {k}
    case PutDir(header) => WithDir(t, k, header)
    case Put(r) => (if k in node && node[k].kind == Dir then DeleteBelow(t, node, k) else t)[k := r]
  }

  /** The change by keys: what is put is there, a directory with its header; what is deleted, and what is below where a
      directory is deleted or replaced, is gone if it was there when the transaction began; all else is as before. */
  ghost predicate ChangedTo(t: Tree, node: Tree, change: Change, k: Key, now: Tree) {
    match change
    case Delete => k !in now && LeftBut(t, node, {k}, k in t && t[k].kind == Dir, k, now)
    case PutDir(header) =>
      && k in now && now[k] == Record(Dir, Unset) && k + [SEP] in now && now[k + [SEP]] == Record(DirHeader, header)
      && LeftBut(t, node, {k, k + [SEP]}, false, k, now)
    case Put(r) => k in now && now[k] == r && LeftBut(t, node, {k}, k in node && node[k].kind == Dir, k, now)
  }

  ghost predicate LeftBut(t: Tree, node: Tree, put: set<Key>, emptied: bool, k: Key, now: Tree) {
    forall s | s !in put ::
      if emptied && Under(k, s) && s in node then s !in now else (s in now <==> s in t) && (s in t ==> now[s] == t[s])
  }

  lemma ChangedByKeys(t: Tree, node: Tree, change: Change, k: Key)
    ensures ChangedTo(t, node, change, k, Changed(t, node, change, k))
  {
    assert k != k + [SEP];
  }

  function Dirtied(dirty: set<Key>, change: Change, k: Key): set<Key>
    requires SEP in k
  {
    dirty + {if change.PutDir? then k else DirOf(k)}
  }

  /** Unless a directory is put, nothing below k was added since the transaction began, and what is not a directory
      does not replace one in which something has changed. */
  predicate Keeps(t: Tree, node: Tree, dirty: set<Key>, change: Change, k: Key) {
    && (!change.PutDir? ==> forall s | s in t && Under(k, s) :: s in node)
    && (change.Put? ==> !OverDirty(dirty, k))
  }

  lemma BelowDir(t: Tree, k: Key)
    requires t == map[] || Closed(t)
    ensures forall s | s in t && Under(k, s) :: k in t && t[k].kind == Dir
  {
    hide Closed;
    forall s | s in t && Under(k, s) ensures k in t && t[k].kind == Dir {
      AncestorIsDir(t, k, s);
    }
  }

  /** When the condition holds, k goes with everything below it. */
  lemma ChangedIsCut(t: Tree, node: Tree, dirty: set<Key>, change: Change, k: Key)
    requires Closed(t) && (node == map[] || Closed(node)) && Keeps(t, node, dirty, change, k)
    ensures change.Delete? ==> Changed(t, node, change, k) == Cut(t, k)
    ensures change.Put? ==> Changed(t, node, change, k) == Cut(t, k)[k := change.record]
    ensures change.PutDir? ==> Changed(t, node, change, k) == WithDir(t, k, change.header)
  {
    hide Closed;
    BelowDir(t, k);
    BelowDir(node, k);
    if change.Put? { assert Changed(t, node, change, k) == Cut(t, k)[k := change.record]; }
  }

  /** A change leaves a proper tree whose digests are right except above what changed, if and only if the condition
      holds. */
  lemma ChangeKeepsExactly(t: Tree, node: Tree, dirty: set<Key>, change: Change, k: Key)
    requires Pending(t, dirty) && (node == map[] || Closed(node)) && InDir(t, k) && IsChange(change)
    ensures Pending(Changed(t, node, change, k), Dirtied(dirty, change, k)) <==> Keeps(t, node, dirty, change, k)
  {
    if Keeps(t, node, dirty, change, k) {
      ChangedIsCut(t, node, dirty, change, k);
      match change
      case Delete => CutKeeps(t, dirty, k);
      case PutDir(header) => AddDirKeeps(t, dirty, k, header);
      case Put(r) => AddFileKeeps(t, dirty, k, r);
    }
    if Pending(Changed(t, node, change, k), Dirtied(dirty, change, k)) && !change.PutDir? {
      OnlyKept(t, node, dirty, change, k);
    }
  }

  lemma OnlyKept(t: Tree, node: Tree, dirty: set<Key>, change: Change, k: Key)
    requires Closed(t) == true && SEP in k && !change.PutDir? && IsChange(change)
    requires Pending(Changed(t, node, change, k), Dirtied(dirty, change, k))
    ensures Keeps(t, node, dirty, change, k)
  {
    hide Closed;
    var now := Changed(t, node, change, k);
    forall s | s in t && Under(k, s) ensures s in node {
      if s !in node {
        BelowDir(t, k);
        AncestorIsDir(now, k, s);
      }
    }
    if change.Put? { OverMore(dirty, {DirOf(k)}, k); }
  }

  // ---- changes that do not keep the tree proper ----

  /** Digests that are set were there when the transaction began. */
  ghost predicate Kept(t: Tree, node: Tree) {
    forall q | q in t && t[q].kind == Dir && t[q].digest != Unset :: q in node
  }

  /** A tree with changes that need not be proper: the digests of directories are right, except above the changes. */
  ghost predicate Loose(t: Tree, node: Tree, dirty: set<Key>) {
    && Clean(t, dirty) && (forall s | s in t && t[s].kind != Dir :: t[s].digest != Unset) && Kept(t, node)
    && (forall d | d in dirty :: Plain(d)) && forall q | q in t && t[q].kind == Dir :: Plain(q)
  }

  lemma PendingIsLoose(t: Tree, node: Tree, dirty: set<Key>)
    requires Pending(t, dirty) && Kept(t, node)
    ensures Loose(t, node, dirty)
  {
    hide Clean;
    forall q | q in t && t[q].kind == Dir ensures Plain(q) { PlainKey(t, q); }
  }

  lemma InDirPlain(t: Tree, k: Key)
    requires InDir(t, k) && forall q | q in t && t[q].kind == Dir :: Plain(q)
    ensures Plain(k) && Plain(DirOf(k))
  {
    assert |k| > |DirOf(k)| + 1 by { assert k[|DirOf(k)|] == SEP; }
    PlainJoin(DirOf(k), k);
  }

  /** Whatever is changed, digests stay right except above the changes. */
  lemma ChangeStaysLoose(t: Tree, node: Tree, dirty: set<Key>, change: Change, k: Key)
    requires Loose(t, node, dirty) && InDir(t, k) && IsChange(change)
    ensures Loose(Changed(t, node, change, k), node, Dirtied(dirty, change, k))
  {
    hide DigestOf, Plain, InDir;
    InDirHasParent(t, k);
    InDirPlain(t, k);
    var now, more := Changed(t, node, change, k), Dirtied(dirty, change, k);
    forall q | q in now && now[q].kind == Dir && now[q].digest != Unset && !OverDirty(more, q)
      ensures now[q].digest == Scratch(now, q)
    {
      OverMore(dirty, more - dirty, q);
      assert dirty + (more - dirty) == more;
      UnchangedBelow(t, node, dirty, change, k, q);
      SameDigest(Visits, t, now, q);
    }
  }

  /** Nothing has changed below a directory that has a digest and does not lie above the change. */
  lemma UnchangedBelow(t: Tree, node: Tree, dirty: set<Key>, change: Change, k: Key, q: Key)
    requires Kept(t, node) && SEP in k && IsChange(change) && !OverDirty(Dirtied(dirty, change, k), q)
    requires q in Changed(t, node, change, k) && Changed(t, node, change, k)[q].kind == Dir
    requires Changed(t, node, change, k)[q].digest != Unset
    ensures SameBelow(t, Changed(t, node, change, k), q) && t[q] == Changed(t, node, change, k)[q]
  {
    var now, d := Changed(t, node, change, k), if change.PutDir? then k else DirOf(k);
    assert d in Dirtied(dirty, change, k) && !OnPath(q, d);
    assert q != k && q in t && q in node;
    if Under(k, q) {
      forall s | Under(q, s) ensures SameAt(t, now, s) {}
    } else {
      if Under(q, k) && !change.PutDir? { AboveParent(q, k); }
      OutsideSame(t, now, k, q);
    }
  }

  /** A transaction that leaves a proper tree: the tree with its changes is proper, and whatever lies above a change is
      a directory. */
  predicate IsProper(t: Tree, dirty: set<Key>) {
    Closed(t) && forall q | q in t && OverDirty(dirty, q) :: t[q].kind == Dir
  }

  /** Whatever has been changed, the digests that are left when the transaction ends are right. The tree is proper, and
      the one with the changes, exactly if the transaction as a whole was proper. */
  lemma CommitExactly(t: Tree, node: Tree, dirty: set<Key>)
    requires Loose(t, node, dirty)
    ensures var now := Reset(t, Overs(t, dirty));
      && Loose(now, now, {}) && Good(now) && (Closed(now) && Alike(t, now) <==> IsProper(t, dirty))
  {
    hide DigestOf, Closed, Plain;
    var now := Reset(t, Overs(t, dirty));
    forall q | q in now && now[q].kind == Dir && now[q].digest != Unset ensures now[q].digest == Scratch(now, q) {
      NotReset(t, dirty, q);
      SameDigest(Visits, t, now, q);
    }
    forall q | q in now && now[q].kind == Dir ensures Plain(q) {
      if OverDirty(dirty, q) { PlainAbove(dirty, q); }
    }
    if IsProper(t, dirty) { AlikeClosed(t, now); }
    if Closed(now) && Alike(t, now) { AlikeClosed(now, t); }
  }

  /** Below a directory that does not lie above a change nothing is reset. */
  lemma NotReset(t: Tree, dirty: set<Key>, q: Key)
    requires q in t && !OverDirty(dirty, q)
    ensures SameBelow(t, Reset(t, Overs(t, dirty)), q)
  {
    forall s | Under(q, s) ensures SameAt(t, Reset(t, Overs(t, dirty)), s) {
      if OverDirty(dirty, s) {
        var d :| d in dirty && OnPath(s, d);
        if s != d { UnderUnder(q, s, d); }
      }
    }
  }

  lemma PlainAbove(dirty: set<Key>, q: Key)
    requires OverDirty(dirty, q) && forall d | d in dirty :: Plain(d)
    ensures Plain(q)
  {
    var d :| d in dirty && OnPath(q, d);
    if q != d {
      assert d[..|q|] == q && d[|q|] == SEP;
      assert forall i | 0 <= i < |q| :: q[i] == d[i];
    }
  }

  class CacheContext {
    var tree: Tree
    var active: bool      // a transaction is open
    var txn: Tree
    var node: Tree        // the tree when the transaction began
    var dirtyMap: set<Key>

    /** The digests are right, but the tree need not be proper. */
    ghost predicate Tracked()
      reads this
    {
      Loose(tree, tree, {}) && if active then Loose(txn, node, dirtyMap) && node == tree else dirtyMap == {}
    }

    ghost predicate Valid()
      reads this
    {
      && (tree == map[] || (Closed(tree) && Good(tree)))
      && (if active then Pending(txn, dirtyMap) && Kept(txn, node) && node == tree else dirtyMap == {})
    }

    constructor ()
      ensures Valid() && Tracked() && tree == map[] && !active
    {
      tree, active, txn, node, dirtyMap := map[], false, map[], map[], {};
    }

    lemma ValidIsTracked()
      requires Valid()
      ensures Tracked()
    {
      if tree != map[] {
        FirstTree(tree);
        ClosedHasHeader(tree);
        PendingIsLoose(tree, tree, {});
      }
      if active { PendingIsLoose(txn, node, dirtyMap); }
    }

    /** The tree with the changes so far. */
    function Current(): Tree
      reads this
    {
      if active then txn
      else if [SEP] in tree then tree
      else tree[[SEP] := Record(DirHeader, Content(0))][[] := Record(Dir, Unset)]
    }

    method Begin()
      requires Tracked()
      modifies this
      ensures Tracked() && active && txn == old(Current()) && tree == old(tree) && dirtyMap == old(dirtyMap)
      ensures old(Valid()) ==> Valid()
    {
      if active { return; }
      if Valid() { FirstTree(tree); }
      FirstLoose(tree);
      txn, node, active := Current(), tree, true;
    }

    /** The change keeps the tree proper. */
    predicate Allowed(change: Change, k: Key)
      reads this
    {
      Keeps(Current(), tree, dirtyMap, change, k)
    }

    /** Records a change to an entry of a directory. Digests stay right, and a proper tree stays proper exactly if the
        change is allowed. */
    method HandleChange(change: Change, k: Key)
      requires Tracked() && InDir(Current(), k) && IsChange(change)
      modifies this
      ensures Tracked() && active && tree == old(tree)
      ensures txn == Changed(old(Current()), tree, change, k) && dirtyMap == Dirtied(old(dirtyMap), change, k)
      ensures ChangedTo(old(Current()), tree, change, k, txn)
      ensures old(Valid()) ==> (Valid() <==> old(Allowed(change, k)))
      ensures old(Valid() && Allowed(change, k)) ==> txn == match change
        case Delete => Cut(old(Current()), k)
        case PutDir(header) => WithDir(old(Current()), k, header)
        case Put(r) => Cut(old(Current()), k)[k := r]
    {
      hide Pending, Closed, Good, Keeps, Changed, ChangedTo, Cut, WithDir, InDir, Loose, Kept;
      Begin();
      ChangedByKeys(txn, node, change, k);
      ChangeStaysLoose(txn, node, dirtyMap, change, k);
      if Valid() {
        Facts(this);
        ChangeKeepsExactly(txn, node, dirtyMap, change, k);
        if Keeps(txn, node, dirtyMap, change, k) { ChangedIsCut(txn, node, dirtyMap, change, k); }
      }
      InDirHasParent(txn, k);
      LooseIsKept(txn, node, dirtyMap, change, k);
      match change {
        case Delete => DeletePath(k);
        case PutDir(header) => PutDirectory(k, header);
        case Put(r) => PutFile(k, r);
      }
    }

    static lemma LooseIsKept(t: Tree, node: Tree, dirty: set<Key>, change: Change, k: Key)
      requires SEP in k && Loose(Changed(t, node, change, k), node, Dirtied(dirty, change, k))
      ensures Kept(Changed(t, node, change, k), node)
    {
    }

    method PutDirectory(k: Key, header: Digest)
      modifies `txn, `dirtyMap
      ensures txn == Changed(old(txn), node, PutDir(header), k) && dirtyMap == old(dirtyMap) + {k}
    {
      txn := txn[k := Record(Dir, Unset)][k + [SEP] := Record(DirHeader, header)];
      dirtyMap := dirtyMap + {k};
    }

    static lemma Facts(c: CacheContext)
      requires c.Valid() && c.active
      ensures c.node == c.tree && Pending(c.txn, c.dirtyMap) && Closed(c.txn) && (c.node == map[] || Closed(c.node))
    {
    }

    method DeletePath(k: Key)
      requires SEP in k
      modifies `txn, `dirtyMap
      ensures txn == Changed(old(txn), node, Delete, k) && dirtyMap == old(dirtyMap) + {DirOf(k)}
    {
      if k in txn {
        var v := txn[k];
        txn := txn - {k};
        if v.kind == Dir { txn := DeleteBelow(txn, node, k); }
      }
      dirtyMap := dirtyMap + {DirOf(k)};
    }

    method PutFile(k: Key, r: Record)
      requires SEP in k
      modifies `txn, `dirtyMap
      ensures txn == Changed(old(txn), node, Put(r), k) && dirtyMap == old(dirtyMap) + {DirOf(k)}
    {
      if k in node && node[k].kind == Dir { txn := DeleteBelow(txn, node, k); }
      txn := txn[k := r];
      dirtyMap := dirtyMap + {DirOf(k)};
    }

    /** Ends the transaction. Every digest that is still set is the one from scratch. The tree is proper, and the one
        with the changes, exactly if the transaction as a whole was proper. */
    method CommitActiveTransaction()
      requires Tracked() && active
      modifies this
      ensures Tracked() && !active && dirtyMap == {} && tree == Reset(old(txn), Overs(old(txn), old(dirtyMap)))
        && Good(tree)
      ensures Closed(tree) && Alike(old(txn), tree) <==> IsProper(old(txn), old(dirtyMap))
      ensures IsProper(old(txn), old(dirtyMap)) ==> Valid()
    {
      hide Closed, Good, Clean, Alike, IsProper, Kept;
      CommitExactly(txn, node, dirtyMap);
      var ds := WithParents(dirtyMap);
      assert Reset(txn, ds) == Reset(txn, Overs(txn, dirtyMap));
      tree := Reset(txn, ds);
      active, dirtyMap, node := false, {}, map[];
    }

    static method WithParents(dirty: set<Key>) returns (ds: set<Key>)
      requires forall d | d in dirty :: Plain(d)
      ensures forall q :: q in ds <==> OverDirty(dirty, q)
    {
      ds := dirty;
      var todo := dirty;
      while todo != {}
        invariant todo <= dirty
        invariant forall q :: q in ds <==> q in dirty || exists d | d in dirty - todo :: Under(q, d)
        decreases todo
      {
        var d :| d in todo;
        forall q ensures q in Aboves(d) <==> Under(q, d) { AboveMeaning(q, d); }
        ds := AddParentToMap(d, ds);
        todo := todo - {d};
      }
    }

    lemma ValidIsProper()
      requires Valid() && active
      ensures IsProper(txn, dirtyMap)
    {
    }

    /** The digest of a path is the one from scratch, whatever changes came before. */
    method ChecksumOf(k: Key) returns (digest: Digest)
      requires Valid() && k in (if active then txn else tree)
      modifies this
      ensures Valid() && !active && k in tree && digest == Scratch(tree, k) && digest != Unset
      ensures tree[k].digest == digest
      ensures digest == Proper(tree, k) <==> AllSkippable(tree, k)
      ensures Alike(old(if active then txn else tree), tree)
    {
      hide Pending, Closed, Good, DigestOf;
      if active {
        ValidIsTracked();
        ValidIsProper();
        CommitActiveTransaction();
      }
      ghost var root := tree;
      NotEmpty(tree, k);
      var cr;
      var now;
      cr, now := Checksum(tree, tree, k);
      StoredIsGood(root, now);
      ProperExactly(now, k);
      tree := now;
      digest := cr.digest;
    }
  }

  /** After any stream of changes and checksums, however it is divided into transactions, every digest of a directory
      that is set is the one from scratch once it is committed. As long as each transaction as a whole has been proper
      when it ended, the tree is proper, and such a digest is the one from header and children exactly if the walk
      below the directory does not go astray. */
  method Run(steps: nat) returns (c: CacheContext, proper: bool)
    ensures !c.active && Good(c.tree)
    ensures proper ==> c.Valid() && RightExactly(c.tree)
  {
    hide Closed, Good, Pending, DigestOf, RightExactly, Loose, IsProper, CacheContext.Valid, CacheContext.Tracked;
    c := new CacheContext();
    proper := true;
    NothingIsGood(c.tree);
    for n := 0 to steps
      invariant fresh(c) && c.Tracked() && Good(c.tree) && (proper && !c.active ==> c.Valid())
        && (!proper ==> !c.active)
    {
      var change: Change, k: Key := *, *;
      if proper && InDir(c.Current(), k) && IsChange(change) {
        c.HandleChange(change, k);
      } else if proper {
        proper := EndTransaction(c);
        if proper && k in c.tree { var digest := Ask(c, k); }
      }
    }
    if proper { proper := EndTransaction(c); }
    if proper { ValidIsRight(c); }
  }

  /** What is put is what the digest then tells: that of a file is the one that was put, and that of a directory starts
      with the header that was put, so another one gives another digest. */
  method PutThenAsk(c: CacheContext, change: Change, k: Key) returns (digest: Digest)
    requires c.Valid() && InDir(c.Current(), k) && IsChange(change) && !change.Delete? && c.Allowed(change, k)
    modifies c
    ensures c.Valid() && !c.active && k in c.tree
    ensures match change
      case Delete => true
      case PutDir(header) => digest.ListOf? && digest.parts != [] && digest.parts[0] == Part([SEP], header)
      case Put(r) => digest == r.digest
  {
    hide Closed, Good, Pending, Loose, Scratch, Keeps, WithDir, Cut, Changed, InDir, CacheContext.Valid;
    c.ValidIsTracked();
    c.HandleChange(change, k);
    digest := c.ChecksumOf(k);
    if change.PutDir? { HeaderLeads(c.tree, k); } else { DigestOfFile(c.tree, k); }
  }

  lemma DigestOfFile(t: Tree, k: Key)
    requires k in t && t[k].kind != Dir
    ensures Scratch(t, k) == t[k].digest
  {
  }

  method EndTransaction(c: CacheContext) returns (proper: bool)
    requires c.Tracked() && Good(c.tree) && (!c.active ==> c.Valid())
    modifies c
    ensures c.Tracked() && !c.active && Good(c.tree) && (proper ==> c.Valid())
    ensures proper == if old(c.active) then IsProper(old(c.txn), old(c.dirtyMap)) else true
  {
    hide Closed, Good, Loose, IsProper, CacheContext.Valid;
    proper := true;
    if c.active {
      proper := IsProper(c.txn, c.dirtyMap);
      c.CommitActiveTransaction();
    }
  }

  method Ask(c: CacheContext, k: Key) returns (digest: Digest)
    requires c.Valid() && !c.active && k in c.tree
    modifies c
    ensures c.Valid() && c.Tracked() && !c.active && Good(c.tree) && k in c.tree
      && digest == Scratch(c.tree, k)
  {
    hide Closed, Loose, DigestOf, Good;
    digest := c.ChecksumOf(k);
    c.ValidIsTracked();
    NotEmpty(c.tree, k);
  }

  lemma ValidIsRight(c: CacheContext)
    requires c.Valid()
    ensures RightExactly(c.tree)
  {
    GoodIsRight(c.tree);
  }

  lemma NothingIsGood(t: Tree)
    requires t == map[]
    ensures Good(t)
  {
  }

  ghost predicate RightExactly(t: Tree) {
    forall k | k in t && t[k].digest != Unset :: t[k].digest == Proper(t, k) <==> AllSkippable(t, k)
  }

  lemma GoodIsRight(t: Tree)
    requires t == map[] || (Closed(t) && Good(t))
    ensures RightExactly(t)
  {
    forall k | k in t && t[k].digest != Unset ensures t[k].digest == Proper(t, k) <==> AllSkippable(t, k) {
      ProperExactly(t, k);
    }
  }

  lemma FirstTree(tree: Tree)
    requires tree == map[] || (Closed(tree) && Good(tree))
    ensures Pending(if [SEP] in tree then tree
      else tree[[SEP] := Record(DirHeader, Content(0))][[] := Record(Dir, Unset)], {})
  {
    if tree == map[] {
      var t: Tree := map[[SEP] := Record(DirHeader, Content(0)), [] := Record(Dir, Unset)];
      assert [] + [SEP] == [SEP];
      assert IsEntry(t, [], [SEP]);
    } else {
      assert [] + [SEP] == [SEP];
    }
  }

  lemma ClosedHasHeader(tree: Tree)
    requires Closed(tree)
    ensures [SEP] in tree
  {
    assert [] + [SEP] == [SEP];
  }

  lemma FirstLoose(tree: Tree)
    requires Loose(tree, tree, {})
    ensures Loose(if [SEP] in tree then tree
      else tree[[SEP] := Record(DirHeader, Content(0))][[] := Record(Dir, Unset)], tree, {})
  {
    hide DigestOf;
    if [SEP] !in tree {
      var t := tree[[SEP] := Record(DirHeader, Content(0))][[] := Record(Dir, Unset)];
      forall q | q in t && t[q].kind == Dir && t[q].digest != Unset ensures t[q].digest == Scratch(t, q) {
        assert q in tree && t[q] == tree[q] && !OverDirty({}, q);
        forall s | Under(q, s) ensures SameAt(tree, t, s) {}
        SameDigest(Visits, tree, t, q);
      }
    }
  }

  lemma NotEmpty(tree: Tree, k: Key)
    requires (tree == map[] || (Closed(tree) && Good(tree))) && k in tree
    ensures Closed(tree) && Good(tree) && Stored(tree, tree)
  {
  }

  // ---- where the walk and the deletion go wrong ----

  /** A root directory with a directory that has a file in it, with a name of one byte. */
  function Sample(header: Digest, file: Record, name: Byte): Tree {
    map[[] := Record(Dir, Unset), [0] := Record(DirHeader, header), [0, 1] := Record(Dir, Unset),
        [0, 1, 0] := Record(DirHeader, header), [0, 1, 0, name] := file]
  }

  lemma SampleClosed(header: Digest, file: Record, name: Byte)
    requires file.kind == File && name != SEP
    ensures Closed(Sample(header, file, name))
  {
    SampleEntries(header, file, name);
    assert [] + [SEP] == [0] && [0, 1] + [SEP] == [0, 1, 0];
    hide HasParent;
  }

  lemma SampleEntries(header: Digest, file: Record, name: Byte)
    requires file.kind == File && name != SEP
    ensures var t := Sample(header, file, name);
      HasParent(t, [0]) && HasParent(t, [0, 1]) && HasParent(t, [0, 1, 0]) && HasParent(t, [0, 1, 0, name])
  {
    var t := Sample(header, file, name);
    var root: Key, d: Key := [], [0, 1];
    assert root + [SEP] == [0] && d + [SEP] == [0, 1, 0];
    assert IsEntry(t, root, [0]) && IsEntry(t, root, d) && IsEntry(t, d, [0, 1, 0]) && IsEntry(t, d, [0, 1, 0, name]);
  }

  /** A file added to a new directory outlives the directory when both happen in one transaction. */
  lemma OrphanIsLeft(header: Digest, file: Record, node: Tree)
    requires file.kind == File && [0, 1, 0, 1] !in node
    ensures Closed(Sample(header, file, 1))
      && [0, 1, 0, 1] in DeleteBelow(Sample(header, file, 1) - {[0, 1]}, node, [0, 1])
    ensures !Closed(DeleteBelow(Sample(header, file, 1) - {[0, 1]}, node, [0, 1]))
  {
    hide Closed;
    SampleClosed(header, file, 1);
    DeleteClosedExactly(Sample(header, file, 1), node, [0, 1]);
    var f: Key := [0, 1, 0, 1];
    assert f in Sample(header, file, 1) && Under([0, 1], f);
  }

  /** A file put in the place of a directory becomes a directory without a header, when something below the directory
      was changed in the same transaction. */
  lemma FileBecomesDirectory(header: Digest, file: Record, other: Record)
    requires file.kind == other.kind == File
    ensures var t := Sample(header, file, 1); var a: Key, f: Key := [0, 1], [0, 1, 0, 1];
      var u := Changed(t, t, Put(other), f);
      var v := Changed(u, t, Put(other), a);
      var dirty := Dirtied(Dirtied({}, Put(other), f), Put(other), a);
      Closed(t) && Closed(u) && Closed(v) && v[a] == other && !Closed(Reset(v, Overs(v, dirty)))
  {
    hide Closed, Reset;
    var t := Sample(header, file, 1);
    var a: Key, f: Key := [0, 1], [0, 1, 0, 1];
    var u := Changed(t, t, Put(other), f);
    var v := Changed(u, t, Put(other), a);
    SampleClosed(header, file, 1);
    SampleClosed(header, other, 1);
    SampleParents();
    SampleChanged(header, file, other);
    FileClosed(u, a, other);
    var dirty := Dirtied(Dirtied({}, Put(other), f), Put(other), a);
    ResetClosedExactly(v, Overs(v, dirty));
    assert OnPath(a, a) && a in dirty;
    assert a in Overs(v, dirty) && v[a].kind == File;
  }

  lemma SampleChanged(header: Digest, file: Record, other: Record)
    requires file.kind == other.kind == File
    ensures var t := Sample(header, file, 1); var u := Sample(header, other, 1);
      && Changed(t, t, Put(other), [0, 1, 0, 1]) == u
        && Changed(u, t, Put(other), [0, 1]) == Cut(u, [0, 1])[[0, 1] := other]
      && InDir(u, [0, 1]) && IsChild([], [0, 1])
  {
    InSample(header, other);
  }

  lemma SampleParents()
    ensures DirOf([0, 1]) == [] && DirOf([0, 1, 0, 1]) == [0, 1]
  {
    var a: Key, f: Key := [0, 1], [0, 1, 0, 1];
    assert a[..1] == [0] && f[..3] == [0, 1, 0] && f[..3][..2] == a;
  }

  lemma InSample(header: Digest, file: Record)
    requires file.kind == File
    ensures InDir(Sample(header, file, 1), [0, 1]) && IsChild([], [0, 1])
  {
    SampleParents();
    var a: Key := [0, 1];
    assert a[1..] == [1];
  }

  /** With a name that starts with the last byte, the walk over the root directory stops at the file, which is not a
      child of the root, and the digest of the root is not the one from its header and children. */
  lemma WalkGoesAstray(header: Digest, file: Record)
    requires file.kind == File
    ensures var t := Sample(header, file, LAST); var f: Key := [0, 1, 0, 255];
      Closed(t) && f in Walk(t, []) && !IsStop(t, [], f) && Scratch(t, []) != Proper(t, [])
  {
    hide Closed, DigestOf, Walk, IsChild, Sample;
    SampleClosed(header, file, LAST);
    LastName();
    LastDigest(header, file);
    LastSampleWalk(header, file);
    assert Walk(Sample(header, file, LAST), [])[2] == [0, 1, 0, 255];
  }

  lemma LastDigest(header: Digest, file: Record)
    requires file.kind == File
    ensures [] in Sample(header, file, LAST) && [0, 1, 0, 255] in Sample(header, file, LAST)
    ensures Scratch(Sample(header, file, LAST), []) != Proper(Sample(header, file, LAST), [])
  {
    hide Closed, DigestOf, IsChild;
    var t := Sample(header, file, LAST);
    SampleClosed(header, file, LAST);
    LastName();
    assert Lies(t, [], [0, 1]) && HoldsLast(t, [0, 1]);
    ProperExactly(t, []);
  }

  lemma LastName()
    ensures IsChild([0, 1], [0, 1, 0, 255]) && !IsChild([], [0, 1, 0, 255])
  {
    var f: Key := [0, 1, 0, 255];
    assert f[3..] == [255] && f[1..][1] == SEP;
  }

  lemma LastSampleWalk(header: Digest, file: Record)
    requires file.kind == File
    ensures Walk(Sample(header, file, LAST), []) == [[0], [0, 1], [0, 1, 0, 255]]
  {
    hide Less;
    var t := Sample(header, file, LAST);
    var root: Key, h: Key, d: Key, f: Key := [], [0], [0, 1], [0, 1, 0, 255];
    LastSampleAhead(header, file);
    Total(d, Least(Ahead(t, root, h)));
    assert root + [SEP] == h;
    calc {
      Walk(t, root);
      WalkFrom(t, root, h);
      [h] + WalkFrom(t, root, d);
      [h] + ([d] + WalkFrom(t, root, f));
      [h] + ([d] + [f]);
    }
  }

  lemma LastSampleAhead(header: Digest, file: Record)
    requires file.kind == File
    ensures var t := Sample(header, file, LAST);
      IsMin(Ahead(t, [], [0]), [0, 1]) && Ahead(t, [], [0, 1]) == {[0, 1, 0, 255]} && Ahead(t, [], [0, 1, 0, 255]) == {}
  {
    var t := Sample(header, file, LAST);
    var root: Key, h: Key, d: Key, f: Key := [], [0], [0, 1], [0, 1, 0, 255];
    forall x | x in t ensures x <= f && (x != f ==> Less(x, f)) && Less(x, f + [SEP]) {
      if x != f { PrefixOrder(x, f); }
      PrefixOrder(x, f + [SEP]);
    }
    forall x | x in t && x != root && x != h ensures d <= x && AtLeast(x, d) {
      if x != d { PrefixOrder(d, x); }
      Total(d, x);
    }
    FirstBytes();
    assert d + [SEP, LAST] == f;
    assert Bound(t, d) == f && Bound(t, f) == f + [SEP] && Bound(t, h) == h + [SEP];
    hide Less;
    Total(f, f);
    Total(d, d);
  }

  lemma PrefixOrder(a: Key, b: Key)
    requires a < b
    ensures Less(a, b)
  {
    PrefixFirst(a, b[|a|..]);
    assert a + b[|a|..] == b;
  }

  lemma FirstBytes()
    ensures Less([0], [0, 0]) && Less([], [0, 0]) && AtLeast([0, 1], [0, 0]) && AtLeast([0, 1, 0, 255], [0, 0])
  {
    assert [0][1..] == [] && [0, 0][1..] == [0] && [0, 1][1..] == [1] && [0, 1, 0, 255][1..] == [1, 0, 255];
  }

  // ---- paths and keys ----

  const SLASH: Byte := 47

  function ConvertPathToKey(p: Key): (k: Key)
    ensures |k| == |p| && (SLASH !in k) && (SEP !in p ==> forall i | 0 <= i < |p| :: k[i] == SEP <==> p[i] == SLASH)
  {
    seq(|p|, i requires 0 <= i < |p| => if p[i] == SLASH then SEP else p[i])
  }

  function ConvertKeyToPath(k: Key): (p: Key)
    ensures |p| == |k| && SEP !in p
  {
    seq(|k|, i requires 0 <= i < |k| => if k[i] == SEP then SLASH else k[i])
  }

  /** The two conversions undo each other exactly on paths without the zero byte and keys without a slash. */
  lemma ConversionRoundTrip(p: Key)
    ensures ConvertKeyToPath(ConvertPathToKey(p)) == p <==> SEP !in p
    ensures ConvertPathToKey(ConvertKeyToPath(p)) == p <==> SLASH !in p
  {
    if SEP in p {
      var i :| 0 <= i < |p| && p[i] == SEP;
      assert ConvertKeyToPath(ConvertPathToKey(p))[i] != p[i];
    }
    if SLASH in p {
      var i :| 0 <= i < |p| && p[i] == SLASH;
      assert ConvertPathToKey(ConvertKeyToPath(p))[i] != p[i];
    }
  }
}
