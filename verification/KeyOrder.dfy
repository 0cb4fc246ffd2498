/** The order in which a radix tree lists its keys: byte strings, compared byte by byte. */
module KeyOrder {
  type Byte = b: int | 0 <= b < 256
  type Key = seq<Byte>

  predicate Less(a: Key, b: Key) {
    b != [] && (a == [] || a[0] < b[0] || (a[0] == b[0] && Less(a[1..], b[1..])))
  }

  predicate AtLeast(a: Key, b: Key) { !Less(a, b) }

  lemma {:induction false} Total(a: Key, b: Key)
    ensures Less(a, b) || a == b || Less(b, a)
    ensures !(Less(a, b) && Less(b, a)) && !Less(a, a)
  {
    if a != [] && b != [] {
      Total(a[1..], b[1..]);
      assert a[0] == b[0] && a[1..] == b[1..] ==> a == b by { assert a == [a[0]] + a[1..] && b == [b[0]] + b[1..]; }
    }
    if a != [] { Total(a[1..], a[1..]); }
  }

  lemma {:induction false} Transitive(a: Key, b: Key, c: Key)
    requires Less(a, b) && Less(b, c)
    ensures Less(a, c)
  {
    if a != [] && a[0] == b[0] == c[0] { Transitive(a[1..], b[1..], c[1..]); }
  }

  /** A common start does not matter. */
  lemma {:induction false} SamePrefix(p: Key, a: Key, b: Key)
    ensures Less(p + a, p + b) <==> Less(a, b)
  {
    if p == [] {
      assert p + a == a && p + b == b;
    } else {
      SamePrefix(p[1..], a, b);
      assert (p + a)[1..] == p[1..] + a && (p + b)[1..] == p[1..] + b;
    }
  }

  lemma PrefixFirst(p: Key, x: Key)
    requires x != []
    ensures Less(p, p + x)
  {
    SamePrefix(p, [], x);
    assert p + [] == p;
  }

  /** If a comes before b, so does everything that starts with a, unless b starts with a. */
  lemma {:induction false} ExtendLess(a: Key, x: Key, b: Key)
    requires Less(a, b) && !(a <= b)
    ensures Less(a + x, b)
  {
    if a != [] && a[0] == b[0] {
      assert a[1..] <= b[1..] ==> a <= b;
      ExtendLess(a[1..], x, b[1..]);
      assert (a + x)[1..] == a[1..] + x;
    }
  }

  /** Nothing lies between a key and that key followed by a zero byte. */
  lemma {:induction false} Successor(a: Key, b: Key)
    ensures Less(a, b) <==> AtLeast(b, a + [0])
  {
    if a == [] {
      assert a + [0] == [0] && [0][1..] == [];
      assert Less(b, [0]) <==> b == [];
    } else if b != [] {
      Successor(a[1..], b[1..]);
      assert (a + [0])[1..] == a[1..] + [0];
    }
  }

  /** What lies between two keys with a common start has it too. */
  lemma {:induction false} Between(p: Key, x: Key, t: Key, y: Key)
    requires AtLeast(t, p + x) && Less(t, p + y)
    ensures p <= t
  {
    if p != [] {
      assert (p + x)[0] == p[0] && (p + y)[0] == p[0] && (p + x)[1..] == p[1..] + x && (p + y)[1..] == p[1..] + y;
      assert t != [] && t[0] == p[0];
      Between(p[1..], x, t[1..], y);
      assert p[1..] <= t[1..];
    }
  }

  // ---- sorted lists ----

  ghost predicate Sorted(s: seq<Key>) {
    forall i, j | 0 <= i < j < |s| :: Less(s[i], s[j])
  }

  ghost function Elements(s: seq<Key>): set<Key> {
    set i | 0 <= i < |s| :: s[i]
  }

  ghost predicate IsMin(ks: set<Key>, m: Key) {
    m in ks && forall k | k in ks :: AtLeast(k, m)
  }

  lemma {:induction false} HasMin(ks: set<Key>) returns (m: Key)
    requires ks != {}
    ensures IsMin(ks, m)
  {
    var x :| x in ks;
    var rest := ks - {x};
    if rest == {} {
      m := x;
      assert ks == {x};
      Total(x, x);
    } else {
      m := HasMin(rest);
      Total(x, m);
      Total(x, x);
      if Less(x, m) {
        forall k | k in ks ensures AtLeast(k, x) {
          if k != x {
            assert k in rest;
            if Less(k, x) { Transitive(k, x, m); }
          }
        }
        m := x;
      }
    }
  }

  ghost function Least(ks: set<Key>): (m: Key)
    requires ks != {}
    ensures IsMin(ks, m)
  {
    assert exists m :: IsMin(ks, m) by { var m := HasMin(ks); }
    var m :| IsMin(ks, m);
    m
  }

  /** The keys of a set in order. */
  ghost function InOrder(ks: set<Key>): (s: seq<Key>)
    ensures Sorted(s) && Elements(s) == ks
    decreases ks
  {
    if ks == {} then []
    else
      var m := Least(ks);
      var rest := InOrder(ks - {m});
      Follows(ks, m, rest);
      [m] + rest
  }

  lemma Follows(ks: set<Key>, m: Key, rest: seq<Key>)
    requires IsMin(ks, m) && Sorted(rest) && Elements(rest) == ks - {m}
    ensures Sorted([m] + rest) && Elements([m] + rest) == ks
  {
    var s := [m] + rest;
    forall i, j | 0 <= i < j < |s| ensures Less(s[i], s[j]) {
      if i == 0 {
        assert rest[j - 1] in Elements(rest);
        Total(m, rest[j - 1]);
      }
    }
    forall k ensures k in Elements(s) <==> k in ks {
      if k in ks && k != m {
        assert k in Elements(rest);
        var i :| 0 <= i < |rest| && rest[i] == k;
        assert s[i + 1] == k;
      }
      assert s[0] == m;
      if k in Elements(s) && k != m {
        var i :| 0 <= i < |s| && s[i] == k;
        assert rest[i - 1] == k && k in Elements(rest);
      }
    }
  }

  /** There is only one way to list a set of keys in order. */
  lemma {:induction false} OneOrder(a: seq<Key>, b: seq<Key>)
    requires Sorted(a) && Sorted(b) && Elements(a) == Elements(b)
    ensures a == b
  {
    if a != [] { assert a[0] in Elements(a); }
    if b != [] { assert b[0] in Elements(b); }
    if a != [] && b != [] {
      FirstIsLeast(a, b[0]);
      FirstIsLeast(b, a[0]);
      Total(a[0], b[0]);
      TailElements(a);
      TailElements(b);
      OneOrder(a[1..], b[1..]);
      assert a == [a[0]] + a[1..] && b == [b[0]] + b[1..];
    }
  }

  lemma FirstIsLeast(a: seq<Key>, k: Key)
    requires Sorted(a) && k in Elements(a)
    ensures a != [] && (k == a[0] || Less(a[0], k))
  {
    var i :| 0 <= i < |a| && a[i] == k;
  }

  lemma TailElements(a: seq<Key>)
    requires Sorted(a) && a != []
    ensures Sorted(a[1..]) && Elements(a[1..]) == Elements(a) - {a[0]}
  {
    forall k | k in Elements(a) && k != a[0] ensures k in Elements(a[1..]) {
      var i :| 0 <= i < |a| && a[i] == k;
      assert a[1..][i - 1] == k;
    }
    forall i | 1 <= i < |a| ensures a[i] != a[0] { Total(a[0], a[i]); }
  }
}
