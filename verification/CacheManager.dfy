/** The cache manager: identifiers of cache keys found through links, and saving and querying keys. */
module CacheManager {
  import opened SolverTypes
  import opened KeyGraph
  import opened MemoryStore

  type Memo = map<Key, Id>   // CacheKey.ids of every key, for one manager

  ghost predicate Grows(a: Memo, b: Memo) {
    forall k | k in a :: k in b && b[k] == a[k]
  }

  /** Identifiers that were handed out are below the counter. */
  ghost predicate Issued(byID: Keys, ids: Memo, n: nat) {
    && (forall a | a in byID :: a.Minted? ==> a.n < n)
    && (forall k | k in ids :: ids[k].Minted? ==> ids[k].n < n)
  }

  predicate LinkedFrom(byID: Keys, ids: Memo, d: Key, l: Link, m: Id) {
    d in ids && ids[d] in byID && LinkTo(l, m) in byID[ids[d]].links
  }

  /** m is linked from one of the alternatives of input i of k. */
  ghost predicate InputMatches(byID: Keys, ids: Memo, k: Key, i: nat, m: Id)
    requires i < |k.deps|
  {
    exists d | d in k.deps[i].alts :: LinkedFrom(byID, ids, d.key, LinkFor(k, i, d), m)
  }

  ghost predicate MatchesUpTo(byID: Keys, ids: Memo, k: Key, n: nat, m: Id)
    requires n <= |k.deps|
  {
    forall i | 0 <= i < n :: InputMatches(byID, ids, k, i, m)
  }

  /** The matches of a key with inputs: linked, for every input, from at least one alternative of it. */
  ghost predicate KeyMatches(byID: Keys, ids: Memo, k: Key, m: Id) {
    MatchesUpTo(byID, ids, k, |k.deps|, m)
  }

  /** The alternatives of the first n inputs of k have identifiers. */
  ghost predicate InputsKnown(ids: Memo, k: Key, n: nat)
    requires n <= |k.deps|
  {
    forall i, d | 0 <= i < n && d in k.deps[i].alts :: d.key in ids
  }

  /** The storage answers for k: whatever alternative of an input is asked for, k is found. */
  ghost predicate Persistent(byID: Keys, ids: Memo, k: Key) {
    k in ids && forall i, d | 0 <= i < |k.deps| && d in k.deps[i].alts ::
      LinkedFrom(byID, ids, d.key, LinkFor(k, i, d), ids[k])
  }

  /** Keys that got an identifier on the way are smaller than k. */
  ghost predicate OnlySmaller(a: Memo, b: Memo, k: Key) {
    forall o | o in b && o !in a :: o < k
  }

  lemma StableMatches(byID: Keys, a: Memo, b: Memo, k: Key, n: nat, m: Id)
    requires Grows(a, b) == true && n <= |k.deps| && InputsKnown(a, k, n)
    ensures MatchesUpTo(byID, a, k, n, m) <==> MatchesUpTo(byID, b, k, n, m)
  {
    forall i | 0 <= i < n ensures InputMatches(byID, a, k, i, m) <==> InputMatches(byID, b, k, i, m) {
      forall d | d in k.deps[i].alts
        ensures LinkedFrom(byID, a, d.key, LinkFor(k, i, d), m) <==> LinkedFrom(byID, b, d.key, LinkFor(k, i, d), m)
      {
      }
    }
  }

  lemma MoreMatches(before: Keys, now: Keys, a: Memo, b: Memo, k: Key, m: Id)
    requires Grows(a, b) && Extended(before, now) && KeyMatches(before, a, k, m)
    ensures KeyMatches(now, b, k, m)
  {
    forall i | 0 <= i < |k.deps| ensures InputMatches(now, b, k, i, m) {
      assert InputMatches(before, a, k, i, m);
      var d :| d in k.deps[i].alts && LinkedFrom(before, a, d.key, LinkFor(k, i, d), m);
      assert LinkedFrom(now, b, d.key, LinkFor(k, i, d), m);
    }
  }

  /** A key is not one of its own inputs. */
  lemma OwnIdIrrelevant(byID: Keys, a: Memo, b: Memo, k: Key, m: Id)
    requires a.Keys + {k} == b.Keys && forall o | o in a && o != k :: a[o] == b[o]
    ensures KeyMatches(byID, a, k, m) <==> KeyMatches(byID, b, k, m)
  {
    forall i | 0 <= i < |k.deps| ensures InputMatches(byID, a, k, i, m) <==> InputMatches(byID, b, k, i, m) {
      forall d | d in k.deps[i].alts
        ensures LinkedFrom(byID, a, d.key, LinkFor(k, i, d), m) <==> LinkedFrom(byID, b, d.key, LinkFor(k, i, d), m)
      {
        AlternativeSmaller(k, i, d);
      }
    }
  }

  lemma AlternativeSmaller(k: Key, i: nat, d: KeySel)
    requires i < |k.deps| && d in k.deps[i].alts
    ensures d.key < k && d.key != k
  {
    var j :| 0 <= j < |k.deps[i].alts| && k.deps[i].alts[j] == d;
    assert k.deps[i].alts[j].key < k;
  }

  /** The same matches as those of the edge index, for keys with inputs. */
  lemma SameMatches(byID: Keys, ids: Memo, k: Key, m: Id)
    requires k.deps != []
    ensures KeyMatches(byID, ids, k, m) <==> Matches(Graph(byID, {}), map c | c in ids :: [ids[c]], k, m)
  {
    var memo := map c | c in ids :: [ids[c]];
    forall i | 0 <= i < |k.deps|
      ensures InputMatches(byID, ids, k, i, m) <==> MatchesInput(Graph(byID, {}), memo, k, i, m) {
      forall d | d in k.deps[i].alts
        ensures LinkedFrom(byID, ids, d.key, LinkFor(k, i, d), m) <==> MatchesVia(Graph(byID, {}), memo, k, i, d, m)
      {
        if d.key in ids { assert IdsOf(memo, d.key) == [ids[d.key]]; assert ids[d.key] in IdsOf(memo, d.key); }
      }
    }
  }

  class Manager {
    const store: Store
    var ids: Memo
    var nextID: nat

    ghost predicate Valid()
      reads this, store
    {
      store.Valid() && Issued(store.byID, ids, nextID)
    }

    constructor ()
      ensures Valid() && fresh(store) && store.byID == map[]
    {
      store := new Store();
      ids, nextID := map[], 0;
    }

    /** The identifier of a key: memoised, derived from a key without inputs, or found through links. */
    method GetID(k: Key) returns (id: Id)
      requires Valid() == true
      modifies this
      ensures Valid() == true && Grows(old(ids), ids) && k in ids && ids[k] == id && old(nextID) <= nextID
      ensures forall o | o in ids && o !in old(ids) :: o == k || o < k
      ensures k in old(ids) ==> ids == old(ids)
      ensures id.Minted? ==> id.n < nextID
      ensures k !in old(ids) && k.deps == [] ==> id == Root(k.digest, k.output)
      ensures k !in old(ids) && k.deps != [] ==>
        if exists m :: KeyMatches(store.byID, ids, k, m) then KeyMatches(store.byID, ids, k, id)
        else id.Minted? && old(nextID) <= id.n && id !in store.byID && forall o | o in ids && o != k :: ids[o] != id
      decreases k, 1
    {
      if k in ids { return ids[k]; }
      if k.deps == [] {
        id := Root(k.digest, k.output);
      } else {
        id := GetIDFromDeps(k);
      }
      ghost var before := ids;
      ids := ids[k := id];
      forall m ensures KeyMatches(store.byID, before, k, m) <==> KeyMatches(store.byID, ids, k, m) {
        OwnIdIrrelevant(store.byID, before, ids, k, m);
      }
    }

    /** A key with inputs gets one of its matches as identifier, and a new one only if it has none. */
    method GetIDFromDeps(k: Key) returns (id: Id)
      requires Valid() == true && k.deps != []
      modifies this
      ensures Valid() == true && Grows(old(ids), ids) && old(nextID) <= nextID && OnlySmaller(old(ids), ids, k)
      ensures id.Minted? ==> id.n < nextID
      ensures if exists m :: KeyMatches(store.byID, ids, k, m) then KeyMatches(store.byID, ids, k, id)
              else id.Minted? && old(nextID) <= id.n && id !in store.byID && forall o | o in ids :: ids[o] != id
      decreases k, 0
    {
      var matches: set<Id>, i := {}, 0;
      while i < |k.deps| && (i == 0 || matches != {})
        invariant 0 <= i <= |k.deps|
        invariant Valid() == Grows(old(ids), ids) == true && old(nextID) <= nextID && OnlySmaller(old(ids), ids, k)
        invariant InputsKnown(ids, k, i)
        invariant i > 0 ==> forall m :: m in matches <==> MatchesUpTo(store.byID, ids, k, i, m)
        decreases |k.deps| - i
      {
        ghost var before := ids;
        var candidates := Candidates(k, i);
        forall m ensures MatchesUpTo(store.byID, before, k, i, m) <==> MatchesUpTo(store.byID, ids, k, i, m) {
          StableMatches(store.byID, before, ids, k, i, m);
        }
        matches := if i == 0 then candidates else matches * candidates;
        i := i + 1;
      }
      assert forall m :: KeyMatches(store.byID, ids, k, m) ==> MatchesUpTo(store.byID, ids, k, i, m);
      if matches != {} {
        id :| id in matches;
        assert KeyMatches(store.byID, ids, k, id);
        MatchIsKey(store, ids, k, id);
      } else {
        id := Minted(nextID);
        nextID := nextID + 1;
      }
    }

    /** The keys linked from the alternatives of input i. */
    method Candidates(k: Key, i: nat) returns (found: set<Id>)
      requires Valid() == true && i < |k.deps|
      modifies this
      ensures Valid() == Grows(old(ids), ids) == true && old(nextID) <= nextID && OnlySmaller(old(ids), ids, k)
      ensures forall d | d in k.deps[i].alts :: d.key in ids
      ensures forall m :: m in found <==> InputMatches(store.byID, ids, k, i, m)
      decreases k, 0, 0
    {
      found := {};
      var alts := k.deps[i].alts;
      for j := 0 to |alts|
        invariant Valid() == Grows(old(ids), ids) == true && old(nextID) <= nextID && OnlySmaller(old(ids), ids, k)
        invariant forall n | 0 <= n < j :: alts[n].key in ids
        invariant forall m :: m in found <==>
          exists n | 0 <= n < j :: LinkedFrom(store.byID, ids, alts[n].key, LinkFor(k, i, alts[n]), m)
      {
        AlternativeSmaller(k, i, alts[j]);
        var c := GetID(alts[j].key);
        var targets := store.WalkLinks(c, LinkFor(k, i, alts[j]));
        found := found + targets;
      }
    }

    /** Makes sure that k is found from every alternative of every input, and so is an alternative that it was not
        found from before. */
    method EnsurePersistentKey(k: Key)
      requires Valid() == true
      modifies this, store
      ensures Valid() == Grows(old(ids), ids) == Extended(old(store.byID), store.byID)
        == ResultsKept(old(store.byID), store.byID) == true
      ensures Persistent(store.byID, ids, k) && old(nextID) <= nextID
      decreases k, 1
    {
      hide Store.Valid, Issued, Grows, Extended, ResultsKept;
      NothingYet(ids, store.byID);
      var id := GetID(k);
      ghost var start := ids;
      GrowsNot(ids);
      for i := 0 to |k.deps|
        invariant Valid() == Grows(old(ids), ids) == Grows(start, ids) == Extended(old(store.byID), store.byID)
          == ResultsKept(old(store.byID), store.byID) == true
        invariant old(nextID) <= nextID && (id.Minted? ==> id.n < nextID)
        invariant forall x, d | 0 <= x < i && d in k.deps[x].alts ::
          LinkedFrom(store.byID, ids, d.key, LinkFor(k, x, d), id)
      {
        ghost var ids0, byID0 := ids, store.byID;
        PersistInput(k, i, id);
        GrowsTwice(old(ids), ids0, ids);
        GrowsTwice(start, ids0, ids);
        ExtendedTwice(old(store.byID), byID0, store.byID);
        StayLinked(byID0, store.byID, ids0, ids);
      }
      GrowsAt(start, ids, k);
    }

    method PersistInput(k: Key, i: nat, id: Id)
      requires Valid() == true && i < |k.deps| && (id.Minted? ==> id.n < nextID)
      modifies this, store
      ensures Valid() == Grows(old(ids), ids) == Extended(old(store.byID), store.byID)
        == ResultsKept(old(store.byID), store.byID) == true && old(nextID) <= nextID
      ensures forall d | d in k.deps[i].alts :: LinkedFrom(store.byID, ids, d.key, LinkFor(k, i, d), id)
      decreases k, 0
    {
      hide Store.Valid, Issued, Grows, Extended, ResultsKept;
      NothingYet(ids, store.byID);
      var alts := k.deps[i].alts;
      for j := 0 to |alts|
        invariant Valid() == Grows(old(ids), ids) == Extended(old(store.byID), store.byID)
          == ResultsKept(old(store.byID), store.byID) == true && old(nextID) <= nextID
        invariant forall n | 0 <= n < j :: LinkedFrom(store.byID, ids, alts[n].key, LinkFor(k, i, alts[n]), id)
      {
        ghost var ids0, byID0 := ids, store.byID;
        AlternativeSmaller(k, i, alts[j]);
        PersistAlternative(alts[j].key, LinkFor(k, i, alts[j]), id);
        GrowsTwice(old(ids), ids0, ids);
        ExtendedTwice(old(store.byID), byID0, store.byID);
        StayLinked(byID0, store.byID, ids0, ids);
      }
    }

    method PersistAlternative(d: Key, l: Link, id: Id)
      requires Valid() == true && (id.Minted? ==> id.n < nextID)
      modifies this, store
      ensures Valid() == Grows(old(ids), ids) == Extended(old(store.byID), store.byID)
        == ResultsKept(old(store.byID), store.byID) == true && old(nextID) <= nextID
      ensures LinkedFrom(store.byID, ids, d, l, id)
      ensures if LinkedFrom(old(store.byID), ids, d, l, id) then store.byID == old(store.byID)
              else Persistent(store.byID, ids, d)
      decreases d, 2
    {
      hide Store.Valid, Linked;
      var c := GetID(d);
      if !store.HasLink(c, l, id) {
        EnsurePersistentKey(d);
        LinkedExtends(store.byID, c, l, id);
        StaysPersistent(store.byID, Linked(store.byID, c, l, id), ids, d);
        store.AddLink(c, l, id);
      }
    }

    /** Saves result r under key k. */
    method Save(k: Key, r: ResultID, created: Time)
      requires Valid() == true
      modifies this, store
      ensures Valid() == Grows(old(ids), ids) == Extended(old(store.byID), store.byID) == true && old(nextID) <= nextID
      ensures Persistent(store.byID, ids, k) && ids[k] in store.byID
      ensures r in store.byID[ids[k]].results && store.byID[ids[k]].results[r] == created
    {
      hide Store.Valid, Held;
      var id := GetID(k);
      HeldExtends(store.byID, id, r, created);
      store.AddResult(id, r, created);
      EnsurePersistentKey(k);
    }

    /** The keys linked from any of the given keys, as one input of an operation; afterwards each of the
        given keys is linked to all of them. */
    method Query(deps: seq<KeySel>, q: Question) returns (found: set<Id>)
      requires Valid() == true
      modifies this, store
      ensures Valid() == Grows(old(ids), ids) == Extended(old(store.byID), store.byID) == true && old(nextID) <= nextID
      ensures deps == [] ==> store.byID == old(store.byID) && ids == old(ids)
      ensures forall n | 0 <= n < |deps| :: deps[n].key in ids
      ensures deps == [] ==> found == if store.Exists(Root(q.digest, q.output)) then {Root(q.digest, q.output)} else {}
      ensures deps != [] ==> forall m :: m in found <==>
        exists n | 0 <= n < |deps| :: Finds(old(store.byID), ids, deps[n], q, m)
      ensures FindOnly(store.byID, ids, deps, q, found) && forall m | m in found :: AllFind(store.byID, ids, deps, q, m)
      ensures (forall m | m in found :: AllFind(old(store.byID), ids, deps, q, m)) ==> store.byID == old(store.byID)
    {
      hide Store.Valid, Issued, Grows, Extended;
      NothingYet(ids, store.byID);
      if deps == [] {
        found := if store.Exists(Root(q.digest, q.output)) then {Root(q.digest, q.output)} else {};
        return;
      }
      var results;
      found, results := WalkAll(deps, q);
      LinkAll(deps, q, found, results);
    }

    method WalkAll(deps: seq<KeySel>, q: Question) returns (found: set<Id>, results: seq<set<Id>>)
      requires Valid() == true
      modifies this
      ensures Valid() == Grows(old(ids), ids) == true && old(nextID) <= nextID && |results| == |deps|
      ensures forall n | 0 <= n < |deps| :: deps[n].key in ids
      ensures forall n, m | 0 <= n < |deps| :: m in results[n] <==> Finds(store.byID, ids, deps[n], q, m)
      ensures forall m :: m in found <==> exists n | 0 <= n < |deps| :: m in results[n]
    {
      hide Store.Valid, Issued;
      found, results := {}, [];
      for i := 0 to |deps|
        invariant Valid() == Grows(old(ids), ids) == true && old(nextID) <= nextID && |results| == i
        invariant forall n | 0 <= n < i :: deps[n].key in ids
        invariant forall n, m | 0 <= n < i :: m in results[n] <==> Finds(store.byID, ids, deps[n], q, m)
        invariant forall m :: m in found <==> exists n | 0 <= n < i :: m in results[n]
      {
        var c := GetID(deps[i].key);
        var targets := store.WalkLinks(c, q.For(deps[i].selector));
        forall m ensures m in found + targets <==> exists n | 0 <= n < i + 1 :: m in (results + [targets])[n] {
          if m in targets { assert m in (results + [targets])[i]; }
          if m in found { var n :| 0 <= n < i && m in results[n]; assert m in (results + [targets])[n]; }
        }
        results, found := results + [targets], found + targets;
      }
    }

    /** Links every key that was found to every given key that did not lead to it. */
    method LinkAll(deps: seq<KeySel>, q: Question, found: set<Id>, results: seq<set<Id>>)
      requires Valid() == true && |results| == |deps| && forall n | 0 <= n < |deps| :: deps[n].key in ids
      requires forall n, m | 0 <= n < |deps| :: m in results[n] <==> Finds(store.byID, ids, deps[n], q, m)
      requires forall m :: m in found <==> exists n | 0 <= n < |deps| :: m in results[n]
      modifies store
      ensures Valid() == Extended(old(store.byID), store.byID) == true
      ensures FindOnly(store.byID, ids, deps, q, found) && forall m | m in found :: AllFind(store.byID, ids, deps, q, m)
      ensures (forall m | m in found :: AllFind(old(store.byID), ids, deps, q, m)) ==> store.byID == old(store.byID)
    {
      hide Store.Valid, Extended, AllFind, FindOnly;
      NothingYet(ids, store.byID);
      FoundExist(this, deps, q, found, results);
      var todo := found;
      while todo != {}
        invariant todo <= found && Valid() == Extended(old(store.byID), store.byID) == true
        invariant FindOnly(store.byID, ids, deps, q, found)
        invariant forall m | m in found - todo :: AllFind(store.byID, ids, deps, q, m)
        invariant (forall m | m in found - todo :: AllFind(old(store.byID), ids, deps, q, m)) ==>
          store.byID == old(store.byID)
        decreases todo
      {
        var m :| m in todo;
        ghost var before := store.byID;
        LinkFound(deps, q, m, results, found, old(store.byID));
        StayFound(before, store.byID, ids, deps, q);
        ExtendedTwice(old(store.byID), before, store.byID);
        todo := todo - {m};
      }
    }

    method LinkFound(deps: seq<KeySel>, q: Question, m: Id, results: seq<set<Id>>, ghost found: set<Id>,
      ghost start: Keys)
      requires Valid() == Extended(start, store.byID) == true && |results| == |deps|
      requires forall n | 0 <= n < |deps| :: deps[n].key in ids
      requires m in found && (m.Minted? ==> m.n < nextID) && FindOnly(store.byID, ids, deps, q, found)
      requires forall n | 0 <= n < |deps| :: m in results[n] <==> Finds(start, ids, deps[n], q, m)
      modifies store
      ensures Valid() == Extended(old(store.byID), store.byID) == true
      ensures FindOnly(store.byID, ids, deps, q, found) && AllFind(store.byID, ids, deps, q, m)
      ensures AllFind(start, ids, deps, q, m) ==> store.byID == old(store.byID)
    {
      hide Store.Valid, Extended, FindOnly;
      NothingYet(ids, store.byID);
      GrowsNot(ids);
      StayLinked(start, store.byID, ids, ids);
      for n := 0 to |deps|
        invariant Valid() == Extended(old(store.byID), store.byID) == true
        invariant FindOnly(store.byID, ids, deps, q, found)
        invariant forall x | 0 <= x < |deps| && (x < n || m in results[x]) :: Finds(store.byID, ids, deps[x], q, m)
        invariant (forall x | 0 <= x < n :: m in results[x]) ==> store.byID == old(store.byID)
      {
        if m !in results[n] {
          ghost var before := store.byID;
          LinkOne(deps[n], q, m, deps, found);
          ExtendedTwice(old(store.byID), before, store.byID);
          StayLinked(before, store.byID, ids, ids);
        }
      }
    }

    method LinkOne(d: KeySel, q: Question, m: Id, ghost deps: seq<KeySel>, ghost found: set<Id>)
      requires Valid() == true && d.key in ids && m in found && (m.Minted? ==> m.n < nextID)
      requires FindOnly(store.byID, ids, deps, q, found)
      modifies store
      ensures Valid() == Extended(old(store.byID), store.byID) == true
      ensures FindOnly(store.byID, ids, deps, q, found) && Finds(store.byID, ids, d, q, m)
    {
      hide Store.Valid, Linked;
      var c := ids[d.key];
      LinkedExtends(store.byID, c, q.For(d.selector), m);
      store.AddLink(c, q.For(d.selector), m);
    }

    /** The results of a key that the result storage still has; the others are released. */
    method Records(id: Id, exists_: ResultID -> bool) returns (found: set<ResultID>)
      requires Valid() == true
      modifies store
      ensures Valid() == true
      ensures found == set r | id in old(store.byID) && r in old(store.byID)[id].results && exists_(r)
      ensures (forall r | id in old(store.byID) && r in old(store.byID)[id].results :: exists_(r)) ==>
        store.byID == old(store.byID)
      ensures forall a | a in store.byID ::
        a in old(store.byID) && forall r | r in old(store.byID)[a].results && exists_(r) :: r in store.byID[a].results
    {
      hide Store.Valid, Collected, Graph, Bare;
      found := {};
      if id !in store.byID { return; }
      var results := store.byID[id].results.Keys;
      var todo := results;
      while todo != {}
        invariant Valid() == true && todo <= results && found == set r | r in results - todo && exists_(r)
        invariant (forall r | r in results - todo :: exists_(r)) ==> store.byID == old(store.byID)
        invariant forall a | a in store.byID ::
          a in old(store.byID) && forall r | r in old(store.byID)[a].results && exists_(r) :: r in store.byID[a].results
        decreases todo
      {
        var r :| r in todo;
        if exists_(r) { found := found + {r}; } else { store.Release(r); }
        todo := todo - {r};
      }
    }

    /** Once saved, a key is found from every single alternative of each of its inputs, with its result. */
    method SaveThenQuery(k: Key, r: ResultID, created: Time, i: nat, d: KeySel, exists_: ResultID -> bool)
      returns (found: set<Id>, records: set<ResultID>)
      requires Valid() == true && i < |k.deps| && d in k.deps[i].alts && exists_(r)
      modifies this, store
      ensures Valid() == true && k in ids && ids[k] in found && r in records
    {
      hide Store.Valid, Grows, Extended, Issued;
      Save(k, r, created);
      ghost var ids0, byID0 := ids, store.byID;
      assert LinkedFrom(byID0, ids0, d.key, LinkFor(k, i, d), ids0[k]);
      found := Query([d], Question(i, k.digest, k.output));
      GrowsAt(ids0, ids, k);
      GrowsAt(ids0, ids, d.key);
      assert Finds(byID0, ids, [d][0], Question(i, k.digest, k.output), ids0[k]);
      ExtendedAt(byID0, store.byID, ids0[k]);
      var id := GetID(k);
      records := Records(id, exists_);
    }

    /** A new key that shares with a saved one an alternative of each input never gets an identifier of its own. */
    method ResolveShared(k: Key, other: Key) returns (id: Id)
      requires Valid() == true && Persistent(store.byID, ids, k) && k.deps != []
      requires SharesAlternatives(k, other) && other !in ids
      modifies this
      ensures Valid() == true && other in ids && id == ids[other] && k in ids
      ensures KeyMatches(store.byID, ids, other, ids[k]) && KeyMatches(store.byID, ids, other, id) && id in store.byID
    {
      hide Store.Valid, Grows, Extended, Issued, Persistent, KeyMatches;
      ghost var ids0 := ids;
      PersistentKey(store.byID, ids, k);
      SharedMatches(store.byID, ids, k, other);
      id := GetID(other);
      NothingYet(ids, store.byID);
      MoreMatches(store.byID, store.byID, ids0, ids, other, ids0[k]);
      GrowsAt(ids0, ids, k);
      MatchIsKey(store, ids, other, id);
    }

    /** Asking again, with all of the keys or with any one of them, finds the same and changes nothing. */
    method QueryTwice(deps: seq<KeySel>, q: Question, n: nat) returns (found: set<Id>, again: set<Id>, alone: set<Id>)
      requires Valid() == true && n < |deps|
      modifies this, store
      ensures Valid() == true && again == found && alone == found
    {
      hide Store.Valid, Grows, Extended, Issued;
      found := Query(deps, q);
      ghost var ids0, byID0 := ids, store.byID;
      again := Query(deps, q);
      SameAnswer(byID0, ids0, ids, deps, deps, q, found, again);
      ghost var ids1, byID1 := ids, store.byID;
      alone := Query([deps[n]], q);
      SameAnswer(byID1, ids1, ids, deps, [deps[n]], q, again, alone);
    }
  }

  /** The two keys are the same operation and have an alternative in common for every input. */
  ghost predicate SharesAlternatives(k: Key, other: Key) {
    && other.digest == k.digest && other.output == k.output && |other.deps| == |k.deps|
    && forall i | 0 <= i < |k.deps| :: SharesInput(k, other, i)
  }

  ghost predicate SharesInput(k: Key, other: Key, i: nat)
    requires i < |k.deps| == |other.deps|
  {
    exists d :: d in k.deps[i].alts && d in other.deps[i].alts
  }

  lemma SharedMatches(byID: Keys, ids: Memo, k: Key, other: Key)
    requires Persistent(byID, ids, k) && SharesAlternatives(k, other)
    ensures KeyMatches(byID, ids, other, ids[k])
  {
    forall i | 0 <= i < |other.deps| ensures InputMatches(byID, ids, other, i, ids[k]) {
      assert SharesInput(k, other, i);
      var d :| d in k.deps[i].alts && d in other.deps[i].alts;
      assert LinkedFrom(byID, ids, d.key, LinkFor(k, i, d), ids[k]);
    }
  }

  lemma PersistentKey(byID: Keys, ids: Memo, k: Key)
    requires Persistent(byID, ids, k)
    ensures k in ids
  {
  }

  lemma ExtendedAt(a: Keys, b: Keys, id: Id)
    requires Extended(a, b) && id in a
    ensures id in b && a[id].results.Keys <= b[id].results.Keys
  {
  }

  lemma SameAnswer(byID: Keys, a: Memo, b: Memo, deps: seq<KeySel>, some: seq<KeySel>, q: Question, found: set<Id>,
    again: set<Id>)
    requires FindOnly(byID, a, deps, q, found) && (forall m | m in found :: AllFind(byID, a, deps, q, m)) && Grows(a, b)
    requires some != [] && forall n | 0 <= n < |some| :: some[n] in deps && some[n].key in a
    requires forall m :: m in again <==> exists n | 0 <= n < |some| :: Finds(byID, b, some[n], q, m)
    ensures again == found
  {
    forall m ensures m in again <==> m in found {
      if m in again {
        var n :| 0 <= n < |some| && Finds(byID, b, some[n], q, m);
        var x :| 0 <= x < |deps| && deps[x] == some[n];
        assert Finds(byID, a, deps[x], q, m);
      }
      if m in found {
        var x :| 0 <= x < |deps| && deps[x] == some[0];
        assert AllFind(byID, a, deps, q, m);
        assert Finds(byID, a, deps[x], q, m);
        assert Finds(byID, b, some[0], q, m);
      }
    }
  }

  /** The given keys lead only to keys that were found. */
  ghost predicate FindOnly(byID: Keys, ids: Memo, deps: seq<KeySel>, q: Question, found: set<Id>) {
    forall n, m | 0 <= n < |deps| && Finds(byID, ids, deps[n], q, m) :: m in found
  }

  /** Each of the given keys leads to m. */
  ghost predicate AllFind(byID: Keys, ids: Memo, deps: seq<KeySel>, q: Question, m: Id) {
    forall n | 0 <= n < |deps| :: Finds(byID, ids, deps[n], q, m)
  }

  lemma StayFound(a: Keys, b: Keys, ids: Memo, deps: seq<KeySel>, q: Question)
    requires Extended(a, b) == true
    ensures forall m | AllFind(a, ids, deps, q, m) :: AllFind(b, ids, deps, q, m)
  {
    GrowsNot(ids);
    StayLinked(a, b, ids, ids);
  }

  /** Which input of which operation is asked for. */
  datatype Question = Question(input: nat, digest: Digest, output: int) {
    function For(selector: Digest): Link { Link(input, digest, output, selector) }
  }

  ghost predicate Finds(byID: Keys, ids: Memo, d: KeySel, q: Question, m: Id) {
    LinkedFrom(byID, ids, d.key, q.For(d.selector), m)
  }

  lemma FoundExist(mgr: Manager, deps: seq<KeySel>, q: Question, found: set<Id>, results: seq<set<Id>>)
    requires mgr.store.Valid() == true && |results| == |deps|
    requires forall n, m | 0 <= n < |deps| :: m in results[n] <==> Finds(mgr.store.byID, mgr.ids, deps[n], q, m)
    requires forall m :: m in found <==> exists n | 0 <= n < |deps| :: m in results[n]
    ensures forall m | m in found :: m in mgr.store.byID
    ensures FindOnly(mgr.store.byID, mgr.ids, deps, q, found)
  {
    TargetsExist(mgr.store.byID);
    forall m | m in found ensures m in mgr.store.byID {
      var n :| 0 <= n < |deps| && m in results[n];
      assert Finds(mgr.store.byID, mgr.ids, deps[n], q, m);
    }
  }

  lemma NothingYet(ids: Memo, byID: Keys)
    ensures Grows(ids, ids) && Extended(byID, byID) && ResultsKept(byID, byID)
  {
  }

  lemma GrowsNot(ids: Memo)
    ensures Grows(ids, ids)
  {
  }

  lemma GrowsAt(a: Memo, b: Memo, k: Key)
    requires Grows(a, b) == true && k in a
    ensures k in b && b[k] == a[k]
  {
  }

  lemma GrowsTwice(a: Memo, b: Memo, c: Memo)
    requires Grows(a, b) == Grows(b, c) == true
    ensures Grows(a, c)
  {
  }

  lemma ExtendedTwice(a: Keys, b: Keys, c: Keys)
    requires Extended(a, b) == Extended(b, c) == true
    ensures Extended(a, c) && (ResultsKept(a, b) && ResultsKept(b, c) ==> ResultsKept(a, c))
  {
  }

  lemma StayLinked(a: Keys, b: Keys, ids: Memo, more: Memo)
    requires Extended(a, b) == Grows(ids, more) == true
    ensures forall d, l, m | LinkedFrom(a, ids, d, l, m) :: LinkedFrom(b, more, d, l, m)
  {
  }

  lemma StaysPersistent(a: Keys, b: Keys, ids: Memo, k: Key)
    requires Extended(a, b) && Persistent(a, ids, k)
    ensures Persistent(b, ids, k)
  {
  }

  lemma MatchIsKey(store: Store, ids: Memo, k: Key, m: Id)
    requires store.Valid() && k.deps != [] && KeyMatches(store.byID, ids, k, m)
    ensures m in store.byID
  {
    assert InputMatches(store.byID, ids, k, 0, m);
    var d :| d in k.deps[0].alts && LinkedFrom(store.byID, ids, d.key, LinkFor(k, 0, d), m);
    TargetsExist(store.byID);
  }
}
