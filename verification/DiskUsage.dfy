/** Disk usage of the snapshot cache: which records are in use and which are shared with the outside. */
module DiskUsage {
  type RecID = string

  /** `refs` counts the references to a record, also those held by the records on top of it; with
      `doubleRef` the record holds its parents twice, because an equal record does so too. */
  datatype Usage = Usage(refs: int, parents: seq<RecID>, doubleRef: bool, shared: bool)

  type Usages = map<RecID, Usage>

  /** One reference that a record holds to the parent at some position. */
  datatype Hold = Hold(child: RecID, position: nat, second: bool)

  ghost predicate ParentsKnown(m: Usages) {
    forall c, i | c in m && 0 <= i < |m[c].parents| :: m[c].parents[i] in m
  }

  ghost predicate IsHold(m: Usages, h: Hold) {
    h.child in m && h.position < |m[h.child].parents| && (h.second ==> m[h.child].doubleRef)
  }

  /** The holds of the given records. */
  ghost function HoldsOf(m: Usages, cs: set<RecID>): set<Hold> {
    set c, i: nat, b | c in cs && c in m && 0 <= i < |m[c].parents| && b in {false, true} && (b ==> m[c].doubleRef) ::
      Hold(c, i, b)
  }

  ghost function On(m: Usages, holds: set<Hold>, p: RecID): set<Hold> {
    set h | h in holds && IsHold(m, h) && m[h.child].parents[h.position] == p
  }

  /** Every record is referenced from outside `external` times, and by the given holds. */
  ghost predicate Counted(m: Usages, refs: Usages, external: map<RecID, nat>, holds: set<Hold>) {
    && refs.Keys == m.Keys == external.Keys
    && forall p | p in m ::
         && refs[p].parents == m[p].parents && refs[p].doubleRef == m[p].doubleRef && refs[p].shared == m[p].shared
         && refs[p].refs == external[p] + |On(m, holds, p)|
  }

  /** Removing one hold takes one reference off its parent. */
  lemma DropHold(m: Usages, refs: Usages, external: map<RecID, nat>, holds: set<Hold>, h: Hold)
    requires Counted(m, refs, external, holds) && h in holds && IsHold(m, h) && m[h.child].parents[h.position] in m
    ensures var p := m[h.child].parents[h.position];
      && refs[p].refs > 0 && Counted(m, refs[p := refs[p].(refs := refs[p].refs - 1)], external, holds - {h})
  {
    var p := m[h.child].parents[h.position];
    assert h in On(m, holds, p);
    forall q | q in m ensures On(m, holds - {h}, q) == On(m, holds, q) - (if q == p then {h} else {}) {
    }
  }

  /** The holds that are left when record id has let go of its first n parents. */
  ghost function HoldsAfter(m: Usages, cs: set<RecID>, id: RecID, n: nat): set<Hold> {
    set h | h in HoldsOf(m, cs) && !(h.child == id && h.position < n)
  }

  function TakenOff(refs: Usages, p: RecID, n: nat): Usages
    requires p in refs
  {
    refs[p := refs[p].(refs := refs[p].refs - n)]
  }

  lemma HoldsStep(m: Usages, cs: set<RecID>, id: RecID, j: nat)
    requires id in m && id in cs && j < |m[id].parents|
    ensures Hold(id, j, false) in HoldsAfter(m, cs, id, j) && IsHold(m, Hold(id, j, false))
    ensures m[id].doubleRef ==> Hold(id, j, true) in HoldsAfter(m, cs, id, j) && IsHold(m, Hold(id, j, true))
    ensures HoldsAfter(m, cs, id, j + 1) == HoldsAfter(m, cs, id, j) - {Hold(id, j, false)} - (if m[id].doubleRef
      then {Hold(id, j, true)} else {})
  {
  }

  lemma LetGo(m: Usages, refs: Usages, external: map<RecID, nat>, cs: set<RecID>, id: RecID, j: nat)
    requires id in m && id in cs && j < |m[id].parents| && m[id].parents[j] in m
    requires Counted(m, refs, external, HoldsAfter(m, cs, id, j)) == true
    ensures var p := m[id].parents[j];
      && p in refs && refs[p].refs > 0
      && Counted(m, TakenOff(refs, p, if m[id].doubleRef then 2 else 1), external, HoldsAfter(m, cs, id, j + 1))
  {
    hide Counted, HoldsAfter, On;
    var p, h1, h2 := m[id].parents[j], Hold(id, j, false), Hold(id, j, true);
    HoldsStep(m, cs, id, j);
    CountedShape(m, refs, external, HoldsAfter(m, cs, id, j));
    DropHold(m, refs, external, HoldsAfter(m, cs, id, j), h1);
    if m[id].doubleRef {
      DropHold(m, TakenOff(refs, p, 1), external, HoldsAfter(m, cs, id, j) - {h1}, h2);
      assert TakenOff(TakenOff(refs, p, 1), p, 1) == TakenOff(refs, p, 2);
    } else {
      assert HoldsAfter(m, cs, id, j) - {h1} - {} == HoldsAfter(m, cs, id, j) - {h1};
    }
  }

  lemma CountedShape(m: Usages, refs: Usages, external: map<RecID, nat>, holds: set<Hold>)
    requires Counted(m, refs, external, holds) == true
    ensures refs.Keys == m.Keys && forall p | p in m ::
      refs[p].parents == m[p].parents && refs[p].doubleRef == m[p].doubleRef
  {
  }

  lemma HoldsEnds(m: Usages, fired: set<RecID>, id: RecID)
    requires id in m && id !in fired
    ensures HoldsAfter(m, m.Keys - fired, id, 0) == HoldsOf(m, m.Keys - fired)
    ensures HoldsAfter(m, m.Keys - fired, id, |m[id].parents|) == HoldsOf(m, m.Keys - (fired + {id}))
  {
  }

  /** References are counted; a record in `fired` has let go of its parents, and a record without
      references has done so or is yet to be scanned. */
  ghost predicate Scanning(m: Usages, refs: Usages, external: map<RecID, nat>, fired: set<RecID>, rescan: set<RecID>) {
    && ParentsKnown(m) && fired <= m.Keys && rescan <= m.Keys && fired !! rescan
    && Counted(m, refs, external, HoldsOf(m, m.Keys - fired)) && Decided(refs, fired, rescan)
  }

  ghost predicate Decided(refs: Usages, fired: set<RecID>, rescan: set<RecID>) {
    && (forall id | id in fired && id in refs :: refs[id].refs == 0)
    && (forall id | id in refs && refs[id].refs == 0 :: id in fired || id in rescan)
  }

  function Firsts(parents: seq<RecID>, n: nat): set<RecID>
    requires n <= |parents|
  {
    set i | 0 <= i < n :: parents[i]
  }

  method LetGoOf(refs0: Usages, p: RecID, doubleRef: bool) returns (refs: Usages)
    requires p in refs0
    ensures refs == TakenOff(refs0, p, if doubleRef then 2 else 1)
  {
    refs := refs0[p := refs0[p].(refs := refs0[p].refs - 1)];
    if doubleRef { refs := refs[p := refs[p].(refs := refs[p].refs - 1)]; }
  }

  /** Record id has no references left, so it lets go of its parents. */
  method Fire(m: Usages, refs0: Usages, ghost external: map<RecID, nat>, ghost fired: set<RecID>, rescan0: set<RecID>,
    id: RecID)
    returns (refs: Usages, rescan: set<RecID>)
    requires Scanning(m, refs0, external, fired, rescan0) && id in rescan0 && refs0[id].refs == 0
    ensures Scanning(m, refs, external, fired + {id}, rescan)
    ensures rescan == rescan0 - {id} + Firsts(m[id].parents, |m[id].parents|)
  {
    hide Counted, HoldsAfter, HoldsOf;
    refs, rescan := refs0, rescan0;
    HoldsEnds(m, fired, id);
    CountedShape(m, refs, external, HoldsOf(m, m.Keys - fired));
    var v := refs0[id];
    for j := 0 to |v.parents|
      invariant Counted(m, refs, external, HoldsAfter(m, m.Keys - fired, id, j)) == true && refs.Keys == m.Keys
      invariant refs[id].refs == 0 && Decided(refs, fired, rescan)
      invariant rescan == rescan0 + Firsts(v.parents, j) && id !in Firsts(v.parents, j) && Firsts(v.parents, j) !! fired
    {
      var p := v.parents[j];
      LetGo(m, refs, external, m.Keys - fired, id, j);
      refs := LetGoOf(refs, p, v.doubleRef);
      rescan := rescan + {p};
    }
    rescan := rescan - {id};
  }

  lemma FiredHolds(m: Usages, fired: set<RecID>, id: RecID)
    requires id in m && id !in fired
    ensures HoldsOf(m, m.Keys - (fired + {id})) <= HoldsOf(m, m.Keys - fired)
    ensures m[id].parents != [] ==> HoldsOf(m, m.Keys - (fired + {id})) < HoldsOf(m, m.Keys - fired)
  {
    if m[id].parents != [] {
      assert Hold(id, 0, false) in HoldsOf(m, m.Keys - fired);
    }
  }

  /** A record has references left exactly if it is referenced from outside or by a record that has some. */
  ghost predicate Settled(m: Usages, refs: Usages, external: map<RecID, nat>) {
    refs.Keys == m.Keys == external.Keys && forall id | id in m ::
      && refs[id].parents == m[id].parents && refs[id].shared == m[id].shared && refs[id].refs >= 0
      && (refs[id].refs > 0 <==> external[id] > 0 || exists c | c in m && refs[c].refs > 0 :: id in m[c].parents)
  }

  /** Takes the references that nobody needs off the records until nothing changes, in any order. */
  method Rescan(m: Usages, ghost external: map<RecID, nat>) returns (refs: Usages)
    requires ParentsKnown(m) && Counted(m, m, external, HoldsOf(m, m.Keys))
    ensures Settled(m, refs, external)
  {
    hide Counted, HoldsOf;
    refs := m;
    var rescan := m.Keys;
    ghost var fired: set<RecID> := {};
    assert m.Keys - fired == m.Keys;
    while rescan != {}
      invariant Scanning(m, refs, external, fired, rescan)
      decreases HoldsOf(m, m.Keys - fired), rescan
    {
      CountedShape(m, refs, external, HoldsOf(m, m.Keys - fired));
      var id :| id in rescan;
      if refs[id].refs == 0 {
        FiredHolds(m, fired, id);
        refs, rescan := Fire(m, refs, external, fired, rescan, id);
        fired := fired + {id};
      } else {
        rescan := rescan - {id};
      }
    }
    SettledNow(m, refs, external, fired);
  }

  lemma SettledNow(m: Usages, refs: Usages, external: map<RecID, nat>, fired: set<RecID>)
    requires Scanning(m, refs, external, fired, {})
    ensures Settled(m, refs, external)
  {
    forall id | id in m ensures refs[id].refs > 0 <==>
      external[id] > 0 || exists c | c in m && refs[c].refs > 0 :: id in m[c].parents {
      UsedMeaning(m, refs, external, fired, id);
    }
  }

  lemma UsedMeaning(m: Usages, refs: Usages, external: map<RecID, nat>, fired: set<RecID>, id: RecID)
    requires Scanning(m, refs, external, fired, {}) && id in m
    ensures refs[id].refs > 0 <==> external[id] > 0 || exists c | c in m && refs[c].refs > 0 :: id in m[c].parents
  {
    var on := On(m, HoldsOf(m, m.Keys - fired), id);
    if on != {} {
      var h :| h in on;
      assert h.child in m && refs[h.child].refs > 0 && id in m[h.child].parents;
    }
    if c :| c in m && refs[c].refs > 0 && id in m[c].parents {
      var i :| 0 <= i < |m[c].parents| && m[c].parents[i] == id;
      assert Hold(c, i, false) in on;
    }
  }

  // ---- in use and shared ----

  /** Parents are older than their children. */
  ghost predicate Ordered(m: Usages, age: map<RecID, nat>) {
    m.Keys <= age.Keys && forall c, p | c in m && p in m[c].parents && p in m :: age[p] < age[c]
  }

  /** Record id is x or an ancestor of x. */
  ghost predicate Reaches(m: Usages, age: map<RecID, nat>, x: RecID, id: RecID)
    requires Ordered(m, age) && x in m
    decreases age[x]
  {
    x == id || exists p | p in m[x].parents && p in m :: Reaches(m, age, p, id)
  }

  ghost predicate InUse(m: Usages, age: map<RecID, nat>, external: map<RecID, nat>, id: RecID)
    requires Ordered(m, age) && m.Keys <= external.Keys
  {
    exists x | x in m && external[x] > 0 :: Reaches(m, age, x, id)
  }

  /** What is left after the scan is above zero exactly for the records that are referenced from outside
      themselves or through a descendant, whatever order the scan took. */
  lemma InUseExactly(m: Usages, refs: Usages, external: map<RecID, nat>, age: map<RecID, nat>, id: RecID)
    requires Settled(m, refs, external) && Ordered(m, age) && ParentsKnown(m) && id in m
    ensures refs[id].refs > 0 <==> InUse(m, age, external, id)
  {
    if refs[id].refs > 0 {
      HasUser(m, refs, external, age, id, Oldest(m, age));
    }
    if x :| x in m && external[x] > 0 && Reaches(m, age, x, id) {
      UseSpreads(m, refs, external, age, x, id);
    }
  }

  lemma {:induction false} UseSpreads(m: Usages, refs: Usages, external: map<RecID, nat>, age: map<RecID, nat>,
    x: RecID, id: RecID)
    requires Settled(m, refs, external) && Ordered(m, age) && x in m && id in m && refs[x].refs > 0
      && Reaches(m, age, x, id)
    ensures refs[id].refs > 0
    decreases age[x]
  {
    if x != id {
      var p :| p in m[x].parents && p in m && Reaches(m, age, p, id);
      UseSpreads(m, refs, external, age, p, id);
    }
  }

  lemma {:induction false} HasUser(m: Usages, refs: Usages, external: map<RecID, nat>, age: map<RecID, nat>, id: RecID,
    bound: nat)
    requires Settled(m, refs, external) && Ordered(m, age) && id in m && refs[id].refs > 0
    requires forall x | x in m :: age[x] <= bound
    ensures InUse(m, age, external, id)
    decreases bound - age[id]
  {
    if external[id] > 0 {
      assert Reaches(m, age, id, id);
    } else {
      var c :| c in m && refs[c].refs > 0 && id in m[c].parents;
      HasUser(m, refs, external, age, c, bound);
      var x :| x in m && external[x] > 0 && Reaches(m, age, x, c);
      ReachesParent(m, age, x, c, id);
    }
  }

  lemma {:induction false} ReachesParent(m: Usages, age: map<RecID, nat>, x: RecID, c: RecID, p: RecID)
    requires Ordered(m, age) && x in m && Reaches(m, age, x, c) && c in m && p in m[c].parents && p in m
    ensures Reaches(m, age, x, p)
    decreases age[x]
  {
    if x == c {
      assert Reaches(m, age, p, p);
    } else {
      var q :| q in m[x].parents && q in m && Reaches(m, age, q, c);
      ReachesParent(m, age, q, c, p);
    }
  }

  ghost function Oldest(m: Usages, age: map<RecID, nat>): (bound: nat)
    requires m.Keys <= age.Keys
    ensures forall x | x in m :: age[x] <= bound
  {
    if m == map[] then 0
    else
      var x :| x in m;
      var rest := Oldest(m - {x}, age);
      if rest < age[x] then age[x] else rest
  }

  ghost predicate SameButShared(m: Usages, now: Usages) {
    now.Keys == m.Keys && forall id | id in m :: now[id] == m[id].(shared := now[id].shared)
  }

  /** One of the first n of the given records is a, or a descendant of a. */
  ghost predicate AnyReaches(m: Usages, age: map<RecID, nat>, ids: seq<RecID>, n: nat, a: RecID)
    requires Ordered(m, age) && n <= |ids|
  {
    exists j | 0 <= j < n && ids[j] in m :: Reaches(m, age, ids[j], a)
  }

  /** Marks the given records and all their ancestors. */
  method MarkAllParentsShared(m0: Usages, m: Usages, ids: seq<RecID>, ghost age: map<RecID, nat>,
    ghost bound: nat) returns (now: Usages)
    requires SameButShared(m0, m) && Ordered(m0, age) && "" !in m0
    requires forall j | 0 <= j < |ids| && ids[j] in m0 :: age[ids[j]] < bound
    ensures SameButShared(m0, now)
    ensures forall a | a in m0 :: now[a].shared <==> m[a].shared || AnyReaches(m0, age, ids, |ids|, a)
    decreases bound, 1
  {
    now := m;
    for i := 0 to |ids|
      invariant SameButShared(m0, now)
      invariant forall a | a in m0 :: now[a].shared <==> m[a].shared || AnyReaches(m0, age, ids, i, a)
    {
      var id := ids[i];
      if id != "" && id in now {
        now := MarkWithAncestors(m0, now, id, age);
        assert forall a | a in m0 :: AnyReaches(m0, age, ids, i + 1, a) <==>
          AnyReaches(m0, age, ids, i, a) || Reaches(m0, age, id, a);
      }
    }
  }

  method MarkWithAncestors(m0: Usages, m: Usages, id: RecID, ghost age: map<RecID, nat>) returns (now: Usages)
    requires SameButShared(m0, m) && Ordered(m0, age) && "" !in m0 && id in m0
    ensures SameButShared(m0, now)
    ensures forall a | a in m0 :: now[a].shared <==> m[a].shared || Reaches(m0, age, id, a)
    decreases age[id], 2
  {
    now := m[id := m[id].(shared := true)];
    now := MarkAllParentsShared(m0, now, now[id].parents, age, age[id]);
    forall a | a in m0 ensures Reaches(m0, age, id, a) <==>
      a == id || AnyReaches(m0, age, m0[id].parents, |m0[id].parents|, a) {
    }
  }

  lemma {:induction false} ReachesOn(m: Usages, age: map<RecID, nat>, x: RecID, id: RecID, a: RecID)
    requires Ordered(m, age) && x in m && id in m && Reaches(m, age, x, id) && Reaches(m, age, id, a)
    ensures Reaches(m, age, x, a)
    decreases age[x]
  {
    if x != id {
      var p :| p in m[x].parents && p in m && Reaches(m, age, p, id);
      ReachesOn(m, age, p, id, a);
    }
  }

  /** Record a is one of the given records or an ancestor of one. */
  ghost predicate Under(m: Usages, age: map<RecID, nat>, ids: set<RecID>, a: RecID)
    requires Ordered(m, age)
  {
    exists id | id in m && id in ids :: Reaches(m, age, id, a)
  }

  lemma UnderMore(m: Usages, age: map<RecID, nat>, ids: set<RecID>, id: RecID, a: RecID)
    requires Ordered(m, age) && id in m
    ensures Under(m, age, ids + {id}, a) <==> Under(m, age, ids, a) || Reaches(m, age, id, a)
    ensures Under(m, age, ids, id) && Reaches(m, age, id, a) ==> Under(m, age, ids, a)
  {
    if Under(m, age, ids, id) && Reaches(m, age, id, a) {
      var x :| x in m && x in ids && Reaches(m, age, x, id);
      ReachesOn(m, age, x, id, a);
    }
  }

  /** Marks exactly the records that exist outside, and their ancestors. */
  method MarkShared(m: Usages, existing: set<RecID>, ghost age: map<RecID, nat>) returns (now: Usages)
    requires Ordered(m, age) && "" !in m && forall id | id in m :: !m[id].shared
    ensures SameButShared(m, now) && forall a | a in m :: now[a].shared <==> Under(m, age, existing, a)
  {
    now := m;
    var todo := m.Keys;
    ghost var done: set<RecID> := {};
    while todo != {}
      invariant SameButShared(m, now) && todo <= m.Keys && done == existing * (m.Keys - todo)
      invariant forall a | a in m :: now[a].shared <==> Under(m, age, done, a)
      decreases todo
    {
      hide Under, Reaches;
      var id :| id in todo;
      if id in existing {
        forall a | a in m
          ensures Under(m, age, done + {id}, a) <==> Under(m, age, done, a) || Reaches(m, age, id, a)
          ensures Under(m, age, done, id) && Reaches(m, age, id, a) ==> Under(m, age, done, a)
        {
          UnderMore(m, age, done, id, a);
        }
        if !now[id].shared { now := MarkWithAncestors(m, now, id, age); }
        done := done + {id};
      }
      todo := todo - {id};
    }
    forall a | a in m ensures Under(m, age, done, a) <==> Under(m, age, existing, a) {}
  }

  /** What is reported of a record. */
  datatype UsageInfo = UsageInfo(inUse: bool, shared: bool)

  /** The usage of every record: in use exactly if it or a descendant is referenced from outside, shared
      exactly if it or a descendant exists outside. */
  method Report(m: Usages, existing: set<RecID>, ghost external: map<RecID, nat>, ghost age: map<RecID, nat>)
    returns (du: map<RecID, UsageInfo>)
    requires ParentsKnown(m) && Counted(m, m, external, HoldsOf(m, m.Keys))
    requires Ordered(m, age) && "" !in m && forall id | id in m :: !m[id].shared
    ensures du.Keys == m.Keys && forall id | id in m ::
      du[id].inUse == InUse(m, age, external, id) && du[id].shared == Under(m, age, existing, id)
  {
    hide Counted, HoldsOf, Reaches, InUse, Under;
    var refs := Rescan(m, external);
    var shared := MarkShared(m, existing, age);
    du := map id | id in refs :: UsageInfo(refs[id].refs > 0, shared[id].shared);
    forall id | id in m ensures du[id].inUse == InUse(m, age, external, id) {
      InUseExactly(m, refs, external, age, id);
    }
  }
}
