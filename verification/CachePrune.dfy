/** Pruning the snapshot cache: records are marked dead under the lock, and removed under the lock later;
    in between anything else may happen. */
module CachePrune {
  import opened SolverTypes

  type RecID = nat

  /** Who holds a reference to a record: a caller, or a record that has it as a parent. */
  datatype Holder = User(n: nat) | Child(rec: RecID)

  datatype Rec = Rec(refs: set<Holder>, dead: bool, mutable: bool,
                     equalImmutable: Option<RecID>, equalMutable: Option<RecID>, size: int)

  type Records = map<RecID, Rec>

  /** A record counts as dead with its equal record. */
  predicate IsDead(records: Records, id: RecID)
    requires id in records
  {
    var r := records[id];
    || r.dead
    || (r.equalImmutable.Some? && r.equalImmutable.value in records && records[r.equalImmutable.value].dead)
    || (r.equalMutable.Some? && r.equalMutable.value in records && records[r.equalMutable.value].dead)
  }

  /** A mutable record that nobody uses, either itself or as its equal immutable record. */
  predicate Available(records: Records, id: RecID) {
    && id in records && !IsDead(records, id) && records[id].mutable && records[id].refs == {}
    && (records[id].equalImmutable.Some? ==>
          var i := records[id].equalImmutable.value; i in records && records[i].refs == {})
  }

  /** m and i are a mutable record and the equal immutable one. */
  ghost predicate Twins(records: Records, m: RecID, i: RecID) {
    && m in records && i in records && records[m].mutable && !records[i].mutable
    && records[m].equalImmutable == Some(i) && records[i].equalMutable == Some(m)
  }

  /** Of two equal records both are dead as soon as one is. */
  lemma DeadTogether(records: Records, m: RecID, i: RecID)
    requires Twins(records, m, i)
    ensures IsDead(records, m) ==> IsDead(records, i) || records[m].equalMutable.Some?
    ensures records[m].dead || records[i].dead ==> IsDead(records, m) && IsDead(records, i)
  {
  }

  /** Record i, if it is there, is immutable and has no equal. */
  ghost predicate Independent(records: Records, i: RecID) {
    i in records ==> !records[i].mutable && records[i].equalMutable.None?
  }

  /** Equal records name each other; a dead mutable record may still name one that has become independent. */
  ghost predicate Paired(records: Records) {
    forall id | id in records ::
      && (records[id].equalMutable.Some? ==> Twins(records, records[id].equalMutable.value, id))
      && (records[id].equalImmutable.Some? ==>
            && records[id].mutable
            && (|| Twins(records, id, records[id].equalImmutable.value)
                || (records[id].dead && Independent(records, records[id].equalImmutable.value))))
  }

  /** No record names i as its equal. */
  ghost predicate Unnamed(records: Records, i: RecID) {
    forall y | y in records :: records[y].equalImmutable != Some(i) && records[y].equalMutable != Some(i)
  }

  /** No immutable record names m as its equal. */
  predicate NoEqualOf(records: Records, m: RecID) {
    forall y | y in records :: records[y].equalMutable != Some(m)
  }

  /** Nobody has a reference to record v or its equal immutable record. */
  ghost predicate Unreferenced(records: Records, v: RecID) {
    && v in records && records[v].refs == {} && records[v].equalMutable.None?
    && (records[v].equalImmutable.Some? ==>
          Twins(records, v, records[v].equalImmutable.value) && records[records[v].equalImmutable.value].refs == {})
  }

  ghost predicate Victims(records: Records, marked: set<RecID>) {
    forall v | v in marked :: Unreferenced(records, v) && records[v].dead
  }

  /** Neither marked records nor their equals have changed. */
  ghost predicate Untouched(before: Records, now: Records, marked: set<RecID>) {
    forall v | v in marked ::
      && v in before && v in now && now[v] == before[v]
      && (before[v].equalImmutable.Some? && before[v].equalImmutable.value in before ==>
            before[v].equalImmutable.value in now
              && now[before[v].equalImmutable.value] == before[before[v].equalImmutable.value])
  }

  /** Record x is neither marked nor equal to a marked one. */
  ghost predicate Apart(records: Records, marked: set<RecID>, x: RecID) {
    x !in marked && forall v | v in marked && v in records :: records[v].equalImmutable != Some(x)
  }

  lemma ApartIfReferenced(records: Records, marked: set<RecID>, x: RecID)
    requires Victims(records, marked) && x in records && records[x].refs != {}
    ensures Apart(records, marked, x)
  {
  }

  lemma ApartIfAlive(records: Records, marked: set<RecID>, x: RecID)
    requires Victims(records, marked) && x in records && !IsDead(records, x)
    ensures Apart(records, marked, x)
  {
  }

  /** Changing the references of a record that is apart from the marked ones. */
  lemma RefsKeep(records: Records, marked: set<RecID>, x: RecID, refs: set<Holder>)
    requires Paired(records) && Victims(records, marked) && x in records && Apart(records, marked, x)
    ensures var now := records[x := records[x].(refs := refs)];
      Paired(now) && Victims(now, marked) && Untouched(records, now, marked)
  {
    var now := records[x := records[x].(refs := refs)];
    forall m, i | Twins(records, m, i) ensures Twins(now, m, i) {}
  }

  /** The records without x, which no longer holds its parents. */
  function Removed(records: Records, x: RecID): Records {
    map r | r in records && r != x :: records[r].(refs := records[r].refs - {Child(x)})
  }

  lemma RemoveKeeps(records: Records, marked: set<RecID>, x: RecID)
    requires Paired(records) && Victims(records, marked) && x in records && Apart(records, marked, x)
    requires forall y | y in records && y != x ::
      records[y].equalMutable != Some(x) && (records[y].equalImmutable == Some(x) ==> records[y].dead)
    ensures Paired(Removed(records, x)) && Victims(Removed(records, x), marked)
      && Untouched(records, Removed(records, x), marked)
  {
    var now := Removed(records, x);
    forall m, i | Twins(records, m, i) && m != x && i != x ensures Twins(now, m, i) {}
    forall v | v in marked ensures v in now && now[v] == records[v] {
      assert records[v].refs - {Child(x)} == {};
    }
    forall v | v in marked && records[v].equalImmutable.Some?
      ensures records[v].equalImmutable.value in now
        && now[records[v].equalImmutable.value] == records[records[v].equalImmutable.value]
    {
      assert records[records[v].equalImmutable.value].refs - {Child(x)} == {};
    }
  }

  /** Record m gets the new equal immutable record i, which holds the same parents and has one reference. */
  function Committed(records: Records, m: RecID, i: RecID, user: Holder): Records
    requires m in records
  {
    var held := map r | r in records ::
      records[r].(refs := if Child(m) in records[r].refs then records[r].refs + {Child(i)} else records[r].refs);
    held[m := held[m].(equalImmutable := Some(i))][i := Rec({user}, false, false, None, Some(m), -1)]
  }

  /** A mutable record that is committed again, while the immutable record of the first commit still counts as its
      equal, is no longer paired with that one. */
  lemma CommitExactly(records: Records, marked: set<RecID>, m: RecID, i: RecID, user: Holder)
    requires Paired(records) && Victims(records, marked) && m in records && Apart(records, marked, m) && i !in records
    requires records[m].mutable && Unnamed(records, i)
    ensures var now := Committed(records, m, i, user);
      (Paired(now) <==> NoEqualOf(records, m)) && Victims(now, marked) && Untouched(records, now, marked)
  {
    var now := Committed(records, m, i, user);
    forall a, b | Twins(records, a, b) && a != m ensures Twins(now, a, b) {}
    assert Twins(now, m, i);
    if NoEqualOf(records, m) {
      forall id | id in now && now[id].equalImmutable.Some? && id != m
        ensures Twins(now, id, now[id].equalImmutable.value)
          || (now[id].dead && Independent(now, now[id].equalImmutable.value))
      {
        assert records[id].equalImmutable == now[id].equalImmutable;
      }
    } else {
      var y :| y in records && records[y].equalMutable == Some(m);
      assert now[y].equalMutable == Some(m) && !Twins(now, m, y);
    }
  }

  /** After a second commit and the release of both the mutable and the second immutable record, the mutable record can
      be pruned, though the first immutable record is in use and still needs it. */
  lemma CommittedTwice(m: RecID, i: RecID, j: RecID, size: int)
    requires m != i && m != j && i != j
    ensures var records := map[m := Rec({User(0)}, false, true, None, None, size)];
      var twice := Committed(Committed(records, m, i, User(1)), m, j, User(2));
      var now := twice[m := twice[m].(refs := {})][j := twice[j].(refs := {})];
      && twice[m].refs == {User(0)} && twice[j].refs == {User(2)}
      && Prunable(now, m) && now[i].refs == {User(1)} && now[i].equalMutable == Some(m)
  {
  }

  lemma FinalizeKeeps(records: Records, marked: set<RecID>, m: RecID, i: RecID)
    requires Paired(records) && Victims(records, marked) && Twins(records, m, i) && records[i].refs != {}
    ensures var now := records[m := records[m].(dead := true)][i := records[i].(equalMutable := None)];
      Paired(now) && Victims(now, marked) && Untouched(records, now, marked)
  {
    var now := records[m := records[m].(dead := true)][i := records[i].(equalMutable := None)];
    forall a, b | Twins(records, a, b) && b != i ensures Twins(now, a, b) {}
    ApartIfReferenced(records, marked, i);
    assert Apart(records, marked, m);
  }

  /** Record x may be pruned: it is alive, and neither it nor its equal immutable record is referenced. */
  predicate Prunable(records: Records, x: RecID)
    requires x in records
  {
    && !(records[x].equalImmutable.Some? && records[x].equalImmutable.value in records
      && records[records[x].equalImmutable.value].refs != {})
    && !(records[x].equalMutable.Some? && records[x].refs == {})
    && !IsDead(records, x) && records[x].refs == {}
  }

  lemma PrunableApart(records: Records, marked: set<RecID>, x: RecID)
    requires Victims(records, marked) && x in records && Prunable(records, x)
    ensures Apart(records, marked, x)
  {
    ApartIfAlive(records, marked, x);
  }

  function MarkedDead(records: Records, xs: set<RecID>): Records {
    map r | r in records :: if r in xs then records[r].(dead := true) else records[r]
  }

  lemma MarkKeeps(records: Records, marked: set<RecID>, xs: set<RecID>)
    requires Paired(records) && Victims(records, marked) && forall x | x in xs :: x in records && Prunable(records, x)
    ensures var now := MarkedDead(records, xs);
      Paired(now) && Victims(now, marked + xs) && Untouched(records, now, marked)
  {
    var now := MarkedDead(records, xs);
    forall a, b | Twins(records, a, b) ensures Twins(now, a, b) {}
    forall x | x in xs ensures Unreferenced(now, x) && Apart(records, marked, x) {
      ApartIfAlive(records, marked, x);
    }
  }

  function WithoutRef(records: Records, x: RecID, n: nat): Records
    requires x in records
  {
    records[x := records[x].(refs := records[x].refs - {User(n)})]
  }

  function Separated(records: Records, m: RecID, i: RecID): Records
    requires m in records && i in records
  {
    Removed(records[m := records[m].(equalImmutable := None)][i := records[i].(equalMutable := None)], i)
  }

  /** What is left after a reference to the mutable record m has been released. */
  function Given(records: Records, m: RecID, n: nat, keeps: bool, equalKeeps: bool): Records
    requires m in records
  {
    var dropped := WithoutRef(records, m, n);
    var equal := records[m].equalImmutable;
    if keeps || (equal.Some? && equalKeeps) then dropped
    else if equal.Some? && equal.value in dropped
      && equal.value != m then Removed(Separated(dropped, m, equal.value), m)
    else Removed(dropped, m)
  }

  /** If one of two equal records is not marked then neither has to do with a marked one. */
  lemma TwinsApart(records: Records, marked: set<RecID>, m: RecID, i: RecID)
    requires Paired(records) && Victims(records, marked) && Twins(records, m, i)
    requires Apart(records, marked, i) || Apart(records, marked, m)
    ensures Apart(records, marked, m) && Apart(records, marked, i)
  {
  }

  /** Releasing m removes a record that is marked: one that m still names though it has become independent. */
  predicate HitsMarked(records: Records, marked: set<RecID>, m: RecID, keeps: bool, equalKeeps: bool)
    requires m in records
  {
    var equal := records[m].equalImmutable;
    !keeps && !equalKeeps && equal.Some? && equal.value in marked && equal.value in records && equal.value != m
  }

  lemma GiveKeeps(records: Records, marked: set<RecID>, m: RecID, n: nat, keeps: bool, equalKeeps: bool)
    requires Paired(records) && Victims(records, marked) && m in records && records[m].mutable
      && Apart(records, marked, m) && !HitsMarked(records, marked, m, keeps, equalKeeps)
    ensures var now := Given(records, m, n, keeps, equalKeeps);
      Paired(now) && Victims(now, marked) && Untouched(records, now, marked)
  {
    var dropped := WithoutRef(records, m, n);
    RefsKeep(records, marked, m, records[m].refs - {User(n)});
    var equal := records[m].equalImmutable;
    if !(keeps || (equal.Some? && equalKeeps)) {
      var alone := dropped;
      if equal.Some? && equal.value in dropped && equal.value != m {
        EqualApart(dropped, marked, m, equal.value);
        SeparateKeeps(dropped, marked, m, equal.value);
        alone := Separated(dropped, m, equal.value);
        UntouchedTwice(records, dropped, alone, marked);
      }
      NotNamedAlone(dropped, m);
      RemoveKeeps(alone, marked, m);
      UntouchedTwice(records, alone, Removed(alone, m), marked);
    }
  }

  lemma GivenFewer(records: Records, m: RecID, n: nat, keeps: bool, equalKeeps: bool)
    requires m in records
    ensures var now := Given(records, m, n, keeps, equalKeeps);
      && now.Keys <= records.Keys
      && forall id | id in now :: now[id].equalImmutable == None || now[id].equalImmutable == records[id].equalImmutable
  {
  }

  lemma GiveHits(records: Records, marked: set<RecID>, m: RecID, n: nat, keeps: bool, equalKeeps: bool)
    requires m in records && HitsMarked(records, marked, m, keeps, equalKeeps)
    ensures !Victims(Given(records, m, n, keeps, equalKeeps), marked)
  {
    assert records[m].equalImmutable.value !in Given(records, m, n, keeps, equalKeeps);
  }

  /** Nobody but the equal immutable record names m. */
  lemma NotNamedAlone(records: Records, m: RecID)
    requires Paired(records) && m in records && records[m].mutable
    ensures forall y | y in records :: records[y].equalMutable == Some(m) ==> records[m].equalImmutable == Some(y)
    ensures forall y | y in records :: records[y].equalImmutable != Some(m)
  {
  }

  lemma EqualApart(records: Records, marked: set<RecID>, m: RecID, i: RecID)
    requires Paired(records) && Victims(records, marked) && m in records && records[m].mutable
      && Apart(records, marked, m)
    requires records[m].equalImmutable == Some(i) && i in records && i !in marked
    ensures Apart(records, marked, i) && m != i
    ensures forall y | y in records && y != m :: records[y].equalImmutable == Some(i) ==> records[y].dead
  {
  }

  lemma UntouchedTwice(a: Records, b: Records, c: Records, marked: set<RecID>)
    requires Untouched(a, b, marked) && Untouched(b, c, marked)
    ensures Untouched(a, c, marked)
  {
  }

  class Cache {
    var records: Records
    var marked: set<RecID>    // marked dead by pruning, not removed yet
    var nextRec: RecID
    var nextUser: nat

    ghost predicate Valid()
      reads this
    {
      && Paired(records) && Victims(records, marked)
      && forall id | id in records ::
        id < nextRec && (records[id].equalImmutable.Some? ==> records[id].equalImmutable.value < nextRec)
    }

    constructor ()
      ensures Valid() && records == map[] && marked == {} && nextUser == 0
    {
      records, marked, nextRec, nextUser := map[], {}, 0, 0;
    }

    /** A caller gets a reference to record x. */
    method Hold(x: RecID)
      requires Valid() && x in records && Apart(records, marked, x)
      modifies `records, `nextUser
      ensures Valid() && Untouched(old(records), records, marked)
      ensures records == old(records)[x := old(records)[x].(refs := old(records)[x].refs + {User(old(nextUser))})]
      ensures nextUser == old(nextUser) + 1
    {
      RefsKeep(records, marked, x, records[x].refs + {User(nextUser)});
      records := records[x := records[x].(refs := records[x].refs + {User(nextUser)})];
      nextUser := nextUser + 1;
    }

    /** An immutable reference to a record: to the record itself, to its equal immutable record, or to a new one.
        Dead records and mutable records in use are refused. */
    method Get(id: RecID) returns (r: Option<RecID>)
      requires Valid()
      modifies this
      ensures Valid() && Untouched(old(records), records, marked) && marked == old(marked)
      ensures r.Some? ==>
        r.value in records && !records[r.value].mutable && User(old(nextUser)) in records[r.value].refs
      ensures r.None? ==> records == old(records)
      ensures r.Some? <==>
        id in old(records) && !IsDead(old(records), id) && (old(records)[id].mutable ==> old(records)[id].refs == {})
      ensures r.Some? ==>
        if !old(records)[id].mutable then r.value == id
        else if old(records)[id].equalImmutable.Some? then r == old(records)[id].equalImmutable
        else r.value !in old(records) && Twins(records, id, r.value)
    {
      if id !in records || IsDead(records, id) { return None; }
      ApartIfAlive(records, marked, id);
      var rec := records[id];
      if !rec.mutable {
        Hold(id);
        return Some(id);
      }
      if rec.refs != {} { return None; }
      if rec.equalImmutable.Some? {
        Hold(rec.equalImmutable.value);
        return Some(rec.equalImmutable.value);
      }
      var i := CommitNew(id);
      return Some(i);
    }

    /** Takes a mutable record that is not in use and makes an equal immutable record of it. */
    method CommitNew(id: RecID) returns (i: RecID)
      requires Valid() && id in records && !IsDead(records, id) && records[id].mutable
        && records[id].equalImmutable.None?
      modifies this
      ensures Valid() && Untouched(old(records), records, marked) && marked == old(marked)
      ensures i !in old(records) && Twins(records, id, i) && User(old(nextUser)) in records[i].refs
      ensures var made := Committed(old(records), id, i, User(old(nextUser)));
        records == made[id := made[id].(refs := made[id].refs + {User(old(nextUser) + 1)})]
      ensures nextUser == old(nextUser) + 2
    {
      ApartIfAlive(records, marked, id);
      var user := User(nextUser);
      CommitExactly(records, marked, id, nextRec, user);
      i := nextRec;
      records := Committed(records, id, i, user);
      nextRec, nextUser := nextRec + 1, nextUser + 1;
      Hold(id);
    }

    /** The mutable reference to a record; its equal immutable record is given up if nobody uses it. Refused is what
        is not there or dead, what is not mutable, and what is in use, itself or as its equal immutable record. */
    method GetMutable(id: RecID) returns (ok: bool)
      requires Valid()
      modifies this
      ensures Valid() && Untouched(old(records), records, marked) && marked == old(marked)
      ensures ok <==> Available(old(records), id)
      ensures ok ==> id in records
      ensures ok ==> records[id] == old(records)[id].(refs := {User(old(nextUser))}, equalImmutable := None)
      ensures ok && old(records)[id].equalImmutable.Some? ==> old(records)[id].equalImmutable.value !in records
      ensures records ==
        if !ok then old(records)
        else if old(records)[id].equalImmutable.None? then old(records)[id := records[id]]
        else Separated(old(records), id, old(records)[id].equalImmutable.value)[id := records[id]]
    {
      if id !in records || IsDead(records, id) || !records[id].mutable || records[id].refs != {} { return false; }
      ApartIfAlive(records, marked, id);
      if records[id].equalImmutable.Some? {
        var i := records[id].equalImmutable.value;
        if records[i].refs != {} { return false; }
        Separate(id, i);
      }
      Hold(id);
      ok := true;
    }

    method Separate(m: RecID, i: RecID)
      requires Valid() && Twins(records, m, i) && Apart(records, marked, m) && Apart(records, marked, i)
      modifies `records
      ensures Valid() && Untouched(old(records), records, marked) && Apart(records, marked, m)
      ensures records == Separated(old(records), m, i)
    {
      SeparateKeeps(records, marked, m, i);
      records := Separated(records, m, i);
    }

    /** Who has a reference can have another one. */
    method CloneRef(x: RecID)
      requires Valid() && x in records && records[x].refs != {}
      modifies `records, `nextUser
      ensures Valid() && Untouched(old(records), records, marked)
      ensures records == old(records)[x := old(records)[x].(refs := old(records)[x].refs + {User(old(nextUser))})]
    {
      ApartIfReferenced(records, marked, x);
      Hold(x);
    }

    /** A reference is released. The last reference to an immutable record also gives up the mutable record it was
        committed from, with the reference `committed` to it. A mutable record that is not to be kept is removed,
        and the immutable record that it names as its equal with it, unless that one is to be kept. That may be a
        record that has become independent and has been marked since. */
    method ReleaseRef(x: RecID, n: nat, committed: nat, keeps: bool, equalKeeps: bool)
      requires Valid() && x in records && User(n) in records[x].refs
      modifies `records
      ensures Valid() <==> !(old(records)[x].mutable && HitsMarked(old(records), marked, x, keeps, equalKeeps))
      ensures Valid() ==> Untouched(old(records), records, marked)
      ensures old(records)[x].mutable ==> records == Given(old(records), x, n, keeps, equalKeeps)
      ensures !old(records)[x].mutable ==>
        var dropped := WithoutRef(old(records), x, n);
        records == if dropped[x].refs == {} && dropped[x].equalMutable.Some? && dropped[x].equalMutable.value in dropped
                   then Given(dropped, dropped[x].equalMutable.value, committed, keeps, equalKeeps) else dropped
    {
      ApartIfReferenced(records, marked, x);
      if records[x].mutable {
        ReleaseMutable(x, n, keeps, equalKeeps);
      } else {
        if records[x].equalMutable.Some? { TwinsApart(records, marked, records[x].equalMutable.value, x); }
        RefsKeep(records, marked, x, records[x].refs - {User(n)});
        records := WithoutRef(records, x, n);
        if records[x].refs == {} && records[x].equalMutable.Some? {
          ReleaseMutable(records[x].equalMutable.value, committed, keeps, equalKeeps);
        }
      }
    }

    /** Nobody uses immutable record i, and the mutable one it was committed from is not marked. */
    static predicate Settles(records: Records, marked: set<RecID>, i: RecID) {
      && i in records && records[i].refs == {} && records[i].equalMutable.Some?
      && records[i].equalMutable.value in records && records[i].equalMutable.value !in marked
    }

    /** An immutable record that has lost its last child gives up the mutable record it was committed from. */
    method Settle(i: RecID, committed: nat, keeps: bool, equalKeeps: bool)
      requires Valid() == true
      modifies `records
      ensures Valid() && Untouched(old(records), records, marked)
      ensures records == if Settles(old(records), marked, i)
        then Given(old(records), old(records)[i].equalMutable.value, committed, keeps, equalKeeps) else old(records)
    {
      if Settles(records, marked, i) {
        ReleaseMutable(records[i].equalMutable.value, committed, keeps, equalKeeps);
      }
    }

    method ReleaseMutable(m: RecID, n: nat, keeps: bool, equalKeeps: bool)
      requires Valid() && m in records && records[m].mutable && Apart(records, marked, m)
      modifies `records
      ensures Valid() <==> !HitsMarked(old(records), marked, m, keeps, equalKeeps)
      ensures Valid() ==> Untouched(old(records), records, marked)
      ensures records == Given(old(records), m, n, keeps, equalKeeps)
    {
      hide Paired, Victims, Untouched, Removed, Apart, Given, HitsMarked;
      if HitsMarked(records, marked, m, keeps, equalKeeps) {
        GiveHits(records, marked, m, n, keeps, equalKeeps);
      } else {
        GiveKeeps(records, marked, m, n, keeps, equalKeeps);
      }
      GivenFewer(records, m, n, keeps, equalKeeps);
      records := Given(records, m, n, keeps, equalKeeps);
    }

    /** The equal mutable record is given up for good: it is dead from now on. */
    method Finalize(i: RecID)
      requires Valid() && i in records && records[i].refs != {}
      modifies `records
      ensures Valid() && Untouched(old(records), records, marked) && i in records && records[i].equalMutable.None?
      ensures records == match old(records)[i].equalMutable
        case None => old(records)
        case Some(m) => old(records)[m := old(records)[m].(dead := true)][i := old(records)[i].(equalMutable := None)]
    {
      if records[i].equalMutable.Some? {
        var m := records[i].equalMutable.value;
        FinalizeKeeps(records, marked, m, i);
        records := records[m := records[m].(dead := true)][i := records[i].(equalMutable := None)];
      }
    }

    /** Marks some prunable records dead: one if space is to be kept, else up to the given number. */
    method MarkVictims(gc: bool, eligible: RecID -> bool, maxBatch: nat) returns (batch: set<RecID>)
      requires Valid()
      modifies `records, `marked
      ensures Valid() && Untouched(old(records), records, old(marked)) && marked == old(marked) + batch
        && batch !! old(marked)
      ensures records == MarkedDead(old(records), batch) && |batch| <= (if gc then 1 else maxBatch)
      ensures forall x | x in batch :: x in old(records) && Prunable(old(records), x) && eligible(x)
      ensures batch == {} && maxBatch > 0 ==> forall x | x in old(records) && Prunable(old(records), x) :: !eligible(x)
    {
      hide Paired, Prunable, Untouched, MarkedDead, IsDead;
      var candidates := set x | x in records && Prunable(records, x) && eligible(x);
      batch := Pick(candidates, if gc then 1 else maxBatch);
      forall x | x in batch ensures x in records && Prunable(records, x) && eligible(x) && x !in marked {
        assert x in candidates;
        PrunableApart(records, marked, x);
      }
      assert forall x | x in records && Prunable(records, x) && eligible(x) :: x in candidates;
      Mark(batch);
    }

    method Mark(batch: set<RecID>)
      requires Valid() && forall x | x in batch :: x in records && Prunable(records, x)
      modifies `records, `marked
      ensures Valid() && Untouched(old(records), records, old(marked)) && marked == old(marked) + batch
      ensures records == MarkedDead(old(records), batch)
    {
      hide Paired, Victims, Untouched, Prunable;
      MarkKeeps(records, marked, batch);
      records, marked := MarkedDead(records, batch), marked + batch;
    }

    static method Pick(candidates: set<RecID>, n: nat) returns (batch: set<RecID>)
      ensures batch <= candidates && |batch| <= n && (batch == {} && n > 0 ==> candidates == {})
    {
      batch := {};
      var todo := candidates;
      while todo != {} && |batch| < n
        invariant todo + batch == candidates && batch !! todo && |batch| <= n
        decreases todo
      {
        var x :| x in todo;
        todo, batch := todo - {x}, batch + {x};
      }
    }

    /** A new mutable record on top of a record that the caller has a reference to. */
    method New(parent: Option<RecID>, size: int) returns (id: RecID)
      requires Valid() && (parent.Some? ==> parent.value in records && records[parent.value].refs != {})
      modifies this
      ensures Valid() && Untouched(old(records), records, marked) && marked == old(marked) && id !in old(records)
        && id in records
      ensures records[id] == Rec({User(old(nextUser))}, false, true, None, None, size)
      ensures parent.Some? ==> parent.value in records && Child(id) in records[parent.value].refs
    {
      id := nextRec;
      if parent.Some? {
        ApartIfReferenced(records, marked, parent.value);
        RefsKeep(records, marked, parent.value, records[parent.value].refs + {Child(id)});
        records := records[parent.value := records[parent.value].(refs := records[parent.value].refs + {Child(id)})];
      }
      AddKeeps(records, marked, id, Rec({User(nextUser)}, false, true, None, None, size));
      records := records[id := Rec({User(nextUser)}, false, true, None, None, size)];
      nextRec, nextUser := nextRec + 1, nextUser + 1;
    }

    /** The holder of a mutable record makes an equal immutable record of it, even if there is one already. Equal
        records still name each other exactly if no immutable record counted as the equal of this one before. */
    method Commit(m: RecID) returns (i: Option<RecID>)
      requires Valid() && m in records
      modifies this
      ensures i.None? <==> !old(records)[m].mutable || old(records)[m].refs == {}
      ensures i.None? ==> unchanged(this)
      ensures Valid() <==> i.None? || NoEqualOf(old(records), m)
      ensures i.Some? ==> i.value !in old(records)
      ensures i.Some? ==> records == Committed(old(records), m, i.value, User(old(nextUser)))
      ensures i.Some? ==> Twins(records, m, i.value) && nextUser == old(nextUser) + 1
      ensures i.Some? ==> forall r | r in old(records) && Child(m) in old(records)[r].refs ::
        Child(i.value) in records[r].refs
      ensures Victims(records, marked) && Untouched(old(records), records, marked) && marked == old(marked)
    {
      if !records[m].mutable || records[m].refs == {} { return None; }
      ApartIfReferenced(records, marked, m);
      CommitExactly(records, marked, m, nextRec, User(nextUser));
      i := Some(nextRec);
      records := Committed(records, m, nextRec, User(nextUser));
      nextRec, nextUser := nextRec + 1, nextUser + 1;
    }

    /** A mutable record that was given up is removed some time later. */
    method RemoveDead(m: RecID)
      requires Valid() && m in records && records[m].mutable && records[m].dead && m !in marked
      requires forall y | y in records :: records[y].equalMutable != Some(m)
      modifies `records
      ensures Valid() && Untouched(old(records), records, marked) && m !in records
    {
      RemoveKeeps(records, marked, m);
      records := Removed(records, m);
    }

    /** Removes a marked record and its equal immutable one. Nobody has a reference to either. */
    method RemoveMarked(v: RecID) returns (size: int)
      requires Valid() && v in marked
      modifies `records, `marked
      ensures Valid() && marked == old(marked) - {v} && Untouched(old(records), records, marked)
      ensures Unreferenced(old(records), v) && v !in records
      ensures size == SizeOf(old(records), v)
      ensures forall r | r in records ::
        r in old(records) && records[r].size == old(records)[r].size
          && records[r].equalMutable == old(records)[r].equalMutable
      ensures records.Keys == old(records).Keys - {v} - (if old(records)[v].equalImmutable.Some?
        then {old(records)[v].equalImmutable.value} else {})
    {
      hide Paired, Victims, Untouched, Apart;
      RemoveMarkedKeeps(records, marked, v);
      size := SizeOf(records, v);
      if records[v].equalImmutable.Some? { records := Separated(records, v, records[v].equalImmutable.value); }
      records := Removed(records, v);
      marked := marked - {v};
    }
  }

  lemma AddKeeps(records: Records, marked: set<RecID>, id: RecID, rec: Rec)
    requires Paired(records) && Victims(records, marked) && id !in records && Unnamed(records, id)
    requires rec.equalImmutable.None? && rec.equalMutable.None?
    ensures var now := records[id := rec]; Paired(now) && Victims(now, marked) && Untouched(records, now, marked)
  {
    var now := records[id := rec];
    forall a, b | Twins(records, a, b) ensures Twins(now, a, b) {}
  }

  /** What a record counts for: its own size, or that of its equal immutable record if it is not known. */
  function SizeOf(records: Records, v: RecID): int
    requires v in records
  {
    if records[v].size == -1 && records[v].equalImmutable.Some? && records[v].equalImmutable.value in records
    then records[records[v].equalImmutable.value].size else records[v].size
  }

  lemma SeparateKeeps(records: Records, marked: set<RecID>, m: RecID, i: RecID)
    requires Paired(records) && Victims(records, marked) && m in records && i in records && m != i
    requires records[m].mutable && records[m].equalImmutable == Some(i) && Apart(records, marked, m)
      && Apart(records, marked, i)
    requires forall y | y in records && y != m :: records[y].equalImmutable == Some(i) ==> records[y].dead
    ensures var now := Separated(records, m, i); Paired(now) && Victims(now, marked) && Untouched(records, now, marked)
  {
    var mid := records[m := records[m].(equalImmutable := None)][i := records[i].(equalMutable := None)];
    forall a, b | Twins(records, a, b) && b != i ensures Twins(mid, a, b) {}
    assert Paired(mid) && Victims(mid, marked) && Untouched(records, mid, marked);
    RemoveKeeps(mid, marked, i);
  }

  lemma RemoveMarkedKeeps(records: Records, marked: set<RecID>, v: RecID)
    requires Paired(records) && Victims(records, marked) && v in marked
    ensures Unreferenced(records, v)
    ensures var equal := records[v].equalImmutable;
      var now := Removed(if equal.Some? then Separated(records, v, equal.value) else records, v);
      Paired(now) && Victims(now, marked - {v}) && Untouched(records, now, marked - {v})
  {
    var rest := marked - {v};
    var alone := records;
    if records[v].equalImmutable.Some? {
      var i := records[v].equalImmutable.value;
      assert Apart(records, rest, i) && Apart(records, rest, v);
      SeparateKeeps(records, rest, v, i);
      alone := Separated(records, v, i);
    }
    RemoveKeeps(alone, rest, v);
    UntouchedTwice(records, alone, Removed(alone, v), rest);
  }

  // ---- histories ----

  datatype Step =
    | DoGet(id: RecID) | DoGetMutable(id: RecID) | DoClone(id: RecID) | DoCommit(id: RecID)
    | DoRelease(id: RecID, user: nat, committed: nat, keeps: bool, equalKeeps: bool)
    | DoSettle(id: RecID, committed: nat, keeps: bool, equalKeeps: bool)   // the last child of a record has gone
    | DoFinalize(id: RecID) | DoNew(parent: Option<RecID>, size: int) | DoRemoveDead(id: RecID)
    | DoMark(gc: bool, only: set<RecID>, maxBatch: nat) | DoRemove(id: RecID)

  /** One step of anyone, if it is possible now. Only the removal of a marked record changes it or its equal, apart from
      a second commit of a mutable record and the release of one that names a marked record. */
  method Take(c: Cache, step: Step) returns (clean: bool)
    requires c.Valid() == true
    modifies c
    ensures c.Valid() <==> clean
    ensures clean ==>
      Untouched(old(c.records), c.records, if step.DoRemove? then old(c.marked) - {step.id} else old(c.marked))
    ensures step.DoRemove? && step.id in old(c.marked) ==> Unreferenced(old(c.records), step.id)
    ensures old(c.marked) - (if step.DoRemove? then {step.id} else {}) <= c.marked
    ensures !clean ==>
      || (step.DoCommit? && !NoEqualOf(old(c.records), step.id))
      || (step.DoRelease? && step.id in old(c.records)
          && HitsMarked(old(c.records), old(c.marked), step.id, step.keeps, step.equalKeeps))
  {
    hide Paired, Victims, Cache.Valid, HitsMarked, NoEqualOf, Given, Committed;
    Known(c);
    clean := true;
    match step {
      case DoGet(id) => var r := c.Get(id);
      case DoGetMutable(id) => var ok := c.GetMutable(id);
      case DoClone(id) => if id in c.records && c.records[id].refs != {} { c.CloneRef(id); }
      case DoRelease(id, n, committed, keeps, equalKeeps) =>
        if id in c.records && User(n) in c.records[id].refs {
          clean := !(c.records[id].mutable && HitsMarked(c.records, c.marked, id, keeps, equalKeeps));
          c.ReleaseRef(id, n, committed, keeps, equalKeeps);
        }
      case DoSettle(id, committed, keeps, equalKeeps) => c.Settle(id, committed, keeps, equalKeeps);
      case DoCommit(id) =>
        if id in c.records {
          var free := NoEqualOf(c.records, id);
          var i := c.Commit(id);
          clean := i.None? || free;
        }
      case DoFinalize(id) => if id in c.records && c.records[id].refs != {} { c.Finalize(id); }
      case DoNew(parent, size) =>
        if parent.None? || (parent.value in c.records && c.records[parent.value].refs != {})
          { var id := c.New(parent, size); }
      case DoRemoveDead(id) =>
        if id in c.records && c.records[id].mutable && c.records[id].dead && id !in c.marked
           && forall y | y in c.records :: c.records[y].equalMutable != Some(id) { c.RemoveDead(id); }
      case DoMark(gc, only, n) => var batch := c.MarkVictims(gc, x => x in only, n);
      case DoRemove(id) => if id in c.marked { var size := c.RemoveMarked(id); }
    }
  }

  lemma Known(c: Cache)
    requires c.Valid()
    ensures Untouched(c.records, c.records, c.marked)
  {
  }

  /** Whatever happens between marking a record and removing it, nobody gets a reference to it or its equal. */
  method MarkThenRemove(c: Cache, v: RecID, between: seq<Step>) returns (refs: set<Holder>, clean: bool)
    requires c.Valid() && v in c.marked && forall i | 0 <= i < |between| :: between[i] != DoRemove(v)
    modifies c
    ensures clean ==> c.Valid() && v !in c.records && refs == {}
    ensures !clean ==> exists i | 0 <= i < |between| :: between[i].DoCommit? || between[i].DoRelease?
  {
    hide Paired, Victims, Cache.Valid, Untouched;
    refs, clean := {}, true;
    for i := 0 to |between|
      invariant v in c.marked && (clean ==> c.Valid() == true)
      invariant !clean ==> exists j | 0 <= j < i :: between[j].DoCommit? || between[j].DoRelease?
    {
      if clean { clean := Take(c, between[i]); }
    }
    if clean {
      MarkedUnreferenced(c, v);
      refs := c.records[v].refs;
      if c.records[v].equalImmutable.Some? { refs := refs + c.records[c.records[v].equalImmutable.value].refs; }
      var size := c.RemoveMarked(v);
    }
  }

  /** A record in use that has nothing to do with another one any more can be removed: the holder of the mutable record
      that it was committed from releases that one after it has been finalized. */
  method FinalizedThenReleased(size: int) returns (c: Cache, i: RecID, used: bool)
    ensures c.Valid() && used && i !in c.records
  {
    c := new Cache();
    var m := c.New(None, size);
    var r := c.Commit(m);
    i := r.value;
    c.Finalize(i);
    used := i in c.records && c.records[i].refs != {} && c.records[i].equalMutable.None?;
    c.ReleaseRef(m, 0, 0, false, false);
  }

  lemma MarkedUnreferenced(c: Cache, v: RecID)
    requires c.Valid() && v in c.marked
    ensures Unreferenced(c.records, v)
  {
  }

  // ---- how much is kept ----

  datatype PruneInfo = PruneInfo(maxUsedSpace: int, reservedSpace: int, minFreeSpace: int)

  function Max(a: int, b: int): int { if a < b then b else a }
  function Min(a: int, b: int): int { if a < b then a else b }

  /** Keeping k bytes takes no more than what may be used, and leaves as much disk space free as asked; where only
      free space is asked for, what is there may stay. */
  predicate MayKeep(k: int, totalSize: int, free: int, opt: PruneInfo) {
    && (opt.maxUsedSpace != 0 ==> k <= opt.maxUsedSpace)
    && (opt.minFreeSpace > free ==> free + (totalSize - k) >= opt.minFreeSpace)
    && (opt.maxUsedSpace == 0 && opt.minFreeSpace != 0 ==> k <= totalSize)
  }

  predicate Limited(free: int, opt: PruneInfo) {
    opt.maxUsedSpace != 0 || opt.minFreeSpace != 0 || opt.minFreeSpace > free
  }

  /** As many bytes as the limits let the cache keep, but never less than the reserved space. */
  method CalculateKeepBytes(totalSize: int, free: int, opt: PruneInfo) returns (keepBytes: int)
    ensures opt == PruneInfo(0, 0, 0) ==> keepBytes == 0
    ensures opt != PruneInfo(0, 0, 0) ==> keepBytes >= opt.reservedSpace
    ensures opt != PruneInfo(0, 0, 0) && Limited(free, opt) ==>
      && (keepBytes == opt.reservedSpace || MayKeep(keepBytes, totalSize, free, opt))
      && forall k | k > keepBytes :: !MayKeep(k, totalSize, free, opt)
    ensures !Limited(free, opt) ==> keepBytes == Max(0, opt.reservedSpace)
  {
    if opt.maxUsedSpace == 0 && opt.reservedSpace == 0 && opt.minFreeSpace == 0 { return 0; }
    keepBytes := opt.maxUsedSpace;
    var excess := opt.minFreeSpace - free;
    if excess > 0 {
      keepBytes := if keepBytes == 0 then totalSize - excess else Min(keepBytes, totalSize - excess);
    } else if opt.minFreeSpace != 0 && keepBytes == 0 {
      keepBytes := totalSize;
    }
    keepBytes := Max(keepBytes, opt.reservedSpace);
  }

  const MAX_PRUNE_BATCH: nat := 10

  /** The sizes of all records, without the duplicates of mutable ones. */
  ghost function Sizes(records: Records): map<RecID, int> {
    map v | v in records && records[v].equalMutable.None? :: records[v].size
  }

  ghost function Sum(sizes: map<RecID, int>): int {
    if sizes == map[] then 0 else var v :| v in sizes; sizes[v] + Sum(sizes - {v})
  }

  lemma {:induction false} SumWithout(sizes: map<RecID, int>, v: RecID)
    requires v in sizes
    ensures Sum(sizes) == sizes[v] + Sum(sizes - {v})
  {
    var w :| w in sizes && Sum(sizes) == sizes[w] + Sum(sizes - {w});
    if w != v {
      SumWithout(sizes - {w}, v);
      SumWithout(sizes - {v}, w);
      assert sizes - {w} - {v} == sizes - {v} - {w};
    }
  }

  ghost predicate SizesKnown(records: Records) {
    forall v | v in records && records[v].equalMutable.None? :: records[v].size >= 0
  }

  /** Removes the given marked records. */
  method RemoveBatch(c: Cache, batch: set<RecID>) returns (released: int, last: int)
    requires c.Valid() && batch <= c.marked && SizesKnown(c.records)
    modifies c
    ensures c.Valid() && SizesKnown(c.records) && c.records.Keys <= old(c.records).Keys - batch
    ensures released == Sum(Sizes(old(c.records))) - Sum(Sizes(c.records)) && (|batch| == 1 ==> released == last)
      && last >= 0
  {
    hide Paired;
    released, last := 0, 0;
    var todo := batch;
    while todo != {}
      invariant c.Valid() && todo <= c.marked && SizesKnown(c.records) && todo <= batch
      invariant c.records.Keys <= old(c.records).Keys - (batch - todo)
      invariant released == Sum(Sizes(old(c.records))) - Sum(Sizes(c.records)) && last >= 0
      invariant todo == batch ==> released == 0
      invariant |batch| == 1 && todo == {} ==> released == last
      decreases todo
    {
      var v :| v in todo;
      ghost var before := c.records;
      if |batch| == 1 { assert |batch - {v}| == 0; assert todo == batch; }
      last := c.RemoveMarked(v);
      Lighter(before, c.records, v);
      released := released + last;
      todo := todo - {v};
    }
  }

  lemma Lighter(before: Records, now: Records, v: RecID)
    requires SizesKnown(before) && Unreferenced(before, v)
    requires now.Keys == before.Keys - {v} - (if before[v].equalImmutable.Some? then {before[v].equalImmutable.value}
      else {})
    requires forall r | r in now :: now[r].size == before[r].size && now[r].equalMutable == before[r].equalMutable
    ensures SizesKnown(now) && Sum(Sizes(before)) == SizeOf(before, v) + Sum(Sizes(now)) && SizeOf(before, v) >= 0
  {
    SumWithout(Sizes(before), v);
    assert Sizes(now) == Sizes(before) - {v};
  }

  lemma MarkedSizes(records: Records, xs: set<RecID>)
    ensures Sizes(MarkedDead(records, xs)) == Sizes(records)
      && (SizesKnown(records) ==> SizesKnown(MarkedDead(records, xs)))
  {
  }

  /** Prunes until less than keepBytes is left, or nothing can be pruned. What is left is accounted for
      exactly, and no more is removed than needed: before the last removal at least keepBytes were left. */
  method Prune(c: Cache, total: int, keepBytes: int, only: set<RecID>) returns (left: int, removed: nat, last: int)
    requires c.Valid() && SizesKnown(c.records)
    modifies c
    ensures c.Valid() && SizesKnown(c.records) && c.records.Keys <= old(c.records).Keys
    ensures total - left == Sum(Sizes(old(c.records))) - Sum(Sizes(c.records))
    ensures keepBytes != 0 && removed > 0 ==> left >= keepBytes - last && last >= 0
    ensures (keepBytes != 0 && left < keepBytes) || forall x | x in c.records && x in only :: !Prunable(c.records, x)
    ensures removed == 0 ==> left == total && c.records == old(c.records)
  {
    hide Cache.Valid, Sum, Sizes, SizesKnown, Prunable, Untouched;
    left, removed, last := total, 0, 0;
    while keepBytes == 0 || left >= keepBytes
      invariant c.Valid() == true && SizesKnown(c.records) && c.records.Keys <= old(c.records).Keys
      invariant total - left == Sum(Sizes(old(c.records))) - Sum(Sizes(c.records))
      invariant keepBytes != 0 && removed > 0 ==> left >= keepBytes - last && last >= 0
      invariant removed == 0 ==> left == total && c.records == old(c.records)
      decreases c.records.Keys
    {
      ghost var before := c.records;
      var batch := c.MarkVictims(keepBytes != 0, x => x in only, MAX_PRUNE_BATCH);
      MarkedSizes(before, batch);
      if batch == {} {
        assert c.records == before;
        break;
      }
      var released;
      released, last := RemoveBatch(c, batch);
      left, removed := left - released, removed + |batch|;
    }
  }
}
