/**
 Link tables: rows joining two entities, removed by a soft-delete flag and revived when the
 same pair is joined again.
 */
module Links {
  import opened Options

  type Id = nat

  datatype Link = Link(left: Id, right: Id, isDeleted: bool)

  type Table = map<Id, Link>

  predicate Joins(row: Link, l: Id, r: Id) {
    row.left == l && row.right == r
  }

  predicate HasRow(t: Table, l: Id, r: Id) {
    exists i :: i in t && Joins(t[i], l, r)
  }

  /** A live row joins l and r. */
  predicate Related(t: Table, l: Id, r: Id) {
    exists i :: i in t && Joins(t[i], l, r) && !t[i].isDeleted
  }

  predicate UniquePairs(t: Table) {
    forall i, j :: i in t && j in t && t[i].left == t[j].left && t[i].right == t[j].right ==> i == j
  }

  /** `findOne` on both columns, deleted rows included. */
  ghost function Find(t: Table, l: Id, r: Id): (found: Option<Id>)
    ensures found.None? <==> !HasRow(t, l, r)
    ensures found.Some? ==> found.value in t && Joins(t[found.value], l, r)
  {
    if HasRow(t, l, r) then
      var i :| i in t && Joins(t[i], l, r);
      Some(i)
    else None
  }

  /** Revives the row of the pair, or inserts one under a new id. */
  ghost function Put(t: Table, l: Id, r: Id, newId: Id): Table {
    match Find(t, l, r)
    case Some(i) => t[i := t[i].(isDeleted := false)]
    case None => t[newId := Link(l, r, false)]
  }

  /** An id is used up only when a row is inserted. */
  ghost function IdAfterPut(t: Table, l: Id, r: Id, newId: Id): Id {
    if HasRow(t, l, r) then newId else newId + 1
  }

  /** Soft-deletes rows. */
  function Retire(t: Table, gone: set<Id>): Table {
    map i | i in t :: if i in gone then t[i].(isDeleted := true) else t[i]
  }

  function LiveFrom(t: Table, l: Id): set<Id> {
    set i | i in t && t[i].left == l && !t[i].isDeleted
  }

  function LiveTo(t: Table, rs: set<Id>): set<Id> {
    set i | i in t && t[i].right in rs && !t[i].isDeleted
  }

  function LiveBetween(t: Table, l: Id, rs: set<Id>): set<Id> {
    set i | i in t && t[i].left == l && t[i].right in rs && !t[i].isDeleted
  }

  /** What l is joined to. */
  function RightsOf(t: Table, l: Id): set<Id> {
    set i | i in t && t[i].left == l && !t[i].isDeleted :: t[i].right
  }

  lemma RightsAreRelated(t: Table, l: Id, r: Id)
    ensures r in RightsOf(t, l) <==> Related(t, l, r)
  {
  }

  lemma FindUnique(t: Table, l: Id, r: Id, i: Id)
    requires UniquePairs(t) && i in t && Joins(t[i], l, r)
    ensures Find(t, l, r) == Some(i)
  {
  }

  /** At most one row per pair survives `Put`, and only that pair becomes joined. */
  lemma PutRelates(t: Table, l: Id, r: Id, newId: Id)
    requires UniquePairs(t) && newId !in t
    ensures UniquePairs(Put(t, l, r, newId))
    ensures forall a, b :: Related(Put(t, l, r, newId), a, b) <==> Related(t, a, b) || (a == l && b == r)
  {
    var t' := Put(t, l, r, newId);
    var at := if Find(t, l, r).Some? then Find(t, l, r).value else newId;
    assert at in t' && Joins(t'[at], l, r) && !t'[at].isDeleted;
    assert forall i :: i in t' && i != at ==> i in t && t'[i] == t[i];
    forall a, b
      ensures Related(t', a, b) <==> Related(t, a, b) || (a == l && b == r)
    {
      if Related(t, a, b) {
        var i :| i in t && Joins(t[i], a, b) && !t[i].isDeleted;
        assert i in t' && Joins(t'[i], a, b) && !t'[i].isDeleted;
      }
    }
  }

  lemma PutAgain(t: Table, l: Id, r: Id, newId: Id)
    requires UniquePairs(t) && Related(t, l, r)
    ensures Put(t, l, r, newId) == t
  {
  }

  lemma RetireRelates(t: Table, gone: set<Id>)
    ensures UniquePairs(t) ==> UniquePairs(Retire(t, gone))
    ensures forall a, b :: Related(Retire(t, gone), a, b)
                      <==> exists i :: i in t && i !in gone && Joins(t[i], a, b) && !t[i].isDeleted
  {
    var t' := Retire(t, gone);
    forall a, b
      ensures Related(t', a, b) <==> exists i :: i in t && i !in gone && Joins(t[i], a, b) && !t[i].isDeleted
    {
      if i :| i in t && i !in gone && Joins(t[i], a, b) && !t[i].isDeleted {
        assert i in t' && Joins(t'[i], a, b) && !t'[i].isDeleted;
      }
    }
  }

  lemma RetireBetweenRelates(t: Table, l: Id, rs: set<Id>)
    ensures UniquePairs(t) ==> UniquePairs(Retire(t, LiveBetween(t, l, rs)))
    ensures forall a, b :: Related(Retire(t, LiveBetween(t, l, rs)), a, b)
                      <==> Related(t, a, b) && !(a == l && b in rs)
  {
    RetireRelates(t, LiveBetween(t, l, rs));
  }

  /** Retiring the one row of a pair and putting the pair back leaves the table as it was. */
  lemma RetireThenPut(t: Table, l: Id, r: Id, newId: Id)
    requires UniquePairs(t) && Related(t, l, r)
    ensures Put(Retire(t, LiveBetween(t, l, {r})), l, r, newId) == t
  {
    var i :| i in t && Joins(t[i], l, r) && !t[i].isDeleted;
    var t' := Retire(t, LiveBetween(t, l, {r}));
    RetireBetweenRelates(t, l, {r});
    FindUnique(t', l, r, i);
  }
}
