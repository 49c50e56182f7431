/** Whole histories of the store: what a row holds after any sequence of operations, and what repeating one changes. */
module StoreHistory {
  import opened Bytes
  import opened Runs
  import opened Text
  import opened Wrappers
  import opened Store

  datatype Op =
    | Put(a: Authorization)
    | Lock(owner: string, agent: string, token: string)
    | Bump(id: Id, add: int)
  {
    predicate Puts(id: Id) {
      Put? && IdOf(a) == id
    }

    predicate Locks(id: Id) {
      Lock? && Fold(owner) == id.owner && Fold(agent) == id.agent && Fold(token) == id.token
    }

    predicate Bumps(id: Id) {
      Bump? && this.id == id
    }

    /** As the authorizer and the event loop issue upserts: with no spend of their own. */
    predicate Issued() {
      Put? ==> a.spentAtoms == ""
    }
  }

  function Apply(rows: seq<Authorization>, op: Op): seq<Authorization> {
    match op
    case Put(a) => UpsertRows(rows, a)
    case Lock(owner, agent, token) => LockRows(rows, owner, agent, token)
    case Bump(id, add) => BumpRows(rows, id, add)
  }

  function ApplyAll(rows: seq<Authorization>, ops: seq<Op>): seq<Authorization> {
    Run(Apply, rows, ops)
  }

  function Ids(rows: seq<Authorization>): (ids: seq<Id>)
    ensures |ids| == |rows|
  {
    seq(|rows|, i requires 0 <= i < |rows| => IdOf(rows[i]))
  }

  predicate Distinct(rows: seq<Authorization>) {
    forall i, j :: 0 <= i < j < |rows| ==> IdOf(rows[i]) != IdOf(rows[j])
  }

  // ---- one row at a time ----

  /** What an operation does to the row of one identity. */
  function OnRow(x: Option<Authorization>, id: Id, op: Op): Option<Authorization> {
    if op.Puts(id) then Some(Merge(x, op.a))
    else if x.None? then None
    else if op.Locks(id) then Some(x.value.(onchainLocked := true))
    else if op.Bumps(id) then Some(Bumped(x.value, op.add))
    else x
  }

  function RowAfter(x: Option<Authorization>, id: Id, ops: seq<Op>): Option<Authorization> {
    if ops == [] then x else OnRow(RowAfter(x, id, ops[..|ops| - 1]), id, ops[|ops| - 1])
  }

  lemma IndexIsFirst(rows: seq<Authorization>, id: Id, i: nat)
    requires i < |rows| && IdOf(rows[i]) == id
    requires forall j :: 0 <= j < i ==> IdOf(rows[j]) != id
    ensures IndexOf(rows, id) == i
  {
  }

  lemma IdsApply(rows: seq<Authorization>, op: Op)
    ensures Ids(Apply(rows, op)) ==
      if op.Put? && Lookup(rows, IdOf(op.a)).None? then Ids(rows) + [IdOf(op.a)] else Ids(rows)
  {
    var after := Apply(rows, op);
    assert forall j :: 0 <= j < |rows| ==> IdOf(after[j]) == IdOf(rows[j]);
  }

  lemma LookupApply(rows: seq<Authorization>, op: Op, id: Id)
    ensures Lookup(Apply(rows, op), id) == OnRow(Lookup(rows, id), id, op)
  {
    var after := Apply(rows, op);
    IdsStay(rows, op);
    var i := IndexOf(rows, id);
    if i < |rows| || op.Puts(id) {
      IndexIsFirst(after, id, i);
    }
  }

  lemma IdsStay(rows: seq<Authorization>, op: Op)
    ensures |rows| <= |Apply(rows, op)|
    ensures forall j :: 0 <= j < |rows| ==> IdOf(Apply(rows, op)[j]) == IdOf(rows[j])
  {
  }

  lemma {:induction false} LookupApplyAll(rows: seq<Authorization>, ops: seq<Op>, id: Id)
    ensures Lookup(ApplyAll(rows, ops), id) == RowAfter(Lookup(rows, id), id, ops)
  {
    if ops == [] {
    } else {
      LookupApplyAll(rows, ops[..|ops| - 1], id);
      LookupApply(ApplyAll(rows, ops[..|ops| - 1]), ops[|ops| - 1], id);
    }
  }

  lemma FoundIffListed(rows: seq<Authorization>, id: Id)
    ensures Lookup(rows, id).Some? <==> id in Ids(rows)
  {
    var i := IndexOf(rows, id);
    if i < |rows| {
      assert Ids(rows)[i] == id;
    }
  }

  lemma {:induction false} DistinctKept(rows: seq<Authorization>, ops: seq<Op>)
    requires Distinct(rows)
    ensures Distinct(ApplyAll(rows, ops))
    ensures Ids(rows) <= Ids(ApplyAll(rows, ops))
  {
    if ops == [] {
    } else {
      var before := ApplyAll(rows, ops[..|ops| - 1]);
      var op := ops[|ops| - 1];
      DistinctKept(rows, ops[..|ops| - 1]);
      var id := if op.Put? then IdOf(op.a) else Id("", "", "", 0);
      IdsApply(before, op);
      FoundIffListed(before, id);
      var after := Apply(before, op);
      forall i, j | 0 <= i < j < |after| ensures IdOf(after[i]) != IdOf(after[j]) {
        assert Ids(after)[i] == IdOf(after[i]) && Ids(after)[j] == IdOf(after[j]);
        assert Ids(before)[i] == IdOf(before[i]);
        if j < |before| {
          assert Ids(before)[j] == IdOf(before[j]);
        }
      }
    }
  }

  // ---- the row list refines a map ----

  function Abs(rows: seq<Authorization>): map<Id, Authorization> {
    map id | id in Ids(rows) :: Lookup(rows, id).GetOr(rows[0])
  }

  function OnMap(m: map<Id, Authorization>, op: Op): map<Id, Authorization> {
    match op
    case Put(a) => m[IdOf(a) := Merge(if IdOf(a) in m then Some(m[IdOf(a)]) else None, a)]
    case Lock(_, _, _) => map id | id in m :: if op.Locks(id) then m[id].(onchainLocked := true) else m[id]
    case Bump(id, add) => if id in m then m[id := Bumped(m[id], add)] else m
  }

  lemma AbsHolds(rows: seq<Authorization>, id: Id)
    ensures id in Abs(rows) <==> Lookup(rows, id).Some?
    ensures id in Abs(rows) ==> Abs(rows)[id] == Lookup(rows, id).value
  {
    FoundIffListed(rows, id);
  }

  lemma EntryRefines(rows: seq<Authorization>, op: Op, id: Id)
    ensures var m := OnMap(Abs(rows), op);
      (if id in m then Some(m[id]) else None) == OnRow(Lookup(rows, id), id, op)
  {
    AbsHolds(rows, id);
    if op.Put? {
      AbsHolds(rows, IdOf(op.a));
    }
  }

  /** Every operation is an update of a finite map. */
  lemma StoreRefinesMap(rows: seq<Authorization>, op: Op)
    ensures Abs(Apply(rows, op)) == OnMap(Abs(rows), op)
  {
    var after, m := Abs(Apply(rows, op)), OnMap(Abs(rows), op);
    forall id
      ensures id in after <==> id in m
      ensures id in after ==> after[id] == m[id]
    {
      LookupApply(rows, op, id);
      EntryRefines(rows, op, id);
      AbsHolds(Apply(rows, op), id);
    }
  }

  /** Rows are never removed, moved or duplicated, and the map holds each of them. */
  lemma RowsPersist(rows: seq<Authorization>, op: Op)
    requires Distinct(rows)
    ensures Distinct(Apply(rows, op)) && Ids(rows) <= Ids(Apply(rows, op))
    ensures forall i :: 0 <= i < |rows| ==> Lookup(rows, IdOf(rows[i])) == Some(rows[i])
  {
    RunSnoc(Apply, rows, [], op);
    assert [] + [op] == [op];
    DistinctKept(rows, [op]);
    forall i | 0 <= i < |rows| ensures Lookup(rows, IdOf(rows[i])) == Some(rows[i]) {
      IndexIsFirst(rows, IdOf(rows[i]), i);
    }
  }

  /** Two stores with the same identities in the same order and the same rows under them are equal. */
  lemma RowsDetermined(r: seq<Authorization>, s: seq<Authorization>)
    requires Distinct(r) && Distinct(s) && Ids(r) == Ids(s)
    requires forall id :: Lookup(r, id) == Lookup(s, id)
    ensures r == s
  {
    forall i | 0 <= i < |r| ensures r[i] == s[i] {
      assert Ids(r)[i] == IdOf(r[i]) && Ids(s)[i] == IdOf(s[i]);
      IndexIsFirst(r, IdOf(r[i]), i);
      IndexIsFirst(s, IdOf(r[i]), i);
      assert Lookup(r, IdOf(r[i])) == Lookup(s, IdOf(r[i]));
    }
  }

  // ---- closed form ----

  /** The last upsert of `id`, or -1. */
  function LastPut(ops: seq<Op>, id: Id): (p: int)
    ensures -1 <= p < |ops|
    ensures p >= 0 ==> ops[p].Puts(id)
    ensures forall j :: p < j < |ops| ==> !ops[j].Puts(id)
  {
    if ops == [] then -1
    else
      var n := |ops| - 1;
      if ops[n].Puts(id) then n else LastPut(ops[..n], id)
  }

  /** The last upsert of `id` that brought a creation time, or -1. */
  function LastStamp(ops: seq<Op>, id: Id): (p: int)
    ensures -1 <= p < |ops|
    ensures p >= 0 ==> ops[p].Puts(id) && ops[p].a.createdAtUnix != 0
    ensures forall j :: p < j < |ops| && ops[j].Puts(id) ==> ops[j].a.createdAtUnix == 0
  {
    if ops == [] then -1
    else
      var n := |ops| - 1;
      if ops[n].Puts(id) && ops[n].a.createdAtUnix != 0 then n else LastStamp(ops[..n], id)
  }

  predicate HasPut(ops: seq<Op>, id: Id) {
    LastPut(ops, id) >= 0
  }

  /** The sum of the bumps that found the row. */
  function SpentIn(ops: seq<Op>, id: Id): int {
    if ops == [] then 0
    else
      var n := |ops| - 1;
      SpentIn(ops[..n], id) + (if ops[n].Bumps(id) && HasPut(ops[..n], id) then ops[n].add else 0)
  }

  predicate LockedAfter(ops: seq<Op>, id: Id, p: int) {
    exists j :: 0 <= j < |ops| && p < j && ops[j].Locks(id)
  }

  /** The row of `id` read off a history. */
  function RowIn(ops: seq<Op>, id: Id): Option<Authorization> {
    var p, q := LastPut(ops, id), LastStamp(ops, id);
    if p < 0 then None
    else Some(Assembled(ops[p].a, LockedAfter(ops, id, p), if q >= 0 then ops[q].a.createdAtUnix else 0, SpentIn(ops, id)))
  }

  function Assembled(a: Authorization, locked: bool, created: int64, spent: int): Authorization {
    a.(onchainLocked := a.onchainLocked || locked, createdAtUnix := created, spentAtoms := PrintInt(spent))
  }

  lemma OnAssembled(a: Authorization, locked: bool, created: int64, spent: int, id: Id, op: Op)
    requires !op.Puts(id)
    ensures OnRow(Some(Assembled(a, locked, created, spent)), id, op) ==
            Some(Assembled(a, locked || op.Locks(id), created, spent + if op.Bumps(id) then op.add else 0))
  {
    PrintedIsNotBlank(spent);
  }

  lemma PrintedIsNotBlank(n: int)
    ensures OrZero(PrintInt(n)) == PrintInt(n)
    ensures ParseInt(OrZero(PrintInt(n))) == Some(n)
  {
    ParsePrint(n);
    ParsedIsTrimmed(PrintInt(n));
  }

  lemma OrZeroTwice(s: string)
    ensures OrZero(OrZero(s)) == OrZero(s)
  {
    PrintedIsNotBlank(0);
  }

  lemma LockedLater(ops: seq<Op>, id: Id, p: int)
    requires ops != [] && p < |ops| - 1
    ensures LockedAfter(ops, id, p) <==> LockedAfter(ops[..|ops| - 1], id, p) || ops[|ops| - 1].Locks(id)
  {
    var n := |ops| - 1;
    if LockedAfter(ops[..n], id, p) {
      var j :| 0 <= j < n && p < j && ops[..n][j].Locks(id);
      assert ops[j].Locks(id);
    }
    if LockedAfter(ops, id, p) && !ops[n].Locks(id) {
      var j :| 0 <= j < |ops| && p < j && ops[j].Locks(id);
      assert ops[..n][j].Locks(id);
    }
  }

  lemma {:induction false} NothingBeforePut(ops: seq<Op>, id: Id)
    requires !HasPut(ops, id)
    ensures SpentIn(ops, id) == 0 && LastStamp(ops, id) == -1
  {
    if ops == [] {
    } else {
      NothingBeforePut(ops[..|ops| - 1], id);
    }
  }

  lemma RowInPut(ops: seq<Op>, id: Id)
    requires ops != [] && ops[|ops| - 1].Puts(id) && ops[|ops| - 1].Issued()
    ensures RowIn(ops, id) == Some(Merge(RowIn(ops[..|ops| - 1], id), ops[|ops| - 1].a))
  {
    var n := |ops| - 1;
    PrintedIsNotBlank(SpentIn(ops[..n], id));
    assert LastPut(ops, id) == n && !LockedAfter(ops, id, n);
    assert SpentIn(ops, id) == SpentIn(ops[..n], id);
    if !HasPut(ops[..n], id) {
      NothingBeforePut(ops[..n], id);
    }
  }

  /** What the history says of a row changes with one more operation only as `OnRow` says. */
  lemma ReadingsGrow(ops: seq<Op>, id: Id)
    requires ops != [] && !ops[|ops| - 1].Puts(id)
    ensures var n := |ops| - 1; var op := ops[n];
      && LastPut(ops, id) == LastPut(ops[..n], id) && LastStamp(ops, id) == LastStamp(ops[..n], id)
      && SpentIn(ops, id) == SpentIn(ops[..n], id) + (if op.Bumps(id) && HasPut(ops[..n], id) then op.add else 0)
      && (HasPut(ops, id) ==>
        (LockedAfter(ops, id, LastPut(ops, id)) <==> LockedAfter(ops[..n], id, LastPut(ops, id)) || op.Locks(id)))
  {
    if HasPut(ops, id) {
      LockedLater(ops, id, LastPut(ops, id));
    }
  }

  lemma RowInOther(ops: seq<Op>, id: Id)
    requires ops != [] && !ops[|ops| - 1].Puts(id)
    ensures RowIn(ops, id) == OnRow(RowIn(ops[..|ops| - 1], id), id, ops[|ops| - 1])
  {
    var n := |ops| - 1;
    var front, op := ops[..n], ops[n];
    ReadingsGrow(ops, id);
    var p, q := LastPut(front, id), LastStamp(front, id);
    if p >= 0 {
      OnAssembled(front[p].a, LockedAfter(front, id, p), if q >= 0 then front[q].a.createdAtUnix else 0, SpentIn(front, id), id, op);
    }
  }

  /** Closed form: after any history from the empty store, each row is what `RowIn` reads off that history. */
  lemma {:induction false} HistoryClosedForm(ops: seq<Op>, id: Id)
    requires forall i :: 0 <= i < |ops| ==> ops[i].Issued()
    ensures Lookup(ApplyAll([], ops), id) == RowIn(ops, id)
  {
    if ops == [] {
    } else {
      var n := |ops| - 1;
      HistoryClosedForm(ops[..n], id);
      LookupApply(ApplyAll([], ops[..n]), ops[n], id);
      if ops[n].Puts(id) {
        RowInPut(ops, id);
      } else {
        RowInOther(ops, id);
      }
    }
  }

  /** Rows sit in the order of their first upserts. */
  lemma {:induction false} FirstUpsertOrder(ops: seq<Op>, i: nat, j: nat)
    requires i < j < |ApplyAll([], ops)|
    ensures var ids := Ids(ApplyAll([], ops));
      exists p :: 0 <= p < |ops| && ops[p].Puts(ids[i]) && forall q :: 0 <= q <= p ==> !ops[q].Puts(ids[j])
  {
    var n := |ops| - 1;
    var front := ops[..n];
    var ids, before := Ids(ApplyAll([], ops)), Ids(ApplyAll([], front));
    IdsApply(ApplyAll([], front), ops[n]);
    if j < |before| {
      FirstUpsertOrder(front, i, j);
      var p :| 0 <= p < n && front[p].Puts(ids[i]) && forall q :: 0 <= q <= p ==> !front[q].Puts(ids[j]);
      assert ops[p].Puts(ids[i]) && forall q :: 0 <= q <= p ==> ops[q] == front[q];
    } else {
      ListedIffPut(front, ids[i]);
      ListedIffPut(front, ids[j]);
      FoundIffListed(ApplyAll([], front), ids[j]);
      assert before[i] == ids[i];
      var p := LastPut(front, ids[i]);
      assert ops[p].Puts(ids[i]) && forall q :: 0 <= q <= p ==> ops[q] == front[q];
    }
  }

  lemma {:induction false} ListedIffPut(ops: seq<Op>, id: Id)
    ensures id in Ids(ApplyAll([], ops)) <==> HasPut(ops, id)
  {
    if ops == [] {
    } else {
      var n := |ops| - 1;
      ListedIffPut(ops[..n], id);
      IdsApply(ApplyAll([], ops[..n]), ops[n]);
      FoundIffListed(ApplyAll([], ops[..n]), id);
    }
  }

  // ---- repeating a history ----

  /** Histories of the event loop: issued upserts and locks, no spends. */
  predicate Observed(ops: seq<Op>) {
    forall i :: 0 <= i < |ops| ==> ops[i].Issued() && !ops[i].Bump?
  }

  /** The creation time a row has after `ops`, from the one it had before. */
  function Stamp(ops: seq<Op>, id: Id, created: int64): int64 {
    var q := LastStamp(ops, id);
    if q >= 0 then ops[q].a.createdAtUnix else created
  }

  function Core(a: Authorization): Authorization {
    a.(spentAtoms := "", createdAtUnix := 0)
  }

  /** The counted spend and the creation time a row has after a history, from those it had before. */
  lemma {:induction false} RowCounters(ops: seq<Op>, id: Id, x: Option<Authorization>)
    requires Observed(ops)
    ensures var r := RowAfter(x, id, ops);
      && (r.Some? <==> x.Some? || HasPut(ops, id))
      && (r.Some? ==>
        && r.value.createdAtUnix == Stamp(ops, id, if x.Some? then x.value.createdAtUnix else 0)
        && r.value.spentAtoms == if x.None? then "0" else if HasPut(ops, id) then OrZero(x.value.spentAtoms) else x.value.spentAtoms)
  {
    if ops == [] {
    } else {
      RowCounters(ops[..|ops| - 1], id, x);
      PrintedIsNotBlank(0);
    }
  }

  lemma OnRowForgets(x: Option<Authorization>, y: Option<Authorization>, id: Id, op: Op)
    requires !op.Bump? && (op.Puts(id) || (x.Some? && y.Some? && Core(x.value) == Core(y.value))) && op.Issued()
    ensures OnRow(x, id, op).Some? && OnRow(y, id, op).Some?
    ensures Core(OnRow(x, id, op).value) == Core(OnRow(y, id, op).value)
  {
  }

  /** Once upserted, the rest of a row no longer depends on what it was. */
  lemma {:induction false} RowForgets(ops: seq<Op>, id: Id, x: Option<Authorization>, y: Option<Authorization>)
    requires Observed(ops) && HasPut(ops, id)
    ensures RowAfter(x, id, ops).Some? && RowAfter(y, id, ops).Some?
    ensures Core(RowAfter(x, id, ops).value) == Core(RowAfter(y, id, ops).value)
  {
    var front, op := ops[..|ops| - 1], ops[|ops| - 1];
    if !op.Puts(id) {
      RowForgets(front, id, x, y);
    }
    OnRowForgets(RowAfter(x, id, front), RowAfter(y, id, front), id, op);
  }

  lemma {:induction false} RowWithoutPut(ops: seq<Op>, id: Id, x: Option<Authorization>)
    requires Observed(ops) && !HasPut(ops, id) && x.Some?
    ensures RowAfter(x, id, ops).Some?
    ensures RowAfter(x, id, ops).value in {x.value, x.value.(onchainLocked := true)}
    ensures forall y: Option<Authorization> :: y.Some? && RowAfter(x, id, ops).value != x.value ==>
      RowAfter(y, id, ops) == Some(y.value.(onchainLocked := true))
  {
    if ops == [] {
    } else {
      RowWithoutPut(ops[..|ops| - 1], id, x);
      forall y: Option<Authorization> | y.Some? && RowAfter(x, id, ops).value != x.value
        ensures RowAfter(y, id, ops) == Some(y.value.(onchainLocked := true))
      {
        if ops[|ops| - 1].Locks(id) {
          RowWithoutPut(ops[..|ops| - 1], id, y);
        }
      }
    }
  }

  lemma RowTwice(ops: seq<Op>, id: Id, x: Option<Authorization>)
    requires Observed(ops)
    ensures RowAfter(RowAfter(x, id, ops), id, ops) == RowAfter(x, id, ops)
  {
    var y := RowAfter(x, id, ops);
    var z := RowAfter(y, id, ops);
    RowCounters(ops, id, x);
    RowCounters(ops, id, y);
    if HasPut(ops, id) {
      RowForgets(ops, id, x, y);
      PrintedIsNotBlank(0);
      assert y.value == Core(y.value).(spentAtoms := y.value.spentAtoms, createdAtUnix := y.value.createdAtUnix);
      assert z.value == Core(z.value).(spentAtoms := z.value.spentAtoms, createdAtUnix := z.value.createdAtUnix);
    } else if x.Some? {
      RowWithoutPut(ops, id, x);
      RowWithoutPut(ops, id, y);
    }
  }

  lemma {:induction false} PutsAreListed(rows: seq<Authorization>, ops: seq<Op>)
    requires forall id :: HasPut(ops, id) ==> id in Ids(rows)
    ensures Ids(ApplyAll(rows, ops)) == Ids(rows)
  {
    if ops == [] {
    } else {
      var n := |ops| - 1;
      forall id | HasPut(ops[..n], id) ensures id in Ids(rows) {
      }
      PutsAreListed(rows, ops[..n]);
      if ops[n].Put? {
        assert HasPut(ops, IdOf(ops[n].a));
        FoundIffListed(ApplyAll(rows, ops[..n]), IdOf(ops[n].a));
      }
      IdsApply(ApplyAll(rows, ops[..n]), ops[n]);
    }
  }

  /** A second pass over a history of events changes nothing, row for row and in order. */
  lemma ReplayIsNeutral(rows: seq<Authorization>, ops: seq<Op>)
    requires Distinct(rows) && Observed(ops)
    ensures ApplyAll(ApplyAll(rows, ops), ops) == ApplyAll(rows, ops)
  {
    var once := ApplyAll(rows, ops);
    var twice := ApplyAll(once, ops);
    DistinctKept(rows, ops);
    DistinctKept(once, ops);
    forall id | HasPut(ops, id) ensures id in Ids(once) {
      LookupApplyAll(rows, ops, id);
      RowCounters(ops, id, Lookup(rows, id));
      FoundIffListed(once, id);
    }
    PutsAreListed(once, ops);
    forall id ensures Lookup(twice, id) == Lookup(once, id) {
      LookupApplyAll(rows, ops, id);
      LookupApplyAll(once, ops, id);
      RowTwice(ops, id, Lookup(rows, id));
    }
    RowsDetermined(twice, once);
  }

  /** Delivering a prefix first and then everything is the same as delivering everything. */
  lemma PrefixAbsorbed(rows: seq<Authorization>, prefix: seq<Op>, ops: seq<Op>)
    requires Distinct(rows) && Observed(ops) && prefix <= ops
    ensures ApplyAll(ApplyAll(rows, prefix), ops) == ApplyAll(rows, ops)
  {
    var rest := ops[|prefix|..];
    assert ops == prefix + rest;
    assert Observed(prefix) by {
      forall i | 0 <= i < |prefix| ensures prefix[i].Issued() && !prefix[i].Bump? { assert prefix[i] == ops[i]; }
    }
    ReplayIsNeutral(rows, prefix);
    RunSum(Apply, rows, prefix, rest);
    RunSum(Apply, ApplyAll(rows, prefix), prefix, rest);
  }
}
