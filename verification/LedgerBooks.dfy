/** Conservation: what rows say was spent, what was moved on chain, and how far concurrent spends can overshoot. */
module LedgerBooks {
  import opened Authorize
  import opened Bytes
  import opened Contract
  import opened Events
  import opened Ledger
  import opened Runs
  import opened Store
  import opened StoreHistory
  import opened Text
  import opened TypedData
  import opened Wrappers

  // ---- one spend ----

  /** What holds of a spend at every point of its life. */
  predicate Sound(th: Thread) {
    && EqualFold(th.row.agent, th.agent)
    && 0 < th.amount <= MAX_AMOUNT
    && (th.pc in {Checked, NeedPermit} ==> th.permit == Unsent)
    && (th.pc in {Checked, NeedPermit, PermitWait, Ready, Done(GaveUp)} ==> th.transfer == Unsent)
    && (th.pc in {Paid, Done(Success)} ==> th.transfer == Mined)
    && (th.pc == Done(TransferReverted) ==> th.transfer == Reverted)
    && th.pc != Done(BumpFailed)
  }

  /** A spend draws on the allowance of its row's addresses. */
  predicate Keyed(th: Thread) {
    th.key == KeyIfAny(th.row)
  }

  /** The same call, further on. */
  predicate SameCall(th: Thread, after: Thread) {
    && after.row == th.row && after.key == th.key && after.agent == th.agent && after.seller == th.seller
    && after.amount == th.amount && after.now == th.now
  }

  lemma ActedIsSound(th: Thread, act: Act)
    requires Sound(th)
    ensures var after := Acted(th, act);
      && Sound(after) && SameCall(th, after)
      && (after.pc == Done(Success) <==> th.pc == Done(Success))
      && (after.transfer == Mined <==> th.transfer == Mined)
      && (after.permit == Mined <==> th.permit == Mined)
      && (th.pc.Done? ==> after == th)
      && (after.permit != Unsent ==> th.permit != Unsent || PermitCalldata(th.row).Some?)
  {
  }

  /** A row as the wallet keeps it: nothing less than zero was spent, and a signed amount fits a uint160. */
  predicate Plain(r: Authorization) {
    SpentOf(r) >= 0 && (Signed(r) && Allowance(r).Some? ==> Allowance(r).value <= MAX_AMOUNT)
  }

  predicate AllPlain(rows: seq<Authorization>) {
    rows != [] ==> Plain(rows[|rows| - 1]) && AllPlain(rows[..|rows| - 1])
  }

  lemma {:induction false} PlainAt(rows: seq<Authorization>, i: nat)
    requires AllPlain(rows) && i < |rows|
    ensures Plain(rows[i])
  {
    if i < |rows| - 1 {
      PlainAt(rows[..|rows| - 1], i);
    }
  }

  lemma {:induction false} EachPlain(rows: seq<Authorization>)
    requires forall i :: 0 <= i < |rows| ==> Plain(rows[i])
    ensures AllPlain(rows)
  {
    if rows == [] {
    } else {
      EachPlain(rows[..|rows| - 1]);
    }
  }

  lemma OpenedIsSound(rows: seq<Authorization>, agent: string, amount: int, now: int64, seller: string)
    requires AllPlain(rows) && Opened(rows, agent, amount, now, seller).Some?
    ensures var th := Opened(rows, agent, amount, now, seller).value;
      && Sound(th) && Keyed(th) && th.row in rows && Signed(th.row) && th.row.expiration > now
      && Allowance(th.row).Some? && th.amount <= Allowance(th.row).value - SpentOf(th.row)
  {
    var q := ForAgent(agent, now);
    PickSelectsNewest(rows, q);
    var i :| 0 <= i < |rows| && IsNewest(rows, q, i) && Pick(rows, q).value == rows[i];
    PlainAt(rows, i);
  }

  // ---- the books of one row ----

  /** Every spend is sound and its row is in the store. */
  predicate Inv(s: State) {
    && Distinct(s.rows)
    && AllPlain(s.rows)
    && forall t :: 0 <= t < |s.threads| ==> Sound(s.threads[t]) && Lookup(s.rows, IdOf(s.threads[t].row)).Some?
  }

  /** The row's counter is the sum of the spends that ended well. */
  predicate Balanced(s: State, id: Id) {
    Lookup(s.rows, id).Some? ==> Lookup(s.rows, id).value.spentAtoms == PrintInt(Total(BookedOn(id), s.threads))
  }

  lemma {:induction false} NothingBooked(id: Id, threads: seq<Thread>)
    requires forall t :: 0 <= t < |threads| ==> IdOf(threads[t].row) != id
    ensures Total(BookedOn(id), threads) == 0
  {
    if threads == [] {
    } else {
      NothingBooked(id, threads[..|threads| - 1]);
    }
  }

  // ---- the shapes of a step ----

  /** What a step does to rows and spends, whatever it does on chain. */
  datatype Change =
    | Idle
    | Rows(op: Op)
    | Opens(th: Thread)
    | Moves(t: nat, after: Thread)
    | Books(t: nat)

  predicate Opening(rows: seq<Authorization>, th: Thread) {
    && Sound(th) && Keyed(th) && th.pc == Checked && th.transfer == Unsent
    && th.row in rows && Signed(th.row) && th.row.expiration > th.now
    && Allowance(th.row).Some? && th.amount <= Allowance(th.row).value - SpentOf(th.row)
  }

  predicate Moving(th: Thread, after: Thread) {
    && SameCall(th, after)
    && (Sound(th) ==> Sound(after))
    && (after.pc == Done(Success) <==> th.pc == Done(Success))
    && (th.pc.Done? ==> after.pc == th.pc)
    && (after.permit != Unsent ==> th.permit != Unsent || PermitCalldata(th.row).Some?)
  }

  predicate PlainOp(op: Op) {
    match op
    case Put(a) => Signed(a) && Allowance(a).Some? ==> Allowance(a).value <= MAX_AMOUNT
    case Lock(_, _, _) => true
    case Bump(_, add) => add >= 0
  }

  predicate Changed(s: State, c: Change, s2: State) {
    match c
    case Idle => s2.rows == s.rows && s2.threads == s.threads
    case Rows(op) => op.Issued() && !op.Bump? && PlainOp(op) && s2.rows == Apply(s.rows, op) && s2.threads == s.threads
    case Opens(th) => Opening(s.rows, th) && s2.rows == s.rows && s2.threads == s.threads + [th]
    case Moves(t, after) =>
      t < |s.threads| && Moving(s.threads[t], after) && s2.rows == s.rows && s2.threads == s.threads[t := after]
    case Books(t) =>
      && t < |s.threads| && s.threads[t].pc == Paid
      && s2.rows == Apply(s.rows, Bump(IdOf(s.threads[t].row), s.threads[t].amount))
      && s2.threads == s.threads[t := s.threads[t].(pc := Done(Success))]
  }

  /** The final bump always finds its row. */
  lemma BumpFindsItsRow(s: State, t: nat)
    requires Inv(s) && t < |s.threads|
    ensures BumpId(s.threads[t]) == IdOf(s.threads[t].row) && Lookup(s.rows, BumpId(s.threads[t])).Some?
  {
  }

  lemma DoChanges(env: Env, s: State, t: nat, act: Act) returns (c: Change)
    requires Inv(s)
    ensures Changed(s, c, Next(env, s, Do(t, act))) && !c.Rows?
  {
    if t < |s.threads| {
      ActedIsSound(s.threads[t], act);
      c := Moves(t, Acted(s.threads[t], act));
    } else {
      c := Idle;
    }
  }

  lemma MinedPermitMoves(env: Env, s: State, t: nat, time: nat)
    requires t < |s.threads| && s.threads[t].permit == Pending
    ensures var s2 := MinedPermit(env, s, t, time); Changed(s, Moves(t, s2.threads[t]), s2)
  {
  }

  lemma MinedTransferMoves(s: State, t: nat, time: nat, tokenOk: bool)
    requires t < |s.threads| && s.threads[t].transfer == Pending
    ensures var s2 := MinedTransfer(s, t, time, tokenOk); Changed(s, Moves(t, s2.threads[t]), s2)
  {
  }

  lemma BookChanges(s: State, t: nat)
    requires Inv(s) && t < |s.threads| && s.threads[t].pc == Paid
    ensures Changed(s, Books(t), Ledger.Booked(s, t))
  {
    BumpFindsItsRow(s, t);
  }

  lemma BookingChanges(env: Env, s: State, t: nat) returns (c: Change)
    requires Inv(s)
    ensures Changed(s, c, Next(env, s, Book(t))) && !c.Rows?
  {
    c := Idle;
    if t < |s.threads| && s.threads[t].pc == Paid {
      BookChanges(s, t);
      c := Books(t);
    }
  }

  lemma MiningPermitChanges(env: Env, s: State, t: nat, time: nat) returns (c: Change)
    ensures Changed(s, c, Next(env, s, MinePermit(t, time))) && !c.Rows?
  {
    c := Idle;
    if t < |s.threads| && s.threads[t].permit == Pending {
      MinedPermitMoves(env, s, t, time);
      c := Moves(t, MinedPermit(env, s, t, time).threads[t]);
    }
  }

  lemma MiningTransferChanges(env: Env, s: State, t: nat, time: nat, tokenOk: bool) returns (c: Change)
    ensures Changed(s, c, Next(env, s, MineTransfer(t, time, tokenOk))) && !c.Rows?
  {
    c := Idle;
    if t < |s.threads| && s.threads[t].transfer == Pending {
      MinedTransferMoves(s, t, time, tokenOk);
      c := Moves(t, MinedTransfer(s, t, time, tokenOk).threads[t]);
    }
  }

  lemma BeginChanges(env: Env, s: State, agent: string, amount: int, now: int64, seller: string) returns (c: Change)
    requires AllPlain(s.rows)
    ensures Changed(s, c, Next(env, s, Begin(agent, amount, now, seller))) && !c.Rows?
  {
    var th := Opened(s.rows, agent, amount, now, seller);
    if th.Some? {
      OpenedIsSound(s.rows, agent, amount, now, seller);
      c := Opens(th.value);
    } else {
      c := Idle;
    }
  }

  lemma VerifyChanges(env: Env, s: State, claim: Claim) returns (c: Change)
    ensures Changed(s, c, Next(env, s, Verify(claim)))
    ensures RowOp(env, Verify(claim)) == if c.Rows? then Some(c.op) else None
  {
    var row := VerifiedRow(env.crypto, claim);
    VerifiedIsIssued(env.crypto, claim);
    c := if row.Ok? then Rows(Put(row.value)) else Idle;
  }

  lemma VerifiedIsIssued(crypto: Crypto, claim: Claim)
    ensures VerifiedRow(crypto, claim).Ok? ==>
      Put(VerifiedRow(crypto, claim).value).Issued() && PlainOp(Put(VerifiedRow(crypto, claim).value))
  {
    if VerifiedRow(crypto, claim).Ok? {
      VerifiedAmount(crypto, claim);
    }
  }

  lemma ObserveChanges(env: Env, s: State, l: Log) returns (c: Change)
    ensures Changed(s, c, Next(env, s, Observe(l)))
    ensures RowOp(env, Observe(l)) == if c.Rows? then Some(c.op) else None
  {
    var op := LogOp(env.ours, l);
    c := if op.Some? then Rows(op.value) else Idle;
  }

  /** What a step does to the rows, other than counting a spend. */
  function RowOp(env: Env, e: Step): Option<Op> {
    match e
    case Verify(claim) =>
      (match VerifiedRow(env.crypto, claim)
       case Ok(row) => Some(Put(row))
       case Err(_) => None)
    case Observe(l) => LogOp(env.ours, l)
    case _ => None
  }

  lemma NextChanges(env: Env, s: State, e: Step) returns (c: Change)
    requires Inv(s)
    ensures Changed(s, c, Next(env, s, e))
    ensures RowOp(env, e) == if c.Rows? then Some(c.op) else None
  {
    c := Idle;
    match e
    case Verify(claim) => c := VerifyChanges(env, s, claim);
    case Observe(l) => c := ObserveChanges(env, s, l);
    case Begin(agent, amount, now, seller) => c := BeginChanges(env, s, agent, amount, now, seller);
    case Do(t, act) => c := DoChanges(env, s, t, act);
    case Book(t) => c := BookingChanges(env, s, t);
    case MinePermit(t, time) => c := MiningPermitChanges(env, s, t, time);
    case MineTransfer(t, time, tokenOk) => c := MiningTransferChanges(env, s, t, time, tokenOk);
    case Approve(_, _, _, _) =>
    case Lockdown(_) =>
  }

  // ---- the books stay balanced ----

  lemma MergedIsPlain(existing: Option<Authorization>, a: Authorization)
    requires existing.Some? ==> Plain(existing.value)
    requires Put(a).Issued() && PlainOp(Put(a))
    ensures Plain(Merge(existing, a))
  {
    PrintedIsNotBlank(0);
    if existing.Some? {
      OrZeroTwice(existing.value.spentAtoms);
    }
  }

  lemma PutKeepsPlain(rows: seq<Authorization>, a: Authorization)
    requires AllPlain(rows) && Put(a).Issued() && PlainOp(Put(a))
    ensures AllPlain(UpsertRows(rows, a))
  {
    var after := UpsertRows(rows, a);
    forall i | 0 <= i < |after| ensures Plain(after[i]) {
      if i < |rows| {
        PlainAt(rows, i);
      }
      MergedIsPlain(if i < |rows| then Some(rows[i]) else None, a);
    }
    EachPlain(after);
  }

  lemma LockKeepsPlain(rows: seq<Authorization>, owner: string, agent: string, token: string)
    requires AllPlain(rows)
    ensures AllPlain(LockRows(rows, owner, agent, token))
  {
    var after := LockRows(rows, owner, agent, token);
    forall i | 0 <= i < |after| ensures Plain(after[i]) {
      PlainAt(rows, i);
    }
    EachPlain(after);
  }

  lemma BumpedIsPlain(r: Authorization, add: nat)
    requires Plain(r)
    ensures Plain(Bumped(r, add))
  {
    PrintedIsNotBlank(SpentOf(r) + add);
  }

  lemma BumpKeepsPlain(rows: seq<Authorization>, id: Id, add: nat)
    requires AllPlain(rows)
    ensures AllPlain(BumpRows(rows, id, add))
  {
    var after := BumpRows(rows, id, add);
    forall i | 0 <= i < |after| ensures Plain(after[i]) {
      PlainAt(rows, i);
      BumpedIsPlain(rows[i], add);
    }
    EachPlain(after);
  }

  lemma ApplyKeepsPlain(rows: seq<Authorization>, op: Op)
    requires AllPlain(rows) && op.Issued() && PlainOp(op)
    ensures AllPlain(Apply(rows, op))
  {
    match op
    case Put(a) => PutKeepsPlain(rows, a);
    case Lock(owner, agent, token) => LockKeepsPlain(rows, owner, agent, token);
    case Bump(id, add) => BumpKeepsPlain(rows, id, add);
  }

  lemma RowStep(s: State, op: Op, s2: State, id: Id)
    requires Inv(s) && Balanced(s, id) && Changed(s, Rows(op), s2)
    ensures Inv(s2) && Balanced(s2, id)
  {
    RowsKeepInv(s, op);
    LookupApply(s.rows, op, id);
    PrintedIsNotBlank(Total(BookedOn(id), s.threads));
    if Lookup(s.rows, id).None? {
      NothingBooked(id, s.threads);
    }
  }

  lemma OpenStep(s: State, th: Thread, s2: State, id: Id)
    requires Inv(s) && Balanced(s, id) && Changed(s, Opens(th), s2)
    ensures Inv(s2) && Balanced(s2, id)
  {
    TotalAppend(BookedOn(id), s.threads, th);
    OpenKeepsInv(s, th, s2);
  }

  lemma OpenKeepsInv(s: State, th: Thread, s2: State)
    requires Inv(s) && Sound(th) && th.row in s.rows && s2.rows == s.rows && s2.threads == s.threads + [th]
    ensures Inv(s2)
  {
    RowIsFound(s.rows, th.row);
  }

  lemma RowIsFound(rows: seq<Authorization>, r: Authorization)
    requires Distinct(rows) && r in rows
    ensures Lookup(rows, IdOf(r)) == Some(r)
  {
    var i :| 0 <= i < |rows| && rows[i] == r;
    IndexIsFirst(rows, IdOf(r), i);
  }

  lemma MoveStep(s: State, t: nat, after: Thread, s2: State, id: Id)
    requires Inv(s) && Balanced(s, id) && Changed(s, Moves(t, after), s2)
    ensures Inv(s2) && Balanced(s2, id)
  {
    assert Sound(s.threads[t]);
    ThreadKeepsInv(s, t, after, s2);
    MoveKeepsBalance(s, t, after, s2, id);
  }

  lemma MoveKeepsBalance(s: State, t: nat, after: Thread, s2: State, id: Id)
    requires Balanced(s, id) && t < |s.threads| && SameCall(s.threads[t], after)
    requires after.pc == Done(Success) <==> s.threads[t].pc == Done(Success)
    requires s2.rows == s.rows && s2.threads == s.threads[t := after]
    ensures Balanced(s2, id)
  {
    TotalUpdate(BookedOn(id), s.threads, t, after);
  }

  lemma BumpedCounter(rows: seq<Authorization>, target: Id, add: int, id: Id, counted: int)
    requires Lookup(rows, id).Some? && Lookup(rows, id).value.spentAtoms == PrintInt(counted)
    ensures Lookup(Apply(rows, Bump(target, add)), id).Some?
    ensures Lookup(Apply(rows, Bump(target, add)), id).value.spentAtoms == PrintInt(if target == id then counted + add else counted)
  {
    LookupApply(rows, Bump(target, add), id);
    PrintedIsNotBlank(counted);
  }

  lemma BookKeepsInv(s: State, t: nat, s2: State)
    requires Inv(s) && Changed(s, Books(t), s2)
    ensures Inv(s2)
  {
    var th := s.threads[t];
    assert Sound(th);
    RowsKeepInv(s, Bump(IdOf(th.row), th.amount));
    ThreadKeepsInv(s.(rows := s2.rows), t, th.(pc := Done(Success)), s2);
  }

  lemma ThreadKeepsInv(s: State, t: nat, after: Thread, s2: State)
    requires Inv(s) && t < |s.threads| && after.row == s.threads[t].row && Sound(after)
    requires s2.rows == s.rows && s2.threads == s.threads[t := after]
    ensures Inv(s2)
  {
  }

  lemma RowStaysFound(rows: seq<Authorization>, op: Op, id: Id)
    requires Lookup(rows, id).Some?
    ensures Lookup(Apply(rows, op), id).Some?
  {
    LookupApply(rows, op, id);
  }

  /** Rows stay distinct and plain, and every spend keeps its row. */
  lemma RowsKeepInv(s: State, op: Op)
    requires Inv(s) && op.Issued() && PlainOp(op)
    ensures Inv(s.(rows := Apply(s.rows, op)))
  {
    RowsPersist(s.rows, op);
    ApplyKeepsPlain(s.rows, op);
    forall u | 0 <= u < |s.threads| ensures Lookup(Apply(s.rows, op), IdOf(s.threads[u].row)).Some? {
      RowStaysFound(s.rows, op, IdOf(s.threads[u].row));
    }
  }

  lemma BookedGrows(id: Id, threads: seq<Thread>, t: nat)
    requires t < |threads| && threads[t].pc == Paid
    ensures Total(BookedOn(id), threads[t := threads[t].(pc := Done(Success))]) ==
            Total(BookedOn(id), threads) + if IdOf(threads[t].row) == id then threads[t].amount else 0
  {
    TotalUpdate(BookedOn(id), threads, t, threads[t].(pc := Done(Success)));
  }

  lemma BookStep(s: State, t: nat, s2: State, id: Id)
    requires Balanced(s, id) && Changed(s, Books(t), s2)
    ensures Balanced(s2, id)
  {
    BookedGrows(id, s.threads, t);
    var target, add, counted := IdOf(s.threads[t].row), s.threads[t].amount, Total(BookedOn(id), s.threads);
    if Lookup(s.rows, id).Some? {
      BumpedCounter(s.rows, target, add, id, counted);
    } else {
      LookupApply(s.rows, Bump(target, add), id);
    }
  }

  lemma NextKeepsBooks(env: Env, s: State, e: Step, id: Id)
    requires Inv(s) && Balanced(s, id)
    ensures Inv(Next(env, s, e)) && Balanced(Next(env, s, e), id)
  {
    var c := NextChanges(env, s, e);
    ChangeKeepsBooks(s, c, Next(env, s, e), id);
  }

  lemma ChangeKeepsBooks(s: State, c: Change, s2: State, id: Id)
    requires Inv(s) && Balanced(s, id) && Changed(s, c, s2)
    ensures Inv(s2) && Balanced(s2, id)
  {
    match c
    case Idle =>
    case Rows(op) => RowStep(s, op, s2, id);
    case Opens(th) => OpenStep(s, th, s2, id);
    case Moves(t, after) => MoveStep(s, t, after, s2, id);
    case Books(t) =>
      BookKeepsInv(s, t, s2);
      BookStep(s, t, s2, id);
  }

  lemma ReachableBooks(env: Env, steps: seq<Step>, id: Id)
    ensures Inv(Reach(env, steps)) && Balanced(Reach(env, steps), id)
  {
    var inv := (s: State, done: seq<Step>) => Inv(s) && Balanced(s, id);
    forall s, k | 0 <= k < |steps| && inv(s, steps[..k]) ensures inv(Next(env, s, steps[k]), steps[..k + 1]) {
      NextKeepsBooks(env, s, steps[k], id);
    }
    RunKeeps((s, e) => Next(env, s, e), INITIAL, steps, inv);
  }

  /** Rows are never lost. */
  lemma ChangeKeepsRow(s: State, c: Change, s2: State, id: Id)
    requires Changed(s, c, s2) && Lookup(s.rows, id).Some?
    ensures Lookup(s2.rows, id).Some?
  {
    match c
    case Rows(op) => LookupApply(s.rows, op, id);
    case Books(t) => LookupApply(s.rows, Op.Bump(IdOf(s.threads[t].row), s.threads[t].amount), id);
    case _ =>
  }

  /** Rows are never lost along a run. */
  lemma StillListed(env: Env, s: State, steps: seq<Step>, id: Id)
    requires Inv(s) && Balanced(s, id) && Lookup(s.rows, id).Some?
    ensures Lookup(From(env, s, steps).rows, id).Some?
  {
    var inv := (t: State, done: seq<Step>) => Inv(t) && Balanced(t, id) && Lookup(t.rows, id).Some?;
    forall t, k | 0 <= k < |steps| && inv(t, steps[..k]) ensures inv(Next(env, t, steps[k]), steps[..k + 1]) {
      NextKeepsBooks(env, t, steps[k], id);
      var c := NextChanges(env, t, steps[k]);
      ChangeKeepsRow(t, c, Next(env, t, steps[k]), id);
    }
    RunKeeps((t, e) => Next(env, t, e), s, steps, inv);
  }

  // ---- conservation ----

  lemma {:induction false} MovedSplits(id: Id, threads: seq<Thread>)
    requires forall t :: 0 <= t < |threads| ==> Sound(threads[t])
    ensures Total(MovedOn(id), threads) == Total(BookedOn(id), threads) + Total(UnbookedOn(id), threads)
  {
    if threads == [] {
    } else {
      MovedSplits(id, threads[..|threads| - 1]);
    }
  }

  /**
   In every reachable state a row's counter is the sum of the spends that returned without error, and the value moved
   on chain under the row is that counter plus the spends mined but not bumped: those still waiting for or holding
   their receipt, and those whose sending or receipt failed.
   */
  lemma SpendConservation(env: Env, steps: seq<Step>, id: Id)
    requires Lookup(Reach(env, steps).rows, id).Some?
    ensures var s := Reach(env, steps); var r := Lookup(s.rows, id).value;
      && r.spentAtoms == PrintInt(Total(BookedOn(id), s.threads))
      && SpentOf(r) == Total(BookedOn(id), s.threads)
      && Total(MovedOn(id), s.threads) == SpentOf(r) + Total(UnbookedOn(id), s.threads)
      && forall t :: 0 <= t < |s.threads| ==> Accounted(s.threads[t])
  {
    ReachableBooks(env, steps, id);
    BooksMeaning(Reach(env, steps), id);
  }

  /** A spend whose transfer was mined without a bump is still underway, or lost track of its transaction. */
  predicate Accounted(th: Thread) {
    && (th.transfer == Mined && th.pc != Done(Success) ==> th.pc in {TransferWait, Paid, Done(TransferUnknown)})
    && th.pc != Done(BumpFailed)
  }

  lemma BooksMeaning(s: State, id: Id)
    requires Inv(s) && Balanced(s, id) && Lookup(s.rows, id).Some?
    ensures var r := Lookup(s.rows, id).value;
      && SpentOf(r) == Total(BookedOn(id), s.threads)
      && Total(MovedOn(id), s.threads) == SpentOf(r) + Total(UnbookedOn(id), s.threads)
      && forall t :: 0 <= t < |s.threads| ==> Accounted(s.threads[t])
  {
    PrintedIsNotBlank(Total(BookedOn(id), s.threads));
    MovedSplits(id, s.threads);
    forall t | 0 <= t < |s.threads| ensures Accounted(s.threads[t]) {
      SoundIsAccounted(s.threads[t]);
    }
  }

  lemma SoundIsAccounted(th: Thread)
    requires Sound(th)
    ensures Accounted(th)
  {
    if th.pc.Done? {
      match th.pc.outcome {
        case Success =>
        case GaveUp =>
        case TransferReverted =>
        case TransferUnknown =>
        case BumpFailed =>
      }
    }
  }

  // ---- overspending ----

  lemma {:induction false} MovedIsBookedFlyingOrLost(id: Id, threads: seq<Thread>)
    requires forall t :: 0 <= t < |threads| ==> Sound(threads[t])
    ensures Total(MovedOn(id), threads) <= Total(BookedOn(id), threads) + Total(FlyingOn(id), threads) + Total(LostOn(id), threads)
  {
    if threads == [] {
    } else {
      MovedIsBookedFlyingOrLost(id, threads[..|threads| - 1]);
      SoundIsAccounted(threads[|threads| - 1]);
    }
  }

  /** At most `n` spends in flight on the row, whose recorded amount is at most `most`. */
  predicate Limited(s: State, id: Id, n: nat, most: nat) {
    && Total(CountOn(id), s.threads) <= n
    && (Lookup(s.rows, id).Some? && Allowance(Lookup(s.rows, id).value).Some? ==>
      Allowance(Lookup(s.rows, id).value).value <= most)
  }

  /** ... at every point of the run. */
  predicate AlwaysLimited(env: Env, steps: seq<Step>, id: Id, n: nat, most: nat) {
    Limited(Reach(env, steps), id, n, most) && (steps != [] ==> AlwaysLimited(env, steps[..|steps| - 1], id, n, most))
  }

  predicate WithinBound(s: State, id: Id, n: nat, most: nat) {
    SpendsFit(s.threads, id, n * most, most)
  }

  /** What is booked and in flight stays within `bound`, each spend within `most`. */
  predicate SpendsFit(threads: seq<Thread>, id: Id, bound: int, most: nat) {
    && Total(BookedOn(id), threads) + Total(FlyingOn(id), threads) <= bound
    && forall t :: 0 <= t < |threads| && IdOf(threads[t].row) == id ==> threads[t].amount <= most
  }

  lemma {:induction false} FlyingByCount(id: Id, threads: seq<Thread>, most: nat)
    requires forall t :: 0 <= t < |threads| && IdOf(threads[t].row) == id ==> threads[t].amount <= most
    ensures Total(FlyingOn(id), threads) <= Total(CountOn(id), threads) * most
  {
    if threads == [] {
    } else {
      var front, th := threads[..|threads| - 1], threads[|threads| - 1];
      FlyingByCount(id, front, most);
      assert (Total(CountOn(id), front) + 1) * most == Total(CountOn(id), front) * most + most;
    }
  }

  /** A spend that begins fits, with what is booked, under the recorded amount. */
  lemma NewSpendFits(s: State, th: Thread, id: Id, n: nat, most: nat)
    requires Inv(s) && Balanced(s, id) && Opening(s.rows, th) && IdOf(th.row) == id && Limited(s, id, n, most)
    ensures Total(BookedOn(id), s.threads) + th.amount <= most
  {
    RowIsFound(s.rows, th.row);
    PrintedIsNotBlank(Total(BookedOn(id), s.threads));
  }

  lemma OneMore(booked: nat, amount: nat, flying: nat, others: nat, n: nat, most: nat)
    requires booked + amount <= most && flying <= others * most && others + 1 <= n
    ensures booked + flying + amount <= n * most
  {
    assert (others + 1) * most <= n * most;
    assert (others + 1) * most == others * most + most;
  }

  /** The sums once a spend on the row has begun. */
  lemma SumsFit(threads: seq<Thread>, th: Thread, id: Id, n: nat, most: nat)
    requires SpendsFit(threads, id, n * most, most) && IdOf(th.row) == id && !th.pc.Done?
    requires Total(CountOn(id), threads + [th]) <= n && Total(BookedOn(id), threads) + th.amount <= most
    ensures Total(BookedOn(id), threads) + Total(FlyingOn(id), threads) + th.amount <= n * most
  {
    TotalAppend(CountOn(id), threads, th);
    FlyingByCount(id, threads, most);
    OneMore(Total(BookedOn(id), threads), th.amount, Total(FlyingOn(id), threads), Total(CountOn(id), threads), n, most);
  }

  lemma NewSpendFitsToo(threads: seq<Thread>, th: Thread, id: Id, bound: int, most: nat)
    requires SpendsFit(threads, id, bound, most) && th.pc == Checked
    requires IdOf(th.row) == id ==>
      th.amount <= most && Total(BookedOn(id), threads) + Total(FlyingOn(id), threads) + th.amount <= bound
    ensures SpendsFit(threads + [th], id, bound, most)
  {
    TotalAppend(BookedOn(id), threads, th);
    TotalAppend(FlyingOn(id), threads, th);
  }

  lemma OpenWithinBound(s: State, th: Thread, s2: State, id: Id, n: nat, most: nat)
    requires Inv(s) && Balanced(s, id) && WithinBound(s, id, n, most) && Changed(s, Opens(th), s2)
    requires Limited(s, id, n, most) && Limited(s2, id, n, most)
    ensures WithinBound(s2, id, n, most)
  {
    assert Opening(s.rows, th) && s2.threads == s.threads + [th] && Total(CountOn(id), s2.threads) <= n;
    if IdOf(th.row) == id {
      NewSpendFits(s, th, id, n, most);
      SumsFit(s.threads, th, id, n, most);
    }
    NewSpendFitsToo(s.threads, th, id, n * most, most);
  }

  lemma UpdateWithinBound(s: State, t: nat, after: Thread, s2: State, id: Id, n: nat, most: nat)
    requires WithinBound(s, id, n, most) && t < |s.threads| && SameCall(s.threads[t], after)
    requires s.threads[t].pc.Done? ==> after.pc == s.threads[t].pc
    requires s2.threads == s.threads[t := after]
    ensures WithinBound(s2, id, n, most)
  {
    TotalUpdate(BookedOn(id), s.threads, t, after);
    TotalUpdate(FlyingOn(id), s.threads, t, after);
  }

  lemma ChangeWithinBound(s: State, c: Change, s2: State, id: Id, n: nat, most: nat)
    requires Inv(s) && Balanced(s, id) && WithinBound(s, id, n, most) && Changed(s, c, s2)
    requires Limited(s, id, n, most) && Limited(s2, id, n, most)
    ensures WithinBound(s2, id, n, most)
  {
    match c
    case Idle =>
    case Rows(_) =>
    case Opens(th) => OpenWithinBound(s, th, s2, id, n, most);
    case Moves(t, after) => UpdateWithinBound(s, t, after, s2, id, n, most);
    case Books(t) => UpdateWithinBound(s, t, s.threads[t].(pc := Done(Success)), s2, id, n, most);
  }

  lemma StepWithinBound(env: Env, front: seq<Step>, e: Step, id: Id, n: nat, most: nat)
    requires WithinBound(Reach(env, front), id, n, most)
    requires Limited(Reach(env, front), id, n, most) && Limited(Next(env, Reach(env, front), e), id, n, most)
    ensures WithinBound(Next(env, Reach(env, front), e), id, n, most)
  {
    var s := Reach(env, front);
    ReachableBooks(env, front, id);
    var c := NextChanges(env, s, e);
    ChangeWithinBound(s, c, Next(env, s, e), id, n, most);
  }

  lemma ReachSnoc(env: Env, steps: seq<Step>, e: Step)
    ensures Reach(env, steps + [e]) == Next(env, Reach(env, steps), e)
  {
    RunSnoc((t, e) => Next(env, t, e), INITIAL, steps, e);
  }

  /**
   Bounded overspend: if at no point of a run more than `n` spends were in flight on a row or its recorded amount above
   `most`, then what was spent and is in flight never exceeds `n * most`, and neither does what was moved on chain, but for
   the spends that lost track of a mined transfer. With one spend at a time that is `most`.
   */
  lemma {:induction false} BoundedOverspend(env: Env, steps: seq<Step>, id: Id, n: nat, most: nat)
    requires AlwaysLimited(env, steps, id, n, most)
    ensures WithinBound(Reach(env, steps), id, n, most)
    ensures var s := Reach(env, steps);
      Lookup(s.rows, id).Some? ==> SpentOf(Lookup(s.rows, id).value) + Total(FlyingOn(id), s.threads) <= n * most
    ensures var s := Reach(env, steps); Total(MovedOn(id), s.threads) <= n * most + Total(LostOn(id), s.threads)
  {
    if steps == [] {
    } else {
      var front, e := steps[..|steps| - 1], steps[|steps| - 1];
      assert front + [e] == steps;
      BoundedOverspend(env, front, id, n, most);
      ReachSnoc(env, front, e);
      StepWithinBound(env, front, e, id, n, most);
    }
    ReachableBooks(env, steps, id);
    BoundMeaning(Reach(env, steps), id, n, most);
  }

  lemma BoundMeaning(s: State, id: Id, n: nat, most: nat)
    requires Inv(s) && Balanced(s, id) && WithinBound(s, id, n, most)
    ensures Lookup(s.rows, id).Some? ==> SpentOf(Lookup(s.rows, id).value) + Total(FlyingOn(id), s.threads) <= n * most
    ensures Total(MovedOn(id), s.threads) <= n * most + Total(LostOn(id), s.threads)
  {
    MovedIsBookedFlyingOrLost(id, s.threads);
    PrintedIsNotBlank(Total(BookedOn(id), s.threads));
  }
}
