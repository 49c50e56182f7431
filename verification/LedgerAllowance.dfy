/** Permits for one row of a key: what one sets on chain, and runs in which one is enough. */
module LedgerAllowance {
  import opened Authorize
  import opened Bytes
  import opened Contract
  import opened Ledger
  import opened LedgerBooks
  import opened Permit2
  import opened Runs
  import opened Store
  import opened StoreHistory
  import opened TypedData
  import opened Wrappers

  /** One authorization: its key on chain, its row, and the amount and time it was signed for. */
  datatype Deal = Deal(key: Key, id: Id, amount: nat, expiration: int64) {
    predicate Valid() {
      amount <= MAX_AMOUNT && 0 <= expiration
    }
  }

  predicate Terms(d: Deal, r: Authorization) {
    IdOf(r) == d.id && Allowance(r) == Some(d.amount) && r.expiration == d.expiration
  }

  /** The key is used by this row only, and the row keeps its amount and time. */
  predicate Agrees(d: Deal, r: Authorization) {
    KeyIfAny(r) == Some(d.key) ==> Terms(d, r)
  }

  function PermitsMined(d: Deal, s: State): nat {
    Total(PermitsOn(d.key), s.threads)
  }

  predicate NewRowAgrees(env: Env, d: Deal, e: Step) {
    RowOp(env, e).Some? && RowOp(env, e).value.Put? ==> Agrees(d, RowOp(env, e).value.a)
  }

  /**
   A step of an undisturbed run: the row is not replaced by another, spends on the key come one at a time, every call
   is answered truthfully and every receipt arrives, and nobody else changes the allowance.
   */
  predicate Calm(env: Env, d: Deal, s: State, e: Step) {
    match e
    case Verify(_) => NewRowAgrees(env, d, e)
    case Observe(_) => NewRowAgrees(env, d, e)
    case Begin(agent, amount, now, seller) =>
      var th := Opened(s.rows, agent, amount, now, seller);
      th.Some? && th.value.key == Some(d.key) ==> Total(LiveOn(d.key), s.threads) == 0
    case Do(t, act) => t < |s.threads| && s.threads[t].key == Some(d.key) ==> Answered(d, s.allow, act)
    case Approve(key, _, _, _) => key != d.key
    case Lockdown(key) => key != d.key
    case _ => true
  }

  /** The node answers, and truthfully; transactions and receipts arrive. */
  predicate Answered(d: Deal, allow: Allowances, act: Act) {
    (act.ReadAllowance? ==> act.answer == Some(AllowedAt(allow, d.key))) && Arrives(act)
  }

  predicate Arrives(act: Act) {
    match act
    case SendPermit(accepted, reported) => accepted == reported
    case SendTransfer(accepted, reported) => accepted == reported
    case LosePermit => false
    case LoseTransfer => false
    case _ => true
  }

  predicate AllKeyed(s: State) {
    forall t :: 0 <= t < |s.threads| ==> Keyed(s.threads[t])
  }

  lemma ChangeKeepsKeys(s: State, c: Change, s2: State)
    requires AllKeyed(s) && Changed(s, c, s2)
    ensures AllKeyed(s2)
  {
    match c
    case Moves(t, after) => assert Keyed(s.threads[t]);
    case Books(t) => assert Keyed(s.threads[t]);
    case _ =>
  }

  lemma ReachableKeys(env: Env, steps: seq<Step>)
    ensures AllKeyed(Reach(env, steps))
  {
    var any := Id("", "", "", 0);
    var inv := (s: State, done: seq<Step>) => Inv(s) && Balanced(s, any) && AllKeyed(s);
    forall s, k | 0 <= k < |steps| && inv(s, steps[..k]) ensures inv(Next(env, s, steps[k]), steps[..k + 1]) {
      NextKeepsBooks(env, s, steps[k], any);
      var c := NextChanges(env, s, steps[k]);
      ChangeKeepsKeys(s, c, Next(env, s, steps[k]));
    }
    RunKeeps((s, e) => Next(env, s, e), INITIAL, steps, inv);
  }

  // ---- the invariant ----

  /** Nothing of an ended spend is left hanging on chain. */
  predicate Tidy(d: Deal, th: Thread) {
    && Sound(th)
    && Terms(d, th.row)
    && th.row.expiration > th.now
    && (th.permit == Pending ==> th.pc == PermitWait)
    && (th.transfer == Pending ==> th.pc == TransferWait)
    && (th.pc.Done? && th.transfer == Mined ==> th.pc == Done(Success))
  }

  /** A spend that has not yet sent its transfer still fits under the amount; it asks for a permit only if none was mined. */
  predicate Entitled(d: Deal, th: Thread, drawn: nat, permits: nat) {
    && (th.pc in {Checked, NeedPermit, PermitWait, Ready} ==> th.amount + drawn <= d.amount)
    && (th.pc == NeedPermit || (th.pc == PermitWait && th.permit == Pending) ==> permits == 0)
  }

  /** The contract allows at least what the amount leaves after the transfers drawn on it. */
  predicate Backed(d: Deal, allowed: Allowed, drawn: nat) {
    && (allowed.amount == MAX_AMOUNT || allowed.amount + drawn >= d.amount)
    && (allowed.expiration == d.expiration || (d.expiration == 0 && allowed.expiration < TWO_48))
  }

  predicate OnlyLive(d: Deal, s: State) {
    && Total(LiveOn(d.key), s.threads) <= 1
    && PermitsMined(d, s) <= 1
    && (PermitsMined(d, s) > 0 ==> Backed(d, AllowedAt(s.allow, d.key), Total(DrawnOn(d.key), s.threads)))
  }

  predicate Undisturbed(d: Deal, s: State) {
    && OnlyLive(d, s)
    && (forall i :: 0 <= i < |s.rows| ==> Agrees(d, s.rows[i]))
    && forall t :: 0 <= t < |s.threads| && s.threads[t].key == Some(d.key) ==>
      Tidy(d, s.threads[t]) && Entitled(d, s.threads[t], Total(DrawnOn(d.key), s.threads), PermitsMined(d, s))
  }

  lemma OthersEnded(key: Key, threads: seq<Thread>, t: nat, u: nat)
    requires t < |threads| && u < |threads| && t != u
    requires Total(LiveOn(key), threads) <= 1 && Weigh(LiveOn(key), threads[t]) == 1
    ensures Weigh(LiveOn(key), threads[u]) == 0
  {
    var gone := threads[t].(pc := Done(GaveUp));
    TotalUpdate(LiveOn(key), threads, t, gone);
    TotalUpdate(LiveOn(key), threads[t := gone], u, threads[u]);
  }

  /** What a step by the one live spend of the key must leave behind. */
  predicate Lawful(d: Deal, s: State, t: nat, after: Thread, s2: State)
    requires t < |s.threads|
  {
    var drawn := Total(DrawnOn(d.key), s.threads) + Weigh(DrawnOn(d.key), after) - Weigh(DrawnOn(d.key), s.threads[t]);
    var permits := PermitsMined(d, s) + Weigh(PermitsOn(d.key), after) - Weigh(PermitsOn(d.key), s.threads[t]);
    && 0 <= drawn && 0 <= permits <= 1 && Entitled(d, after, drawn, permits)
    && (permits > 0 ==> Backed(d, AllowedAt(s2.allow, d.key), drawn))
  }

  lemma EndedIsEntitled(d: Deal, th: Thread, drawn: nat, permits: nat)
    requires th.pc.Done?
    ensures Entitled(d, th, drawn, permits)
  {
  }

  /** A step by the one live spend of the key. */
  lemma LiveStep(d: Deal, s: State, t: nat, after: Thread, s2: State)
    requires Undisturbed(d, s) && t < |s.threads| && s.threads[t].key == Some(d.key) && !s.threads[t].pc.Done?
    requires SameCall(s.threads[t], after) && Tidy(d, after) && s2.threads == s.threads[t := after]
    requires forall i :: 0 <= i < |s2.rows| ==> Agrees(d, s2.rows[i])
    requires Lawful(d, s, t, after, s2)
    ensures Undisturbed(d, s2)
  {
    TotalUpdate(DrawnOn(d.key), s.threads, t, after);
    TotalUpdate(PermitsOn(d.key), s.threads, t, after);
    TotalUpdate(LiveOn(d.key), s.threads, t, after);
    assert OnlyLive(d, s2);
    forall u | 0 <= u < |s.threads| && s2.threads[u].key == Some(d.key)
      ensures Tidy(d, s2.threads[u]) && Entitled(d, s2.threads[u], Total(DrawnOn(d.key), s2.threads), PermitsMined(d, s2))
    {
      if u != t {
        OthersEnded(d.key, s.threads, t, u);
        EndedIsEntitled(d, s.threads[u], Total(DrawnOn(d.key), s2.threads), PermitsMined(d, s2));
      }
    }
  }

  /** A step that leaves the key alone. */
  lemma AsideStep(d: Deal, s: State, t: nat, after: Thread, s2: State)
    requires Undisturbed(d, s) && t < |s.threads| && SameCall(s.threads[t], after)
    requires s.threads[t].key != Some(d.key) || after == s.threads[t]
    requires s2.threads == s.threads[t := after] && AllowedAt(s2.allow, d.key) == AllowedAt(s.allow, d.key)
    requires forall i :: 0 <= i < |s2.rows| ==> Agrees(d, s2.rows[i])
    ensures Undisturbed(d, s2)
  {
    TotalKept(DrawnOn(d.key), s.threads, t, after);
    TotalKept(PermitsOn(d.key), s.threads, t, after);
    TotalKept(LiveOn(d.key), s.threads, t, after);
  }

  lemma TotalKept(m: Meter, threads: seq<Thread>, t: nat, after: Thread)
    requires t < |threads| && Weigh(m, after) == Weigh(m, threads[t])
    ensures Total(m, threads[t := after]) == Total(m, threads)
  {
    TotalUpdate(m, threads, t, after);
  }

  // ---- the steps ----

  lemma RowsStillAgree(d: Deal, rows: seq<Authorization>, op: Op)
    requires forall i :: 0 <= i < |rows| ==> Agrees(d, rows[i])
    requires op.Put? ==> Agrees(d, op.a)
    ensures forall i :: 0 <= i < |Apply(rows, op)| ==> Agrees(d, Apply(rows, op)[i])
  {
    var after := Apply(rows, op);
    forall i | 0 <= i < |after| ensures Agrees(d, after[i]) {
      var from := if op.Put? && (i == |rows| || after[i] != rows[i]) then op.a else rows[i];
      assert after[i] == from.(spentAtoms := after[i].spentAtoms, onchainLocked := after[i].onchainLocked,
                               createdAtUnix := after[i].createdAtUnix);
    }
  }

  lemma DrawnIsBooked(d: Deal, s: State)
    requires Undisturbed(d, s) && Total(LiveOn(d.key), s.threads) == 0
    ensures Total(DrawnOn(d.key), s.threads) <= Total(BookedOn(d.id), s.threads)
  {
    forall t | 0 <= t < |s.threads| ensures Weigh(DrawnOn(d.key), s.threads[t]) <= Weigh(BookedOn(d.id), s.threads[t]) {
      TotalUpdate(LiveOn(d.key), s.threads, t, s.threads[t]);
    }
    TotalOrder(DrawnOn(d.key), BookedOn(d.id), s.threads);
  }

  lemma OpenedIsEntitled(d: Deal, s: State, th: Thread)
    requires Undisturbed(d, s) && Inv(s) && Balanced(s, d.id) && Opening(s.rows, th)
    requires th.key == Some(d.key) && Total(LiveOn(d.key), s.threads) == 0
    ensures Tidy(d, th) && Entitled(d, th, Total(DrawnOn(d.key), s.threads), PermitsMined(d, s))
  {
    var i :| 0 <= i < |s.rows| && s.rows[i] == th.row;
    assert Agrees(d, s.rows[i]);
    RowIsFound(s.rows, th.row);
    PrintedIsNotBlank(Total(BookedOn(d.id), s.threads));
    DrawnIsBooked(d, s);
  }

  lemma JoinTotals(d: Deal, threads: seq<Thread>, th: Thread)
    requires th.pc == Checked && th.transfer == Unsent && th.permit == Unsent
    ensures Total(DrawnOn(d.key), threads + [th]) == Total(DrawnOn(d.key), threads)
    ensures Total(PermitsOn(d.key), threads + [th]) == Total(PermitsOn(d.key), threads)
    ensures Total(LiveOn(d.key), threads + [th]) == Total(LiveOn(d.key), threads) + if th.key == Some(d.key) then 1 else 0
  {
    JoinsWith(DrawnOn(d.key), threads, th, 0);
    JoinsWith(PermitsOn(d.key), threads, th, 0);
    JoinsWith(LiveOn(d.key), threads, th, if th.key == Some(d.key) then 1 else 0);
  }

  lemma JoinsWith(m: Meter, threads: seq<Thread>, th: Thread, w: nat)
    requires Weigh(m, th) == w
    ensures Total(m, threads + [th]) == Total(m, threads) + w
  {
    TotalAppend(m, threads, th);
  }

  lemma JoinStep(d: Deal, s: State, th: Thread, s2: State)
    requires Undisturbed(d, s) && th.pc == Checked && th.transfer == Unsent && th.permit == Unsent
    requires s2 == s.(threads := s.threads + [th])
    requires th.key == Some(d.key) ==>
      && Total(LiveOn(d.key), s.threads) == 0
      && Tidy(d, th) && Entitled(d, th, Total(DrawnOn(d.key), s.threads), PermitsMined(d, s))
    ensures Undisturbed(d, s2)
  {
    JoinTotals(d, s.threads, th);
  }

  lemma CalmBegin(env: Env, d: Deal, s: State, agent: string, amount: int, now: int64, seller: string)
    requires d.Valid() && Undisturbed(d, s) && Inv(s) && Balanced(s, d.id) && Calm(env, d, s, Begin(agent, amount, now, seller))
    ensures Undisturbed(d, Next(env, s, Begin(agent, amount, now, seller)))
  {
    var th := Opened(s.rows, agent, amount, now, seller);
    if th.Some? {
      OpenedIsSound(s.rows, agent, amount, now, seller);
      if th.value.key == Some(d.key) {
        OpenedIsEntitled(d, s, th.value);
      }
      JoinStep(d, s, th.value, Next(env, s, Begin(agent, amount, now, seller)));
    }
  }

  /** Under a mined permit the contract covers every entitled spend, so none asks for a second one. */
  lemma CoveredWhenBacked(d: Deal, allow: Allowances, th: Thread, drawn: nat)
    requires d.Valid() && th.key == Some(d.key) && Tidy(d, th) && th.amount + drawn <= d.amount
    requires Backed(d, AllowedAt(allow, d.key), drawn)
    ensures Covers(allow, th)
  {
  }

  /** A step of the live spend that mines nothing. */
  lemma QuietMove(d: Deal, s: State, t: nat, after: Thread, s2: State)
    requires Undisturbed(d, s) && t < |s.threads| && s.threads[t].key == Some(d.key) && !s.threads[t].pc.Done?
    requires SameCall(s.threads[t], after) && Tidy(d, after)
    requires (after.transfer == Mined <==> s.threads[t].transfer == Mined) && (after.permit == Mined <==> s.threads[t].permit == Mined)
    requires Entitled(d, after, Total(DrawnOn(d.key), s.threads), PermitsMined(d, s))
    requires s2.threads == s.threads[t := after] && s2.allow == s.allow
    requires forall i :: 0 <= i < |s2.rows| ==> Agrees(d, s2.rows[i])
    ensures Undisturbed(d, s2)
  {
    LiveStep(d, s, t, after, s2);
  }

  lemma CalmAct(d: Deal, s: State, t: nat, act: Act, after: Thread, s2: State)
    requires d.Valid() && Undisturbed(d, s) && t < |s.threads| && s.threads[t].key == Some(d.key) && Answered(d, s.allow, act)
    requires after == Acted(s.threads[t], act) && s2 == s.(threads := s.threads[t := after])
    ensures Undisturbed(d, s2)
  {
    var th := s.threads[t];
    assert Tidy(d, th) && Sound(th);
    ActedIsSound(th, act);
    if th.pc.Done? {
      AsideStep(d, s, t, after, s2);
    } else {
      var drawn, permits := Total(DrawnOn(d.key), s.threads), PermitsMined(d, s);
      assert Entitled(d, th, drawn, permits);
      if act.ReadAllowance? && th.pc == Checked && permits > 0 {
        CoveredWhenBacked(d, s.allow, th, drawn);
      }
      ActStaysTidy(d, th, act);
      ActStaysEntitled(d, th, act, drawn, permits);
      QuietMove(d, s, t, after, s2);
    }
  }

  lemma ActStaysTidy(d: Deal, th: Thread, act: Act)
    requires Tidy(d, th) && Arrives(act)
    ensures Tidy(d, Acted(th, act))
  {
    ActedIsSound(th, act);
  }

  lemma ActStaysEntitled(d: Deal, th: Thread, act: Act, drawn: nat, permits: nat)
    requires Tidy(d, th) && Arrives(act) && Entitled(d, th, drawn, permits)
    requires act.ReadAllowance? && th.pc == Checked && permits > 0 ==> Suffices(act.answer, th)
    ensures Entitled(d, Acted(th, act), drawn, permits)
  {
  }

  lemma PendingPermitLands(d: Deal, th: Thread, verdict: TxState, drawn: nat, permits: nat, more: nat)
    requires Tidy(d, th) && th.permit == Pending && verdict in {Mined, Reverted} && Entitled(d, th, drawn, permits)
    ensures !th.pc.Done? && permits == 0
    ensures Tidy(d, th.(permit := verdict)) && Entitled(d, th.(permit := verdict), drawn, more)
  {
  }

  /** The permit of the live spend gets its verdict. */
  lemma PermitLands(d: Deal, s: State, t: nat, verdict: TxState, s2: State)
    requires Undisturbed(d, s) && t < |s.threads| && s.threads[t].key == Some(d.key) && s.threads[t].permit == Pending
    requires verdict in {Mined, Reverted}
    requires s2.threads == s.threads[t := s.threads[t].(permit := verdict)] && s2.rows == s.rows
    requires verdict == Mined ==> Backed(d, AllowedAt(s2.allow, d.key), Total(DrawnOn(d.key), s.threads))
    ensures Undisturbed(d, s2)
  {
    PendingPermitLands(d, s.threads[t], verdict, Total(DrawnOn(d.key), s.threads), PermitsMined(d, s), 1);
    PendingPermitLands(d, s.threads[t], verdict, Total(DrawnOn(d.key), s.threads), PermitsMined(d, s), 0);
    LiveStep(d, s, t, s.threads[t].(permit := verdict), s2);
  }

  /** A permit that goes through is a call for its row's key, amount, time and nonce. */
  lemma PermitIsOfItsRow(env: Env, allow: Allowances, th: Thread, time: nat)
    requires Keyed(th) && PermitEffect(env, allow, th, time).Some?
    ensures th.key.Some? && Allowance(th.row).Some? && RowArgs(th.row).Some?
    ensures var args := RowArgs(th.row).value; var m := ArgsMessage(args); var key := th.key.value;
      && PermitEffect(env, allow, th, time) == CallPermit(env.crypto, env.home, allow, key.owner, m, args.signature, time)
      && Key(key.owner, m.token, m.spender) == key && m.amount == Packed(Allowance(th.row).value)
      && m.nonce == Uint64(th.row.nonce)
      && (0 <= th.row.expiration ==> m.expiration == th.row.expiration)
  {
    PackedExactly(Uint64(th.row.nonce));
    PackedExactly(Uint64(th.row.expiration));
  }

  /** A permit that goes through sets exactly the allowance of its row's key: the row's amount and time, the nonce after its own. */
  lemma PermitSetsItsKey(env: Env, allow: Allowances, th: Thread, time: nat)
    requires Keyed(th) && PermitEffect(env, allow, th, time).Some?
    ensures th.key.Some? && Allowance(th.row).Some?
    ensures var after := PermitEffect(env, allow, th, time).value; var key := th.key.value;
      && AllowedAt(after, key).amount == Packed(Allowance(th.row).value)
      && (0 < th.row.expiration ==> AllowedAt(after, key).expiration == th.row.expiration)
      && (th.row.expiration == 0 ==> AllowedAt(after, key).expiration < TWO_48)
      && AllowedAt(allow, key).nonce == Uint64(th.row.nonce) && AllowedAt(after, key).nonce == (Uint64(th.row.nonce) + 1) % TWO_48
      && forall other :: other != key ==> AllowedAt(after, other) == AllowedAt(allow, other)
  {
    PermitIsOfItsRow(env, allow, th, time);
    var args := RowArgs(th.row).value;
    var m := ArgsMessage(args);
    PermitSetsAllowance(env.crypto, env.home, allow, th.key.value.owner, m, args.signature, time);
  }

  lemma PermitBacks(env: Env, d: Deal, allow: Allowances, th: Thread, time: nat, drawn: nat)
    requires d.Valid() && th.key == Some(d.key) && Keyed(th) && Terms(d, th.row) && PermitEffect(env, allow, th, time).Some?
    ensures Backed(d, AllowedAt(PermitEffect(env, allow, th, time).value, d.key), drawn)
  {
    PermitSetsItsKey(env, allow, th, time);
    PackedExactly(d.amount);
    WholeAmountBacks(d, AllowedAt(PermitEffect(env, allow, th, time).value, d.key), drawn);
  }

  lemma WholeAmountBacks(d: Deal, allowed: Allowed, drawn: nat)
    requires allowed.amount == d.amount
    requires if d.expiration == 0 then allowed.expiration < TWO_48 else allowed.expiration == d.expiration
    ensures Backed(d, allowed, drawn)
  {
  }

  lemma CalmMinePermit(env: Env, d: Deal, s: State, t: nat, time: nat)
    requires d.Valid() && Undisturbed(d, s) && t < |s.threads| && s.threads[t].permit == Pending && Keyed(s.threads[t])
    ensures Undisturbed(d, MinedPermit(env, s, t, time))
  {
    var th, s2 := s.threads[t], MinedPermit(env, s, t, time);
    var ok := PermitEffect(env, s.allow, th, time).Some?;
    if th.key == Some(d.key) {
      if ok {
        PermitBacks(env, d, s.allow, th, time, Total(DrawnOn(d.key), s.threads));
      }
      PermitLands(d, s, t, if ok then Mined else Reverted, s2);
    } else {
      if ok {
        PermitSetsItsKey(env, s.allow, th, time);
      }
      AsideStep(d, s, t, th.(permit := if ok then Mined else Reverted), s2);
    }
  }

  lemma PendingTransferLands(d: Deal, th: Thread, verdict: TxState, drawn: nat, permits: nat)
    requires Tidy(d, th) && th.transfer == Pending && verdict in {Mined, Reverted}
    ensures !th.pc.Done? && Tidy(d, th.(transfer := verdict)) && Entitled(d, th.(transfer := verdict), drawn, permits)
  {
  }

  /** The transfer of the live spend gets its verdict. */
  lemma TransferLands(d: Deal, s: State, t: nat, verdict: TxState, s2: State)
    requires Undisturbed(d, s) && t < |s.threads| && s.threads[t].key == Some(d.key) && s.threads[t].transfer == Pending
    requires verdict in {Mined, Reverted}
    requires s2.threads == s.threads[t := s.threads[t].(transfer := verdict)] && s2.rows == s.rows
    requires var drawn := Total(DrawnOn(d.key), s.threads) + (if verdict == Mined then s.threads[t].amount else 0);
      PermitsMined(d, s) > 0 ==> Backed(d, AllowedAt(s2.allow, d.key), drawn)
    ensures Undisturbed(d, s2)
  {
    var drawn := Total(DrawnOn(d.key), s.threads) + (if verdict == Mined then s.threads[t].amount else 0);
    PendingTransferLands(d, s.threads[t], verdict, drawn, PermitsMined(d, s));
    LiveStep(d, s, t, s.threads[t].(transfer := verdict), s2);
  }

  lemma TransferStaysBacked(d: Deal, allow: Allowances, th: Thread, time: nat, tokenOk: bool, drawn: nat)
    requires th.key == Some(d.key) && Sound(th) && TransferEffect(allow, th, time, tokenOk).Some? && Backed(d, AllowedAt(allow, d.key), drawn)
    ensures Backed(d, AllowedAt(TransferEffect(allow, th, time, tokenOk).value, d.key), drawn + th.amount)
  {
    TransferTakesItsAmount(allow, d.key, Packed(th.amount), time, tokenOk);
  }

  lemma TransferElsewhere(d: Deal, allow: Allowances, th: Thread, time: nat, tokenOk: bool)
    requires th.key != Some(d.key) && TransferEffect(allow, th, time, tokenOk).Some?
    ensures AllowedAt(TransferEffect(allow, th, time, tokenOk).value, d.key) == AllowedAt(allow, d.key)
  {
    TransferTakesItsAmount(allow, th.key.value, Packed(th.amount), time, tokenOk);
  }

  lemma CalmMineTransfer(d: Deal, s: State, t: nat, time: nat, tokenOk: bool)
    requires d.Valid() && Undisturbed(d, s) && t < |s.threads| && s.threads[t].transfer == Pending
    ensures Undisturbed(d, MinedTransfer(s, t, time, tokenOk))
  {
    var th, s2 := s.threads[t], MinedTransfer(s, t, time, tokenOk);
    var ok := TransferEffect(s.allow, th, time, tokenOk).Some?;
    if th.key == Some(d.key) {
      if ok && PermitsMined(d, s) > 0 {
        TransferStaysBacked(d, s.allow, th, time, tokenOk, Total(DrawnOn(d.key), s.threads));
      }
      TransferLands(d, s, t, if ok then Mined else Reverted, s2);
    } else {
      if ok {
        TransferElsewhere(d, s.allow, th, time, tokenOk);
      }
      AsideStep(d, s, t, th.(transfer := if ok then Mined else Reverted), s2);
    }
  }

  lemma CalmMine(env: Env, d: Deal, s: State, e: Step)
    requires d.Valid() && Undisturbed(d, s) && AllKeyed(s) && (e.MinePermit? || e.MineTransfer?)
    ensures Undisturbed(d, Next(env, s, e))
  {
    if e.t < |s.threads| {
      if e.MinePermit? && s.threads[e.t].permit == Pending {
        CalmMinePermit(env, d, s, e.t, e.time);
      }
      if e.MineTransfer? && s.threads[e.t].transfer == Pending {
        CalmMineTransfer(d, s, e.t, e.time, e.tokenOk);
      }
    }
  }

  lemma BookedIsTidy(d: Deal, th: Thread)
    requires Tidy(d, th) && th.pc == Paid
    ensures Tidy(d, th.(pc := Done(Success)))
  {
  }

  lemma CalmBook(d: Deal, s: State, t: nat, s2: State)
    requires Undisturbed(d, s) && t < |s.threads| && s.threads[t].pc == Paid
    requires s2.threads == s.threads[t := s.threads[t].(pc := Done(Success))] && s2.allow == s.allow
    requires forall i :: 0 <= i < |s2.rows| ==> Agrees(d, s2.rows[i])
    ensures Undisturbed(d, s2)
  {
    var th := s.threads[t];
    var after := th.(pc := Done(Success));
    if th.key == Some(d.key) {
      BookedIsTidy(d, th);
      EndedIsEntitled(d, after, Total(DrawnOn(d.key), s.threads), PermitsMined(d, s));
      QuietMove(d, s, t, after, s2);
    } else {
      AsideStep(d, s, t, after, s2);
    }
  }

  lemma CalmRows(d: Deal, s: State, op: Op)
    requires Undisturbed(d, s) && (op.Put? ==> Agrees(d, op.a))
    ensures Undisturbed(d, s.(rows := Apply(s.rows, op)))
  {
    RowsStillAgree(d, s.rows, op);
  }

  lemma CalmRowOp(env: Env, d: Deal, s: State, e: Step)
    requires Undisturbed(d, s) && Calm(env, d, s, e) && (e.Verify? || e.Observe?)
    ensures Undisturbed(d, Next(env, s, e))
  {
    if RowOp(env, e).Some? {
      CalmRows(d, s, RowOp(env, e).value);
    }
  }

  lemma CalmDo(env: Env, d: Deal, s: State, t: nat, act: Act)
    requires d.Valid() && Undisturbed(d, s) && t < |s.threads| && Calm(env, d, s, Do(t, act))
    ensures Undisturbed(d, Next(env, s, Do(t, act)))
  {
    var after := Acted(s.threads[t], act);
    if s.threads[t].key == Some(d.key) {
      CalmAct(d, s, t, act, after, Next(env, s, Do(t, act)));
    } else {
      ActedIsTheSameCall(s.threads[t], act);
      AsideStep(d, s, t, after, Next(env, s, Do(t, act)));
    }
  }

  lemma CalmBooked(d: Deal, s: State, t: nat)
    requires Undisturbed(d, s) && Inv(s) && t < |s.threads| && s.threads[t].pc == Paid
    ensures Undisturbed(d, Booked(s, t))
  {
    BookChanges(s, t);
    RowsStillAgree(d, s.rows, Bump(IdOf(s.threads[t].row), s.threads[t].amount));
    CalmBook(d, s, t, Booked(s, t));
  }

  lemma CalmSpend(env: Env, d: Deal, s: State, e: Step)
    requires d.Valid() && Undisturbed(d, s) && Inv(s) && Balanced(s, d.id) && Calm(env, d, s, e) && (e.Begin? || e.Do? || e.Book?)
    ensures Undisturbed(d, Next(env, s, e))
  {
    match e
    case Begin(agent, amount, now, seller) =>
      CalmBegin(env, d, s, agent, amount, now, seller);
    case Do(t, act) =>
      if t < |s.threads| { CalmDo(env, d, s, t, act); }
    case Book(t) =>
      if t < |s.threads| && s.threads[t].pc == Paid { CalmBooked(d, s, t); }
    case _ =>
  }

  lemma CalmStep(env: Env, d: Deal, s: State, e: Step)
    requires d.Valid() && Undisturbed(d, s) && Inv(s) && Balanced(s, d.id) && AllKeyed(s) && Calm(env, d, s, e)
    ensures Undisturbed(d, Next(env, s, e))
  {
    if e.Verify? || e.Observe? {
      CalmRowOp(env, d, s, e);
    } else if e.Begin? || e.Do? || e.Book? {
      CalmSpend(env, d, s, e);
    } else if e.MinePermit? || e.MineTransfer? {
      CalmMine(env, d, s, e);
    } else {
      CalmElsewhere(env, d, s, e);
    }
  }

  lemma CalmElsewhere(env: Env, d: Deal, s: State, e: Step)
    requires Undisturbed(d, s) && Calm(env, d, s, e) && (e.Approve? || e.Lockdown?)
    ensures Undisturbed(d, Next(env, s, e))
  {
    assert AllowedAt(Next(env, s, e).allow, d.key) == AllowedAt(s.allow, d.key);
  }

  lemma ActedIsTheSameCall(th: Thread, act: Act)
    ensures SameCall(th, Acted(th, act))
  {
  }

  predicate CalmRun(env: Env, d: Deal, steps: seq<Step>) {
    forall i :: 0 <= i < |steps| ==> Calm(env, d, Reach(env, steps[..i]), steps[i])
  }

  lemma {:induction false} CalmRunIsUndisturbed(env: Env, d: Deal, steps: seq<Step>)
    requires d.Valid() && CalmRun(env, d, steps)
    ensures Undisturbed(d, Reach(env, steps))
  {
    if steps == [] {
    } else {
      var front, e := steps[..|steps| - 1], steps[|steps| - 1];
      forall i | 0 <= i < |front| ensures Calm(env, d, Reach(env, front[..i]), front[i]) {
        assert front[..i] == steps[..i] && front[i] == steps[i];
      }
      assert front + [e] == steps;
      CalmRunIsUndisturbed(env, d, front);
      ReachableBooks(env, front, d.id);
      ReachableKeys(env, front);
      ReachSnoc(env, front, e);
      CalmStep(env, d, Reach(env, front), e);
    }
  }

  /** In a calm run that has mined the permit, no spend asks for another: each one that has not paid yet is covered on chain. */
  lemma NoPermitIsAskedAgain(env: Env, d: Deal, steps: seq<Step>, t: nat)
    requires d.Valid() && CalmRun(env, d, steps) && PermitsMined(d, Reach(env, steps)) > 0
    requires t < |Reach(env, steps).threads| && Reach(env, steps).threads[t].key == Some(d.key)
    ensures var th := Reach(env, steps).threads[t];
      && th.pc != NeedPermit && th.permit != Pending
      && (th.pc in {Checked, PermitWait, Ready} ==> Covers(Reach(env, steps).allow, th))
  {
    CalmRunIsUndisturbed(env, d, steps);
    var s := Reach(env, steps);
    var th := s.threads[t];
    if th.pc in {Checked, PermitWait, Ready} {
      CoveredWhenBacked(d, s.allow, th, Total(DrawnOn(d.key), s.threads));
    }
  }
}
