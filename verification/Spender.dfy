/** `Spend` as one call, run from end to end against a world that answers as `Answers` says. */
module Spender {
  import opened Authorize
  import opened Bytes
  import opened Contract
  import opened Ledger
  import opened LedgerBooks
  import opened Runs
  import opened Store
  import opened StoreHistory
  import opened Text
  import opened Wrappers

  /** How the network treats one transaction: taken up, send reported good, mined at some time, receipt delivered. */
  datatype Fate = Fate(accepted: bool, reported: bool, minedAt: Option<nat>, receiptArrives: bool)

  datatype Answers = Answers(
    agent: Option<string>,
    seller: Option<string>,
    chainOk: bool,
    gasOk: bool,
    allowance: Option<Allowed>,
    permit: Fate,
    transfer: Fate,
    tokenOk: bool)

  datatype SpendError =
    | NonPositive | NoAgent | NoRow(cause: StoreError) | MalformedAllowance | AllowanceExceeded
    | BadSeller | ChainTrouble | GasTrouble | PermitFailed | TransferFailed | RowMissing

  datatype Receipt = Lost | Status(ok: bool)

  lemma Extend(env: Env, s: State, steps: seq<Step>, e: Step)
    ensures From(env, s, steps + [e]) == Next(env, From(env, s, steps), e)
  {
    RunSnoc((t, e) => Next(env, t, e), s, steps, e);
  }

  lemma Chain(env: Env, s: State, p: seq<Step>, q: seq<Step>)
    ensures From(env, s, p + q) == From(env, From(env, s, p), q)
  {
    RunSum((t, e) => Next(env, t, e), s, p, q);
  }

  /** `WaitForReceipt`: nothing can be learned of a transaction that was not mined, or whose receipt is lost. */
  function Await(fate: Fate, verdict: TxState): Receipt {
    if !fate.receiptArrives || verdict !in {Mined, Reverted} then Lost else Status(verdict == Mined)
  }

  // ---- when a spend goes through ----

  /** What stops a spend before anything is broadcast. */
  function Refusal(rows: seq<Authorization>, amount: int, now: int64, w: Answers): Option<SpendError> {
    if amount <= 0 then Some(NonPositive)
    else if w.agent.None? then Some(NoAgent)
    else
      match Pick(rows, ForAgent(w.agent.value, now))
      case Err(e) => Some(NoRow(e))
      case Ok(row) =>
        if Allowance(row).None? then Some(MalformedAllowance)
        else if Allowance(row).value - SpentOf(row) < amount then Some(AllowanceExceeded)
        else Trouble(w)
  }

  /** The spend that is opened when nothing stops it. */
  function Begun(rows: seq<Authorization>, amount: int, now: int64, w: Answers): (th: Thread)
    requires Refusal(rows, amount, now, w).None?
    ensures Opened(rows, w.agent.value, amount, now, w.seller.value) == Some(th)
  {
    Opened(rows, w.agent.value, amount, now, w.seller.value).value
  }

  function Trouble(w: Answers): Option<SpendError> {
    if w.seller.None? || !IsHexAddress(w.seller.value) then Some(BadSeller)
    else if !w.chainOk then Some(ChainTrouble)
    else if !w.gasOk then Some(GasTrouble)
    else None
  }

  predicate Heard(fate: Fate) {
    fate.accepted && fate.reported && fate.minedAt.Some? && fate.receiptArrives
  }

  /** The chain's allowances once a spend may transfer: as they are when the node says they cover it, else after its permit. */
  function AfterPermit(env: Env, allow: Allowances, th: Thread, w: Answers): Option<Allowances> {
    if Suffices(w.allowance, th) then Some(allow)
    else if PermitCalldata(th.row).None? || !Heard(w.permit) then None
    else PermitEffect(env, allow, th, w.permit.minedAt.value)
  }

  function AfterTransfer(allow: Allowances, th: Thread, w: Answers): Option<Allowances> {
    if TransferCalldata(th).None? || !Heard(w.transfer) then None
    else TransferEffect(allow, th, w.transfer.minedAt.value, w.tokenOk)
  }

  function AfterSpend(env: Env, allow: Allowances, th: Thread, w: Answers): Option<Allowances> {
    match AfterPermit(env, allow, th, w)
    case None => None
    case Some(covered) => AfterTransfer(covered, th, w)
  }

  /** The outcome tells which of the two transactions failed. */
  predicate Ends(r: Result<Thread, SpendError>, permitted: bool, paid: bool) {
    && (r == Err(PermitFailed) <==> !permitted)
    && (r == Err(TransferFailed) <==> permitted && !paid)
    && (r.Ok? <==> permitted && paid)
  }

  /** The effects of a spend depend on the call alone, not on how far it has got. */
  lemma EffectsOfCall(env: Env, allow: Allowances, th: Thread, after: Thread, time: nat, tokenOk: bool)
    requires SameCall(th, after)
    ensures PermitEffect(env, allow, th, time) == PermitEffect(env, allow, after, time)
    ensures TransferEffect(allow, th, time, tokenOk) == TransferEffect(allow, after, time, tokenOk)
    ensures TransferCalldata(th) == TransferCalldata(after)
  {
  }

  /** Runs keep every row's books. */
  lemma RunKeepsBooks(env: Env, s: State, steps: seq<Step>, id: Id)
    requires Inv(s) && Balanced(s, id)
    ensures Inv(From(env, s, steps)) && Balanced(From(env, s, steps), id)
  {
    var inv := (t: State, done: seq<Step>) => Inv(t) && Balanced(t, id);
    forall t, k | 0 <= k < |steps| && inv(t, steps[..k]) ensures inv(Next(env, t, steps[k]), steps[..k + 1]) {
      NextKeepsBooks(env, t, steps[k], id);
    }
    RunKeeps((t, e) => Next(env, t, e), s, steps, inv);
  }

  lemma RunKeepsAllBooks(env: Env, s: State, steps: seq<Step>)
    requires Inv(s) && forall id :: Balanced(s, id)
    ensures Inv(From(env, s, steps)) && forall id :: Balanced(From(env, s, steps), id)
  {
    forall id ensures Inv(From(env, s, steps)) && Balanced(From(env, s, steps), id) {
      RunKeepsBooks(env, s, steps, id);
    }
    RunKeepsBooks(env, s, steps, Id("", "", "", 0));
  }

  /** The bump finds its row, can read its counter, and is given a number. */
  lemma BumpIsAccepted(s: State, t: nat, th: Thread)
    requires Inv(s) && (forall id :: Balanced(s, id)) && t < |s.threads| && SameCall(th, s.threads[t])
    ensures var row := Lookup(s.rows, BumpId(th));
      row.Some? && ParseInt(OrZero(row.value.spentAtoms)).Some? && BumpId(th) == BumpId(s.threads[t])
    ensures ParseInt(TrimSpace(PrintInt(th.amount))) == Some(th.amount)
  {
    BumpFindsItsRow(s, t);
    assert Balanced(s, BumpId(th));
    PrintedIsNotBlank(Total(BookedOn(BumpId(th)), s.threads));
    ParsePrint(th.amount);
    ParsedIsTrimmed(PrintInt(th.amount));
  }

  lemma BookLeads(env: Env, s: State, t: nat, th: Thread) returns (steps: seq<Step>)
    requires t < |s.threads| && SameCall(th, s.threads[t]) && s.threads[t].pc == Paid && Lookup(s.rows, BumpId(th)).Some?
    ensures From(env, s, steps) ==
            State(BumpRows(s.rows, BumpId(th), th.amount), s.allow, s.threads[t := s.threads[t].(pc := Done(Success))])
  {
    steps := [] + [Book(t)];
    Extend(env, s, [], Book(t));
  }

  class Spender {
    const env: Env
    const store: MemoryStore
    var allow: Allowances
    ghost var threads: seq<Thread>

    constructor (env: Env, store: MemoryStore)
      ensures this.env == env && this.store == store && allow == map[] && threads == []
    {
      this.env := env;
      this.store := store;
      this.allow := map[];
      this.threads := [];
    }

    ghost function Now(): State
      reads this, store
    {
      State(store.rows, allow, threads)
    }

    ghost predicate Valid()
      reads this, store
    {
      Inv(Now()) && forall id :: Balanced(Now(), id)
    }

    /** A step of spend `t` that reaches neither the store nor the chain. */
    ghost method Act(t: nat, act: Act, steps: seq<Step>, from: State) returns (more: seq<Step>)
      requires t < |threads| && Now() == From(env, from, steps)
      modifies this`threads
      ensures more == steps + [Do(t, act)] && Now() == From(env, from, more)
      ensures threads == old(threads)[t := Acted(old(threads)[t], act)]
    {
      more := steps + [Do(t, act)];
      Extend(env, from, steps, Do(t, act));
      threads := threads[t := Acted(threads[t], act)];
    }

    /** The chain executes the permit of spend `t`. */
    method LandPermit(th: Thread, ghost t: nat, time: nat, ghost steps: seq<Step>, ghost from: State)
      returns (verdict: TxState, ghost more: seq<Step>)
      requires t < |threads| && threads[t] == th && th.permit == Pending && Now() == From(env, from, steps)
      modifies this
      ensures Now() == From(env, from, more) && verdict in {Mined, Reverted}
      ensures threads == old(threads)[t := th.(permit := verdict)]
      ensures var effect := PermitEffect(env, old(allow), th, time);
        (verdict == Mined <==> effect.Some?) && allow == effect.GetOr(old(allow))
    {
      more := steps + [MinePermit(t, time)];
      Extend(env, from, steps, MinePermit(t, time));
      var effect := PermitEffect(env, allow, th, time);
      verdict := if effect.Some? then Mined else Reverted;
      if effect.Some? {
        allow := effect.value;
      }
      threads := threads[t := th.(permit := verdict)];
    }

    /** The chain executes the transfer of spend `t`. */
    method LandTransfer(th: Thread, ghost t: nat, time: nat, tokenOk: bool, ghost steps: seq<Step>, ghost from: State)
      returns (verdict: TxState, ghost more: seq<Step>)
      requires t < |threads| && threads[t] == th && th.transfer == Pending && Now() == From(env, from, steps)
      modifies this
      ensures Now() == From(env, from, more) && verdict in {Mined, Reverted}
      ensures threads == old(threads)[t := th.(transfer := verdict)]
      ensures var effect := TransferEffect(old(allow), th, time, tokenOk);
        (verdict == Mined <==> effect.Some?) && allow == effect.GetOr(old(allow))
    {
      more := steps + [MineTransfer(t, time, tokenOk)];
      Extend(env, from, steps, MineTransfer(t, time, tokenOk));
      var effect := TransferEffect(allow, th, time, tokenOk);
      verdict := if effect.Some? then Mined else Reverted;
      if effect.Some? {
        allow := effect.value;
      }
      threads := threads[t := th.(transfer := verdict)];
    }

    /** Broadcasts the permit; none means the spend has given up. */
    method SendPermitTx(th: Thread, ghost t: nat, fate: Fate, ghost steps: seq<Step>, ghost from: State)
      returns (sent: Option<Thread>, ghost more: seq<Step>)
      requires t < |threads| && threads[t] == th && th.pc == NeedPermit && Now() == From(env, from, steps)
      modifies this`threads
      ensures Now() == From(env, from, more) && |threads| == |old(threads)| && SameCall(th, threads[t])
      ensures threads[t].transfer == th.transfer
      ensures sent.Some? ==> sent.value == threads[t] == th.(pc := PermitWait, permit := if fate.accepted then Pending else Unsent)
      ensures sent.None? ==> threads[t].pc == Done(GaveUp)
      ensures sent.Some? <==> PermitCalldata(th.row).Some? && fate.reported
    {
      var data := PermitCalldata(th.row);
      more := Act(t, SendPermit(fate.accepted, fate.reported), steps, from);
      sent := None;
      if data.Some? && fate.reported {
        sent := Some(th.(pc := PermitWait, permit := if fate.accepted then Pending else Unsent));
      }
    }

    /** Skips the permit when the chain already covers the spend; otherwise sends it and waits for it. */
    method EnsureAllowed(th: Thread, ghost t: nat, w: Answers) returns (ready: Option<Thread>, ghost steps: seq<Step>)
      requires t < |threads| && threads[t] == th && th.pc == Checked && th.permit == Unsent
      modifies this
      ensures Now() == From(env, old(Now()), steps) && |threads| == |old(threads)|
      ensures SameCall(th, threads[t]) && threads[t].transfer == th.transfer
      ensures ready.Some? ==> ready.value == threads[t] && threads[t].pc == Ready
      ensures ready.None? ==> threads[t].pc == Done(GaveUp)
      ensures ready.Some? <==> AfterPermit(env, old(allow), th, w).Some?
      ensures ready.Some? ==> Some(allow) == AfterPermit(env, old(allow), th, w)
    {
      ghost var start := Now();
      var skipPermit := Suffices(w.allowance, th);
      steps := Act(t, ReadAllowance(w.allowance), [], start);
      if skipPermit {
        return Some(th.(pc := Ready)), steps;
      }
      var sent;
      sent, steps := SendPermitTx(th.(pc := NeedPermit), t, w.permit, steps, start);
      if sent.None? {
        return None, steps;
      }
      var cur := sent.value;
      if w.permit.accepted && w.permit.minedAt.Some? {
        var verdict;
        EffectsOfCall(env, allow, th, cur, w.permit.minedAt.value, false);
        verdict, steps := LandPermit(cur, t, w.permit.minedAt.value, steps, start);
        cur := cur.(permit := verdict);
      }
      ready, steps := HearPermit(cur, t, Await(w.permit, cur.permit), steps, start);
    }

    method HearPermit(th: Thread, ghost t: nat, receipt: Receipt, ghost steps: seq<Step>, ghost from: State)
      returns (ready: Option<Thread>, ghost more: seq<Step>)
      requires t < |threads| && threads[t] == th && th.pc == PermitWait && Now() == From(env, from, steps)
      requires receipt.Status? ==> th.permit == if receipt.ok then Mined else Reverted
      modifies this`threads
      ensures Now() == From(env, from, more) && |threads| == |old(threads)| && SameCall(th, threads[t])
      ensures threads[t].transfer == th.transfer
      ensures ready.Some? ==> ready.value == threads[t] && threads[t].pc == Ready
      ensures ready.None? ==> threads[t].pc == Done(GaveUp)
      ensures ready.Some? <==> receipt == Status(true)
    {
      more := Act(t, if receipt == Lost then LosePermit else PermitReceipt, steps, from);
      ready := if receipt == Status(true) then Some(th.(pc := Ready)) else None;
    }

    /** Broadcasts the transfer; none means the spend has ended. */
    method SendTransferTx(th: Thread, ghost t: nat, fate: Fate, ghost steps: seq<Step>, ghost from: State)
      returns (sent: Option<Thread>, ghost more: seq<Step>)
      requires t < |threads| && threads[t] == th && th.pc == Ready && Now() == From(env, from, steps)
      modifies this`threads
      ensures Now() == From(env, from, more) && |threads| == |old(threads)| && SameCall(th, threads[t])
      ensures sent.Some? ==> sent.value == threads[t] == th.(pc := TransferWait, transfer := if fate.accepted then Pending else Unsent)
      ensures sent.None? ==> threads[t].pc in {Done(GaveUp), Done(TransferUnknown)}
      ensures sent.Some? <==> TransferCalldata(th).Some? && fate.reported
    {
      var data := TransferCalldata(th);
      more := Act(t, SendTransfer(fate.accepted, fate.reported), steps, from);
      sent := None;
      if data.Some? && fate.reported {
        sent := Some(th.(pc := TransferWait, transfer := if fate.accepted then Pending else Unsent));
      }
    }

    method HearTransfer(th: Thread, ghost t: nat, receipt: Receipt, ghost steps: seq<Step>, ghost from: State)
      returns (ok: bool, ghost more: seq<Step>)
      requires t < |threads| && threads[t] == th && th.pc == TransferWait && Now() == From(env, from, steps)
      requires receipt.Status? ==> th.transfer == if receipt.ok then Mined else Reverted
      modifies this`threads
      ensures Now() == From(env, from, more) && |threads| == |old(threads)| && SameCall(th, threads[t])
      ensures ok ==> threads[t].pc == Paid
      ensures !ok ==> threads[t].pc in {Done(TransferReverted), Done(TransferUnknown)}
      ensures ok <==> receipt == Status(true)
    {
      more := Act(t, if receipt == Lost then LoseTransfer else TransferReceipt, steps, from);
      ok := receipt == Status(true);
    }

    /** Sends the transfer and waits for it. */
    method Transfer(th: Thread, ghost t: nat, w: Answers) returns (ok: bool, ghost steps: seq<Step>)
      requires t < |threads| && threads[t] == th && th.pc == Ready && th.transfer == Unsent
      modifies this
      ensures Now() == From(env, old(Now()), steps) && |threads| == |old(threads)|
      ensures SameCall(th, threads[t])
      ensures ok ==> threads[t].pc == Paid
      ensures !ok ==> threads[t].pc in {Done(GaveUp), Done(TransferReverted), Done(TransferUnknown)}
      ensures ok <==> AfterTransfer(old(allow), th, w).Some?
      ensures ok ==> Some(allow) == AfterTransfer(old(allow), th, w)
    {
      ghost var start := Now();
      var sent;
      sent, steps := SendTransferTx(th, t, w.transfer, [], start);
      if sent.None? {
        return false, steps;
      }
      var cur := sent.value;
      if w.transfer.accepted && w.transfer.minedAt.Some? {
        var verdict;
        EffectsOfCall(env, allow, th, cur, w.transfer.minedAt.value, w.tokenOk);
        verdict, steps := LandTransfer(cur, t, w.transfer.minedAt.value, w.tokenOk, steps, start);
        cur := cur.(transfer := verdict);
      }
      ok, steps := HearTransfer(cur, t, Await(w.transfer, cur.transfer), steps, start);
    }

    /** Bumps the row of a paid spend. */
    method BumpRow(th: Thread, ghost t: nat) returns (ok: bool, ghost steps: seq<Step>)
      requires Valid() && t < |threads| && SameCall(th, threads[t]) && threads[t].pc == Paid
      modifies this, store
      ensures Now() == From(env, old(Now()), steps) && |threads| == |old(threads)|
      ensures ok && threads[t].pc == Done(Success) && allow == old(allow)
      ensures store.rows == BumpRows(old(store.rows), BumpId(th), th.amount)
    {
      ghost var start := Now();
      BumpIsAccepted(start, t, th);
      steps := BookLeads(env, start, t, th);
      var r := store.BumpSpent(th.row.owner, th.agent, th.row.token, th.row.nonce, PrintInt(th.amount));
      threads := threads[t := threads[t].(pc := Done(Success))];
      ok := r.Ok?;
    }

    /** The broadcasting half of a spend. */
    method Broadcast(th: Thread, ghost t: nat, w: Answers) returns (r: Result<Thread, SpendError>, ghost steps: seq<Step>)
      requires Valid() && t < |threads| && threads[t] == th && th.pc == Checked && th.permit == Unsent && th.transfer == Unsent
      modifies this, store
      ensures Now() == From(env, old(Now()), steps) && |threads| == |old(threads)|
      ensures r.Ok? ==> threads[t].pc == Done(Success) && store.rows == BumpRows(old(store.rows), BumpId(th), th.amount)
      ensures r.Err? ==> store.rows == old(store.rows) && threads[t].pc.Done? && threads[t].pc != Done(Success)
      ensures Ends(r, AfterPermit(env, old(allow), th, w).Some?, AfterSpend(env, old(allow), th, w).Some?)
      ensures r.Ok? ==> Some(allow) == AfterSpend(env, old(allow), th, w)
    {
      ghost var start := Now();
      ghost var more;
      var ready, ok;
      ready, steps := EnsureAllowed(th, t, w);
      if ready.None? {
        return Err(PermitFailed), steps;
      }
      EffectsOfCall(env, allow, th, ready.value, w.transfer.minedAt.GetOr(0), w.tokenOk);
      ok, more := Transfer(ready.value, t, w);
      Chain(env, start, steps, more);
      steps := steps + more;
      if !ok {
        return Err(TransferFailed), steps;
      }
      RunKeepsAllBooks(env, start, steps);
      ok, more := BumpRow(ready.value, t);
      Chain(env, start, steps, more);
      steps := steps + more;
      r := if ok then Ok(ready.value) else Err(RowMissing);
    }

    /** The part of a spend behind its check. */
    method Proceed(th: Thread, w: Answers) returns (r: Result<Thread, SpendError>, ghost steps: seq<Step>)
      requires Valid() && Opened(store.rows, th.agent, th.amount, th.now, th.seller) == Some(th) && th.seller == w.seller.GetOr("")
      modifies this, store
      ensures Now() == From(env, old(Now()), steps) && |threads| == |old(threads)| + 1
      ensures r.Ok? ==> threads[|old(threads)|].pc == Done(Success) && store.rows == BumpRows(old(store.rows), BumpId(th), th.amount)
      ensures r.Err? ==> store.rows == old(store.rows)
      ensures r.Err? ==> threads[|old(threads)|].pc.Done? && threads[|old(threads)|].pc != Done(Success)
      ensures if Trouble(w).Some? then r == Err(Trouble(w).value)
        else Ends(r, AfterPermit(env, old(allow), th, w).Some?, AfterSpend(env, old(allow), th, w).Some?)
      ensures r.Ok? ==> Some(allow) == AfterSpend(env, old(allow), th, w)
    {
      ghost var start := Now();
      ghost var t := |threads|;
      steps := [] + [Begin(th.agent, th.amount, th.now, th.seller)];
      Extend(env, start, [], steps[0]);
      threads := threads + [th];
      var trouble: Option<SpendError> :=
        if w.seller.None? || !IsHexAddress(th.seller) then Some(BadSeller)
        else if !w.chainOk then Some(ChainTrouble)
        else if !w.gasOk then Some(GasTrouble)
        else None;
      if trouble.Some? {
        steps := Act(t, GiveUp, steps, start);
        return Err(trouble.value), steps;
      }
      RunKeepsAllBooks(env, start, steps);
      ghost var more;
      r, more := Broadcast(th, t, w);
      Chain(env, start, steps, more);
      steps := steps + more;
    }

    /**
     One spend. It is a run of the machine: the steps it takes, in order, lead from the state before to the state
     after. What it refuses beforehand it refuses for the first reason there is; any other spend succeeds exactly when the
     chain, as it stood, lets its permit (if one is needed) and its transfer through. Its row is then bumped by the
     amount, and otherwise no row changes.
     */
    method Spend(amount: int, now: int64, w: Answers) returns (r: Result<Thread, SpendError>, ghost steps: seq<Step>)
      requires Valid()
      modifies this, store
      ensures Now() == From(env, old(Now()), steps) && Valid()
      ensures r.Ok? ==>
        && |threads| == |old(threads)| + 1 && threads[|old(threads)|].pc == Done(Success)
        && Pick(old(store.rows), ForAgent(w.agent.GetOr(""), now)).Ok?
        && store.rows == BumpRows(old(store.rows), IdOf(Pick(old(store.rows), ForAgent(w.agent.GetOr(""), now)).value), amount)
      ensures r.Err? ==> store.rows == old(store.rows)
      ensures r.Err? && |threads| > |old(threads)| ==>
        |threads| == |old(threads)| + 1 && threads[|old(threads)|].pc.Done? && threads[|old(threads)|].pc != Done(Success)
      ensures var refusal := Refusal(old(store.rows), amount, now, w);
        if refusal.Some? then r == Err(refusal.value)
        else
          var th := Begun(old(store.rows), amount, now, w);
          && Ends(r, AfterPermit(env, old(allow), th, w).Some?, AfterSpend(env, old(allow), th, w).Some?)
          && (r.Ok? ==> Some(allow) == AfterSpend(env, old(allow), th, w))
    {
      steps := [];
      if amount <= 0 {
        return Err(NonPositive), steps;
      }
      if w.agent.None? {
        return Err(NoAgent), steps;
      }
      var row := store.PickActive(ForAgent(w.agent.value, now));
      if row.Err? {
        return Err(NoRow(row.error)), steps;
      }
      var allowance := Allowance(row.value);
      if allowance.None? {
        return Err(MalformedAllowance), steps;
      }
      if allowance.value - SpentOf(row.value) < amount {
        return Err(AllowanceExceeded), steps;
      }
      ghost var start := Now();
      var th := Thread(row.value, KeyIfAny(row.value), w.agent.value, w.seller.GetOr(""), amount, now, Checked, Unsent, Unsent);
      OpenedIsSound(store.rows, th.agent, th.amount, th.now, th.seller);
      r, steps := Proceed(th, w);
      RunKeepsAllBooks(env, start, steps);
    }
  }
}
