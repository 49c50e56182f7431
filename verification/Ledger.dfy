/**
 The wallet at work: submissions, observed logs and any number of spends in flight, over one store and one chain.
 A spend holds no lock between its look at the store and its final bump, so each of its effects is a step of its own.
 */
module Ledger {
  import opened Authorize
  import opened Bytes
  import opened Contract
  import opened Events
  import opened Permit2
  import opened Runs
  import opened Store
  import opened StoreHistory
  import opened Text
  import opened TypedData
  import opened Wrappers

  /** The surroundings that never change: hashing and recovery, the domain of the deployed contract, the agent filter. */
  datatype Env = Env(crypto: Crypto, home: Domain, ours: string -> bool)

  /** The chain's verdict on a broadcast transaction. */
  datatype TxState = Unsent | Pending | Mined | Reverted

  datatype Outcome =
    | Success
    | GaveUp            // an error before the transfer was broadcast
    | TransferReverted
    | TransferUnknown   // sending or waiting failed: the transfer may still be mined
    | BumpFailed

  datatype Pc = Checked | NeedPermit | PermitWait | Ready | TransferWait | Paid | Done(outcome: Outcome)

  /** One call of `Spend` past its allowance check, with the row it saw and the on-chain allowance that row draws on. */
  datatype Thread = Thread(
    row: Authorization,
    key: Option<Key>,
    agent: string,
    seller: string,
    amount: nat,
    now: int64,
    pc: Pc,
    permit: TxState,
    transfer: TxState)

  datatype State = State(rows: seq<Authorization>, allow: Allowances, threads: seq<Thread>)

  /** What a spend does next, and how the network answers. */
  datatype Act =
    | GiveUp                                        // seller, chain, gas or encoding trouble
    | ReadAllowance(answer: Option<Allowed>)        // what the node says, right or wrong
    | SendPermit(accepted: bool, reported: bool)
    | PermitReceipt
    | LosePermit
    | SendTransfer(accepted: bool, reported: bool)
    | TransferReceipt
    | LoseTransfer

  datatype Step =
    | Verify(claim: Claim)
    | Observe(log: Log)
    | Begin(agent: string, amount: int, now: int64, seller: string)
    | Do(t: nat, act: Act)
    | Book(t: nat)
    | MinePermit(t: nat, time: nat)
    | MineTransfer(t: nat, time: nat, tokenOk: bool)
    | Approve(key: Key, granted: nat, expiration: nat, time: nat)
    | Lockdown(key: Key)

  const INITIAL := State([], map[], [])

  function KeyOf(r: Authorization): Key
    requires WellAddressed(r)
  {
    Key(HexToAddress(r.owner), HexToAddress(r.token), HexToAddress(r.agent))
  }

  function KeyIfAny(r: Authorization): Option<Key> {
    if WellAddressed(r) then Some(KeyOf(r)) else None
  }

  /** The identity the final bump is addressed to. */
  function BumpId(th: Thread): Id {
    MakeId(th.row.owner, th.agent, th.row.token, th.row.nonce)
  }

  /** The start of a spend: pick a row and check its remaining allowance, in one look at the store. */
  function Opened(rows: seq<Authorization>, agent: string, amount: int, now: int64, seller: string): Option<Thread> {
    if amount <= 0 then None
    else
      match Pick(rows, ForAgent(agent, now))
      case Err(_) => None
      case Ok(row) =>
        var allowance := Allowance(row);
        if allowance.None? || allowance.value - SpentOf(row) < amount then None
        else Some(Thread(row, KeyIfAny(row), agent, seller, amount, now, Checked, Unsent, Unsent))
  }

  /** What a spend concludes from the node's answer about its allowance. */
  predicate Suffices(answer: Option<Allowed>, th: Thread) {
    th.key.Some? && answer.Some? && Int64(answer.value.expiration) > th.now && answer.value.amount >= th.amount
  }

  predicate Covers(allow: Allowances, th: Thread) {
    th.key.Some? && Suffices(Some(AllowedAt(allow, th.key.value)), th)
  }

  function PermitCalldata(r: Authorization): Option<seq<byte>> {
    var args := RowArgs(r);
    if args.None? then None
    else
      match EncodePermitCall(args.value)
      case Ok(data) => Some(data)
      case Err(_) => None
  }

  function TransferCalldata(th: Thread): Option<seq<byte>> {
    match EncodeTransferFromCall(TransferArgs(th.row.owner, th.seller, th.amount, th.row.token))
    case Ok(data) => Some(data)
    case Err(_) => None
  }

  /** One step of a spend, as far as it concerns only the spend itself. */
  function Acted(th: Thread, act: Act): Thread {
    match act
    case GiveUp => if th.pc in {Checked, NeedPermit, Ready} then th.(pc := Done(GaveUp)) else th
    case ReadAllowance(answer) =>
      if th.pc == Checked then th.(pc := if Suffices(answer, th) then Ready else NeedPermit) else th
    case SendPermit(accepted, reported) =>
      if th.pc != NeedPermit then th
      else if PermitCalldata(th.row).None? then th.(pc := Done(GaveUp))
      else th.(permit := if accepted then Pending else Unsent, pc := if reported then PermitWait else Done(GaveUp))
    case PermitReceipt =>
      if th.pc != PermitWait then th
      else if th.permit == Mined then th.(pc := Ready)
      else if th.permit == Reverted then th.(pc := Done(GaveUp))
      else th
    case LosePermit => if th.pc == PermitWait then th.(pc := Done(GaveUp)) else th
    case SendTransfer(accepted, reported) =>
      if th.pc != Ready then th
      else if TransferCalldata(th).None? then th.(pc := Done(GaveUp))
      else th.(transfer := if accepted then Pending else Unsent, pc := if reported then TransferWait else Done(TransferUnknown))
    case TransferReceipt =>
      if th.pc != TransferWait then th
      else if th.transfer == Mined then th.(pc := Paid)
      else if th.transfer == Reverted then th.(pc := Done(TransferReverted))
      else th
    case LoseTransfer => if th.pc == TransferWait then th.(pc := Done(TransferUnknown)) else th
  }

  function PermitEffect(env: Env, allow: Allowances, th: Thread, time: nat): Option<Allowances> {
    var args := RowArgs(th.row);
    if args.None? || !WellAddressed(th.row) then None
    else CallPermit(env.crypto, env.home, allow, HexToAddress(th.row.owner), ArgsMessage(args.value), args.value.signature, time)
  }

  function TransferEffect(allow: Allowances, th: Thread, time: nat, tokenOk: bool): Option<Allowances> {
    if th.key.None? then None else CallTransferFrom(allow, th.key.value, Packed(th.amount), time, tokenOk)
  }

  /** The broadcast calldata asks for that very effect: the allowance of the spend's key, its seller, its packed amount. */
  lemma TransferAsksForItsEffect(th: Thread)
    requires th.key == KeyIfAny(th.row) && th.key.Some? && TransferCalldata(th).Some?
    ensures IsHexAddress(th.seller)
    ensures DecodeTransferCall(TransferCalldata(th).value) ==
            Some((th.key.value.owner, HexToAddress(th.seller), Packed(th.amount), th.key.value.token))
  {
    TransferCallRoundTrip(TransferArgs(th.row.owner, th.seller, th.amount, th.row.token));
  }

  /** Likewise for a permit: what is executed is what its calldata decodes to. */
  lemma PermitAsksForItsEffect(env: Env, allow: Allowances, th: Thread, time: nat)
    requires th.key.Some? && th.key == KeyIfAny(th.row) && PermitCalldata(th.row).Some?
    ensures var call := DecodePermitCall(PermitCalldata(th.row).value);
      && call.Some? && call.value.0 < TWO_160
      && PermitEffect(env, allow, th, time) ==
         CallPermit(env.crypto, env.home, allow, call.value.0, call.value.1, call.value.2, time)
  {
    PermitCallRoundTrip(RowArgs(th.row).value);
  }

  function MinedPermit(env: Env, s: State, t: nat, time: nat): State
    requires t < |s.threads|
  {
    var th := s.threads[t];
    match PermitEffect(env, s.allow, th, time)
    case Some(allow) => s.(allow := allow, threads := s.threads[t := th.(permit := Mined)])
    case None => s.(threads := s.threads[t := th.(permit := Reverted)])
  }

  function MinedTransfer(s: State, t: nat, time: nat, tokenOk: bool): State
    requires t < |s.threads|
  {
    var th := s.threads[t];
    match TransferEffect(s.allow, th, time, tokenOk)
    case Some(allow) => s.(allow := allow, threads := s.threads[t := th.(transfer := Mined)])
    case None => s.(threads := s.threads[t := th.(transfer := Reverted)])
  }

  function Booked(s: State, t: nat): State
    requires t < |s.threads|
  {
    var th := s.threads[t];
    if Lookup(s.rows, BumpId(th)).None? then s.(threads := s.threads[t := th.(pc := Done(BumpFailed))])
    else s.(rows := BumpRows(s.rows, BumpId(th), th.amount), threads := s.threads[t := th.(pc := Done(Success))])
  }

  /** The machine; a step that is not enabled changes nothing. */
  function Next(env: Env, s: State, e: Step): State {
    match e
    case Verify(c) =>
      (match VerifiedRow(env.crypto, c)
       case Ok(row) => s.(rows := Apply(s.rows, Put(row)))
       case Err(_) => s)
    case Observe(l) =>
      (match LogOp(env.ours, l)
       case Some(op) => s.(rows := Apply(s.rows, op))
       case None => s)
    case Begin(agent, amount, now, seller) =>
      (match Opened(s.rows, agent, amount, now, seller)
       case Some(th) => s.(threads := s.threads + [th])
       case None => s)
    case Do(t, act) =>
      if t < |s.threads| then s.(threads := s.threads[t := Acted(s.threads[t], act)]) else s
    case Book(t) =>
      if t < |s.threads| && s.threads[t].pc == Paid then Booked(s, t) else s
    case MinePermit(t, time) =>
      if t < |s.threads| && s.threads[t].permit == Pending then MinedPermit(env, s, t, time) else s
    case MineTransfer(t, time, tokenOk) =>
      if t < |s.threads| && s.threads[t].transfer == Pending then MinedTransfer(s, t, time, tokenOk) else s
    case Approve(key, granted, expiration, time) => s.(allow := CallApprove(s.allow, key, granted, expiration, time))
    case Lockdown(key) => s.(allow := CallLockdown(s.allow, key))
  }

  function From(env: Env, s: State, steps: seq<Step>): State {
    Run((t, e) => Next(env, t, e), s, steps)
  }

  /** The states the wallet can get into: any interleaving of any steps, from an empty store. */
  function Reach(env: Env, steps: seq<Step>): State {
    From(env, INITIAL, steps)
  }

  // ---- sums over the spends ----

  datatype Meter =
    | BookedOn(id: Id)      // spends that ended well
    | FlyingOn(id: Id)      // spends not yet ended
    | CountOn(id: Id)       // how many of those
    | MovedOn(id: Id)       // spends whose transfer was mined
    | UnbookedOn(id: Id)    // those not bumped, or not yet
    | LostOn(id: Id)        // those that ended without learning of it
    | DrawnOn(key: Key)     // mined transfers under one on-chain allowance
    | PermitsOn(key: Key)   // how many permits for it were mined
    | GrantedOn(key: Key)   // the amounts of those permits
    | LiveOn(key: Key)      // how many of its spends have not ended

  function Weigh(m: Meter, th: Thread): nat {
    match m
    case BookedOn(id) => if IdOf(th.row) == id && th.pc == Done(Success) then th.amount else 0
    case FlyingOn(id) => if IdOf(th.row) == id && !th.pc.Done? then th.amount else 0
    case CountOn(id) => if IdOf(th.row) == id && !th.pc.Done? then 1 else 0
    case MovedOn(id) => if IdOf(th.row) == id && th.transfer == Mined then th.amount else 0
    case UnbookedOn(id) => if IdOf(th.row) == id && th.transfer == Mined && th.pc != Done(Success) then th.amount else 0
    case LostOn(id) => if IdOf(th.row) == id && th.transfer == Mined && th.pc == Done(TransferUnknown) then th.amount else 0
    case DrawnOn(key) => if th.key == Some(key) && th.transfer == Mined then th.amount else 0
    case PermitsOn(key) => if th.key == Some(key) && th.permit == Mined then 1 else 0
    case GrantedOn(key) => if th.key == Some(key) && th.permit == Mined then Packed(Allowance(th.row).GetOr(0)) else 0
    case LiveOn(key) => if th.key == Some(key) && !th.pc.Done? then 1 else 0
  }

  function Total(m: Meter, threads: seq<Thread>): nat {
    if threads == [] then 0 else Total(m, threads[..|threads| - 1]) + Weigh(m, threads[|threads| - 1])
  }

  lemma TotalAppend(m: Meter, threads: seq<Thread>, th: Thread)
    ensures Total(m, threads + [th]) == Total(m, threads) + Weigh(m, th)
  {
    assert (threads + [th])[..|threads|] == threads;
  }

  lemma {:induction false} TotalUpdate(m: Meter, threads: seq<Thread>, t: nat, th: Thread)
    requires t < |threads|
    ensures Total(m, threads[t := th]) == Total(m, threads) - Weigh(m, threads[t]) + Weigh(m, th)
    ensures Total(m, threads) >= Weigh(m, threads[t])
  {
    var n := |threads| - 1;
    if t < n {
      assert threads[t := th][..n] == threads[..n][t := th];
      TotalUpdate(m, threads[..n], t, th);
    } else {
      assert threads[t := th][..n] == threads[..n];
    }
  }

  lemma {:induction false} TotalOrder(m: Meter, k: Meter, threads: seq<Thread>)
    requires forall t :: 0 <= t < |threads| ==> Weigh(m, threads[t]) <= Weigh(k, threads[t])
    ensures Total(m, threads) <= Total(k, threads)
  {
    if threads == [] {
    } else {
      TotalOrder(m, k, threads[..|threads| - 1]);
    }
  }
}
