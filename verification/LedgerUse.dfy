/** Which rows can be spent from: those whose last write was a verified submission, until an event overwrites them. */
module LedgerUse {
  import opened Authorize
  import opened Bytes
  import opened Contract
  import opened Events
  import opened Ledger
  import opened LedgerBooks
  import opened Permit2
  import opened Runs
  import opened Store
  import opened StoreHistory
  import opened Text
  import opened TypedData
  import opened Wrappers

  predicate Writes(env: Env, e: Step, id: Id) {
    RowOp(env, e).Some? && RowOp(env, e).value.Puts(id)
  }

  /** The last write of the row, if any, came from a verified submission. */
  predicate LastWrittenByVerify(env: Env, steps: seq<Step>, id: Id) {
    if steps == [] then false
    else
      var e := steps[|steps| - 1];
      if Writes(env, e, id) then e.Verify? else LastWrittenByVerify(env, steps[..|steps| - 1], id)
  }

  predicate SignedAt(rows: seq<Authorization>, id: Id) {
    Lookup(rows, id).Some? && Signed(Lookup(rows, id).value)
  }

  lemma VerifyWritesSigned(env: Env, e: Step)
    ensures RowOp(env, e).Some? && RowOp(env, e).value.Put? ==> (Signed(RowOp(env, e).value.a) <==> e.Verify?)
  {
    if e.Verify? && VerifiedRow(env.crypto, e.claim).Ok? {
      VerifiedFacts(env.crypto, e.claim);
    }
  }

  lemma OpDecides(rows: seq<Authorization>, op: Op, id: Id)
    ensures SignedAt(Apply(rows, op), id) <==> if op.Puts(id) then Signed(op.a) else SignedAt(rows, id)
  {
    LookupApply(rows, op, id);
  }

  lemma ChangeDecides(env: Env, s: State, e: Step, c: Change, s2: State, id: Id)
    requires Changed(s, c, s2) && RowOp(env, e) == (if c.Rows? then Some(c.op) else None)
    ensures SignedAt(s2.rows, id) <==> if Writes(env, e, id) then e.Verify? else SignedAt(s.rows, id)
  {
    match c
    case Rows(op) =>
      VerifyWritesSigned(env, e);
      OpDecides(s.rows, op, id);
    case Books(t) => OpDecides(s.rows, Bump(IdOf(s.threads[t].row), s.threads[t].amount), id);
    case _ =>
  }

  /** In every reachable state a row is signed if and only if its last write came from a verified submission. */
  lemma {:induction false} SignedExactly(env: Env, steps: seq<Step>, id: Id)
    ensures SignedAt(Reach(env, steps).rows, id) <==> LastWrittenByVerify(env, steps, id)
  {
    if steps == [] {
    } else {
      var front, e := steps[..|steps| - 1], steps[|steps| - 1];
      assert front + [e] == steps;
      SignedExactly(env, front, id);
      ReachableBooks(env, front, id);
      ReachSnoc(env, front, e);
      var c := NextChanges(env, Reach(env, front), e);
      ChangeDecides(env, Reach(env, front), e, c, Reach(env, steps), id);
    }
  }

  /** Some spend can begin on the row. */
  ghost predicate Spendable(rows: seq<Authorization>, id: Id) {
    exists agent, amount, now, seller ::
      Opened(rows, agent, amount, now, seller).Some? && IdOf(Opened(rows, agent, amount, now, seller).value.row) == id
  }

  lemma OnlySignedIsSpendable(env: Env, steps: seq<Step>, id: Id)
    requires Spendable(Reach(env, steps).rows, id)
    ensures SignedAt(Reach(env, steps).rows, id)
  {
    var rows := Reach(env, steps).rows;
    var agent, amount, now, seller :|
      Opened(rows, agent, amount, now, seller).Some? && IdOf(Opened(rows, agent, amount, now, seller).value.row) == id;
    ReachableBooks(env, steps, id);
    OpenedIsSound(rows, agent, amount, now, seller);
    RowIsFound(rows, Opened(rows, agent, amount, now, seller).value.row);
  }

  // ---- the log of the agent's own permit ----

  /** The log the contract emits when the permit of a message is mined for an owner. */
  function OwnLog(contract: Address, owner: Address, m: PermitMessage, block: nat): Log
    requires m.amount < TWO_256 && m.expiration < TWO_256 && m.nonce < TWO_256
  {
    PermitLog(contract, owner, m.token, m.spender, m.amount, m.expiration, m.nonce, block)
  }

  lemma SameIdentity(r: Authorization, owner: Address, m: PermitMessage)
    requires LooksLikeAddress(r.owner) && LooksLikeAddress(r.agent) && LooksLikeAddress(r.token)
    requires IsHexAddress(r.owner) && HexToAddress(r.owner) == owner && Describes(r, m)
    ensures MakeId(AddressHex(owner), AddressHex(m.spender), AddressHex(m.token), r.nonce) == IdOf(r)
  {
    NamesOneAccount(owner, r.owner);
    NamesOneAccount(m.spender, r.agent);
    NamesOneAccount(m.token, r.token);
  }

  /** It addresses the very row the permit was sent from. */
  lemma OwnLogHitsItsRow(env: Env, c: Claim, contract: Address, block: nat)
    requires VerifiedRow(env.crypto, c).Ok? && BuildPermit2(c.params).Ok?
    requires env.ours(AddressHex(BuildPermit2(c.params).value.1.spender))
    ensures var r := VerifiedRow(env.crypto, c).value; var m := BuildPermit2(c.params).value.1;
      && IsHexAddress(r.owner) && m.amount < TWO_256 && m.expiration < TWO_256 && m.nonce < TWO_256
      && Writes(env, Observe(OwnLog(contract, HexToAddress(r.owner), m, block)), IdOf(r))
  {
    var r, m := VerifiedRow(env.crypto, c).value, BuildPermit2(c.params).value.1;
    VerifiedFacts(env.crypto, c);
    BuiltFits(c.params);
    BuiltDescribes(c.params, r);
    SameIdentity(r, HexToAddress(r.owner), m);
    var ev := DecodedOwnLog(contract, HexToAddress(r.owner), m, block);
  }

  lemma DecodedOwnLog(contract: Address, owner: Address, m: PermitMessage, block: nat) returns (ev: PermitEvent)
    requires m.amount < TWO_256 && m.expiration < TWO_48 && m.nonce < TWO_48
    ensures DecodePermit(OwnLog(contract, owner, m, block)) == Ok(ev)
    ensures ev.owner == AddressHex(owner) && ev.spender == AddressHex(m.spender) && ev.token == AddressHex(m.token)
    ensures ev.nonce == m.nonce
  {
    ev := DecodedLog(contract, owner, m.token, m.spender, m.amount, m.expiration, m.nonce, block);
    Int64Exactly(m.nonce);
  }

  lemma {:induction false} NotVerifiedSince(env: Env, before: seq<Step>, e: Step, after: seq<Step>, id: Id)
    requires Writes(env, e, id) && e.Observe?
    requires forall i :: 0 <= i < |after| && after[i].Verify? ==> !Writes(env, after[i], id)
    ensures !LastWrittenByVerify(env, before + [e] + after, id)
  {
    var steps := before + [e] + after;
    if after == [] {
      assert steps == before + [e];
    } else {
      assert steps[..|steps| - 1] == before + [e] + after[..|after| - 1];
      NotVerifiedSince(env, before, e, after[..|after| - 1], id);
    }
  }

  /**
   The log of a row's own permit ends its use: from then on, in every run in which no submission for the same identity is
   verified again, the row is there but unsigned, and no spend can begin on it.
   */
  lemma OwnPermitEndsSpending(env: Env, c: Claim, contract: Address, block: nat, before: seq<Step>, after: seq<Step>)
    requires VerifiedRow(env.crypto, c).Ok? && BuildPermit2(c.params).Ok?
    requires env.ours(AddressHex(BuildPermit2(c.params).value.1.spender))
    requires var id := IdOf(VerifiedRow(env.crypto, c).value);
      forall i :: 0 <= i < |after| && after[i].Verify? ==> !Writes(env, after[i], id)
    ensures var r := VerifiedRow(env.crypto, c).value; var m := BuildPermit2(c.params).value.1;
      && IsHexAddress(r.owner) && m.amount < TWO_256 && m.expiration < TWO_256 && m.nonce < TWO_256
      && var rows := Reach(env, before + [Observe(OwnLog(contract, HexToAddress(r.owner), m, block))] + after).rows;
        Lookup(rows, IdOf(r)).Some? && !SignedAt(rows, IdOf(r)) && !Spendable(rows, IdOf(r))
  {
    OwnLogHitsItsRow(env, c, contract, block);
    var r, m := VerifiedRow(env.crypto, c).value, BuildPermit2(c.params).value.1;
    var e := Observe(OwnLog(contract, HexToAddress(r.owner), m, block));
    WrittenAndUnsigned(env, before, e, after, IdOf(r));
  }

  lemma WrittenAndUnsigned(env: Env, before: seq<Step>, e: Step, after: seq<Step>, id: Id)
    requires Writes(env, e, id) && e.Observe?
    requires forall i :: 0 <= i < |after| && after[i].Verify? ==> !Writes(env, after[i], id)
    ensures var rows := Reach(env, before + [e] + after).rows;
      Lookup(rows, id).Some? && !SignedAt(rows, id) && !Spendable(rows, id)
  {
    var steps := before + [e] + after;
    NotVerifiedSince(env, before, e, after, id);
    SignedExactly(env, steps, id);
    if Spendable(Reach(env, steps).rows, id) {
      OnlySignedIsSpendable(env, steps, id);
    }
    StillThere(env, before, e, after, id);
  }

  lemma StillThere(env: Env, before: seq<Step>, e: Step, after: seq<Step>, id: Id)
    requires Writes(env, e, id)
    ensures Lookup(Reach(env, before + [e] + after).rows, id).Some?
  {
    var written := before + [e];
    ReachableBooks(env, before, id);
    ReachableBooks(env, written, id);
    ReachSnoc(env, before, e);
    LookupApply(Reach(env, before).rows, RowOp(env, e).value, id);
    RunSum((s, step) => Next(env, s, step), INITIAL, written, after);
    StillListed(env, Reach(env, written), after, id);
  }

  // ---- lockdowns ----

  /** No Lockdown log observed carries its three addresses as topics. */
  predicate LockdownsInData(steps: seq<Step>) {
    forall i :: 0 <= i < |steps| && steps[i].Observe? ==> IsInData(steps[i].log)
  }

  predicate IsInData(l: Log) {
    |l.topics| > 0 && l.topics[0] == TOPIC_LOCKDOWN ==> |l.topics| != 4
  }

  predicate Unlocked(rows: seq<Authorization>) {
    forall i :: 0 <= i < |rows| ==> !rows[i].onchainLocked
  }

  lemma OpLeavesUnlocked(rows: seq<Authorization>, op: Op)
    requires Unlocked(rows) && !op.Lock? && (op.Put? ==> !op.a.onchainLocked)
    ensures Unlocked(Apply(rows, op))
  {
  }

  lemma StepLocksNothing(env: Env, e: Step)
    requires e.Observe? ==> IsInData(e.log)
    ensures RowOp(env, e).Some? ==> !RowOp(env, e).value.Lock? && (RowOp(env, e).value.Put? ==> !RowOp(env, e).value.a.onchainLocked)
  {
    if e.Observe? && |e.log.topics| > 0 && e.log.topics[0] == TOPIC_LOCKDOWN {
      LockdownNeedsItsTopics(env.ours, e.log);
    }
  }

  lemma ChangeLeavesUnlocked(env: Env, s: State, e: Step, c: Change, s2: State)
    requires Changed(s, c, s2) && RowOp(env, e) == (if c.Rows? then Some(c.op) else None)
    requires Unlocked(s.rows) && (e.Observe? ==> IsInData(e.log))
    ensures Unlocked(s2.rows)
  {
    StepLocksNothing(env, e);
    match c
    case Rows(op) => OpLeavesUnlocked(s.rows, op);
    case Books(t) => OpLeavesUnlocked(s.rows, Bump(IdOf(s.threads[t].row), s.threads[t].amount));
    case _ =>
  }

  /** While Lockdown logs keep addresses in their data, no row in any reachable state is locked. */
  lemma {:induction false} NoRowIsLocked(env: Env, steps: seq<Step>)
    requires LockdownsInData(steps)
    ensures Unlocked(Reach(env, steps).rows)
  {
    if steps == [] {
    } else {
      var front, e := steps[..|steps| - 1], steps[|steps| - 1];
      assert front + [e] == steps && forall i :: 0 <= i < |front| ==> front[i] == steps[i];
      NoRowIsLocked(env, front);
      ReachableBooks(env, front, Id("", "", "", 0));
      ReachSnoc(env, front, e);
      var c := NextChanges(env, Reach(env, front), e);
      ChangeLeavesUnlocked(env, Reach(env, front), e, c, Reach(env, steps));
    }
  }

  /**
   Then a lockdown on chain never stops a spend, even with its log observed: no row is locked, and the same spends begin as
   before, although what they would transfer under the key can no longer be.
   */
  lemma LockdownNeverStopsASpend(env: Env, steps: seq<Step>, key: Key, contract: Address, block: nat)
    requires LockdownsInData(steps)
    ensures var log := LockdownInData(contract, key.owner, key.token, key.spender, block);
      var s := Reach(env, steps); var after := Reach(env, steps + [Lockdown(key)] + [Observe(log)]);
      && Unlocked(after.rows) && after.threads == s.threads
      && (forall agent, amount, now, seller :: Opened(after.rows, agent, amount, now, seller) == Opened(s.rows, agent, amount, now, seller))
      && forall th: Thread, time, tokenOk :: th.key == Some(key) && 0 < th.amount < TWO_256 ==>
        TransferEffect(after.allow, th, time, tokenOk).None?
  {
    var log := LockdownInData(contract, key.owner, key.token, key.spender, block);
    NoRowIsLocked(env, steps);
    LockdownInDataIsDropped(env.ours, contract, key.owner, key.token, key.spender, block);
    ReachSnoc(env, steps, Lockdown(key));
    ReachSnoc(env, steps + [Lockdown(key)], Observe(log));
    forall th: Thread, time, tokenOk | th.key == Some(key) && 0 < th.amount < TWO_256
      ensures TransferEffect(CallLockdown(Reach(env, steps).allow, key), th, time, tokenOk).None?
    {
      PackedExactly(th.amount);
    }
  }
}
