/**
 A permit for the largest amount, which the contract never uses up: mined once, it lets any number of spends draw on it. So
 a permit caps what is drawn exactly when its amount is below that.
 */
module LedgerUnlimited {
  import opened Authorize
  import opened Bytes
  import opened Contract
  import opened Ledger
  import opened LedgerAllowance
  import opened LedgerBooks
  import opened LedgerGrants
  import opened LedgerOverspend
  import opened LedgerPermits
  import opened Permit2
  import opened Signatures
  import opened Store
  import opened StoreHistory
  import opened Text
  import opened TypedData
  import opened Wrappers

  /** An accepted claim whose permit the deployed contract can take first: its domain, nonce 0, a deadline after time 0. */
  predicate Permits(env: Env, c: Claim) {
    && VerifiedRow(env.crypto, c).Ok?
    && BuildPermit2(c.params).Ok? && BuildPermit2(c.params).value.0 == env.home
    && c.params.nonce == 0 && c.params.deadline > 0
    && Allowance(VerifiedRow(env.crypto, c).value).Some? && Allowance(VerifiedRow(env.crypto, c).value).value > 0
    && WellAddressed(VerifiedRow(env.crypto, c).value)
  }

  /** The row as it is kept. */
  function RowOf(env: Env, c: Claim): Authorization
    requires Permits(env, c)
  {
    VerifiedRow(env.crypto, c).value.(spentAtoms := "0")
  }

  function DealOf(env: Env, c: Claim): Deal
    requires Permits(env, c)
  {
    var row := RowOf(env, c);
    Deal(KeyOf(row), IdOf(row), Allowance(row).value, row.expiration)
  }

  /** A spend for the whole amount, as it begins. */
  function FullSpend(env: Env, c: Claim, seller: string): Thread
    requires Permits(env, c)
  {
    var row := RowOf(env, c);
    Thread(row, Some(KeyOf(row)), row.agent, seller, Allowance(row).value, c.now, Checked, Unsent, Unsent)
  }

  /** An accepted claim that describes a deal has its addresses and its amount in range. */
  lemma AcceptedIsDescribed(env: Env, c: Claim)
    requires VerifiedRow(env.crypto, c).Ok?
    ensures BuildPermit2(c.params).Ok? && Describes(VerifiedRow(env.crypto, c).value, BuildPermit2(c.params).value.1)
  {
    VerifiedFacts(env.crypto, c);
    BuiltDescribes(c.params, VerifiedRow(env.crypto, c).value);
  }

  lemma RowFacts(env: Env, c: Claim)
    requires Permits(env, c)
    ensures var row := RowOf(env, c);
      && Describes(row, BuildPermit2(c.params).value.1) && Signed(row) && SpentOf(row) == 0
      && row.nonce == 0 && row.expiration == c.params.deadline > c.now && !row.revoked && !row.onchainLocked
      && 0 < Allowance(row).value <= MAX_AMOUNT
      && row.owner == c.owner && row.signatureHex == NormalizeSigHex(c.signatureHex)
  {
    AcceptedIsDescribed(env, c);
    VerifiedFacts(env.crypto, c);
    VerifiedAmount(env.crypto, c);
    PrintedIsNotBlank(0);
    assert PrintInt(0) == "0";
  }

  lemma DealIsValid(env: Env, c: Claim)
    requires Permits(env, c)
    ensures DealOf(env, c).Valid() && DealOf(env, c).amount > 0 && Terms(DealOf(env, c), RowOf(env, c))
  {
    RowFacts(env, c);
  }

  lemma ArgsArePacked(a: PermitArgs)
    requires IsHexAddress(a.owner) && IsHexAddress(a.token) && IsHexAddress(a.spender)
    requires a.amount > 0 && a.sigDeadline > 0 && |a.signature| == 65
    ensures EncodePermitCall(a).Ok?
  {
  }

  lemma PermitIsPacked(env: Env, c: Claim)
    requires Permits(env, c)
    ensures var row := RowOf(env, c);
      && RowArgs(row).Some? && PermitCalldata(row).Some? && ArgsMessage(RowArgs(row).value) == BuildPermit2(c.params).value.1
  {
    RowFacts(env, c);
    VerifiedFacts(env.crypto, c);
    CachedSignature(c.signatureHex);
    DescribedArgs(RowOf(env, c), BuildPermit2(c.params).value.1);
    ArgsArePacked(RowArgs(RowOf(env, c)).value);
  }

  /** The signature text, in its on-chain form, is the owner's for the message under the domain. */
  predicate SignsFor(crypto: Crypto, d: Domain, m: PermitMessage, signatureHex: string, owner: Address) {
    var sent := SigOnchain(signatureHex);
    && sent.Some? && |sent.value| == 65 && sent.value[64] >= 27
    && crypto.recover(crypto.hash(d, m), sent.value[64 := sent.value[64] - 27]) == Some(owner)
  }

  lemma CachedSignsFor(crypto: Crypto, d: Domain, m: PermitMessage, s: string, owner: Address)
    requires Sig65(s).Some? && crypto.recover(crypto.hash(d, m), Sig65(s).value) == Some(owner)
    ensures SignsFor(crypto, d, m, NormalizeSigHex(s), owner)
  {
    CachedSignature(s);
  }

  lemma ClaimIsSigned(env: Env, c: Claim)
    requires Permits(env, c)
    ensures IsHexAddress(c.owner)
    ensures SignsFor(env.crypto, env.home, BuildPermit2(c.params).value.1, NormalizeSigHex(c.signatureHex), HexToAddress(c.owner))
  {
    AcceptedExactly(env.crypto, c);
    CachedSignsFor(env.crypto, env.home, BuildPermit2(c.params).value.1, c.signatureHex, HexToAddress(c.owner));
  }

  lemma SignedRowIsTaken(env: Env, th: Thread, m: PermitMessage)
    requires WellAddressed(th.row) && RowArgs(th.row).Some? && ArgsMessage(RowArgs(th.row).value) == m
    requires m.amount <= MAX_AMOUNT && m.nonce == 0
    requires SignsFor(env.crypto, env.home, m, th.row.signatureHex, HexToAddress(th.row.owner))
    ensures PermitEffect(env, map[], th, 0).Some?
  {
  }

  /** The contract takes the permit: its owner signed that very message for that very domain. */
  lemma PermitIsTaken(env: Env, c: Claim, th: Thread)
    requires Permits(env, c) && th.row == RowOf(env, c)
    ensures PermitEffect(env, map[], th, 0).Some?
  {
    RowFacts(env, c);
    PermitIsPacked(env, c);
    ClaimIsSigned(env, c);
    SignedRowIsTaken(env, th, ArgsMessage(RowArgs(th.row).value));
  }

  // ---- the store offers the row ----

  lemma VerifiedIsUnspent(crypto: Crypto, c: Claim)
    requires VerifiedRow(crypto, c).Ok?
    ensures VerifiedRow(crypto, c).value.spentAtoms == ""
  {
  }

  lemma FirstRowIsKept(a: Authorization)
    requires a.spentAtoms == ""
    ensures UpsertRows([], a) == [a.(spentAtoms := "0")]
  {
  }

  lemma OneRow(env: Env, c: Claim)
    requires Permits(env, c)
    ensures Next(env, INITIAL, Verify(c)) == INITIAL.(rows := [RowOf(env, c)])
  {
    VerifiedIsUnspent(env.crypto, c);
    FirstRowIsKept(VerifiedRow(env.crypto, c).value);
  }

  lemma RowIsOpen(env: Env, c: Claim, seller: string)
    requires Permits(env, c)
    ensures var th := FullSpend(env, c, seller); Opened([th.row], th.agent, th.amount, th.now, seller) == Some(th)
  {
    RowFacts(env, c);
    var row := RowOf(env, c);
    var q := ForAgent(row.agent, c.now);
    assert Fit([row][0], q);
    PickSelectsNewest([row], q);
  }

  // ---- runs that give the key nothing else ----

  predicate AllKeep(env: Env, d: Deal, steps: seq<Step>) {
    forall i :: 0 <= i < |steps| ==> Keeps(env, d, steps[i]) && !steps[i].Approve?
  }

  lemma ClaimIsKept(env: Env, c: Claim)
    requires Permits(env, c)
    ensures Keeps(env, DealOf(env, c), Verify(c)) && Reach(env, []) == INITIAL
    ensures Next(env, INITIAL, Verify(c)) == INITIAL.(rows := [RowOf(env, c)])
  {
    OneRow(env, c);
  }

  lemma GrowKept(env: Env, d: Deal, steps: seq<Step>, e: Step) returns (more: seq<Step>)
    requires AllKeep(env, d, steps) && Keeps(env, d, e) && !e.Approve?
    ensures AllKeep(env, d, more) && Reach(env, more) == Next(env, Reach(env, steps), e)
  {
    more := steps + [e];
    ReachSnoc(env, steps, e);
  }

  /** Any step but a submission, a log or an approval gives the key nothing. */
  lemma GrowQuietly(env: Env, d: Deal, steps: seq<Step>, e: Step) returns (more: seq<Step>)
    requires AllKeep(env, d, steps) && !e.Verify? && !e.Observe? && !e.Approve?
    ensures AllKeep(env, d, more) && Reach(env, more) == Next(env, Reach(env, steps), e)
  {
    more := GrowKept(env, d, steps, e);
  }

  /** The same, from and to known states. */
  lemma MovesTo(env: Env, d: Deal, steps: seq<Step>, s: State, e: Step, s2: State) returns (more: seq<Step>)
    requires AllKeep(env, d, steps) && !e.Verify? && !e.Observe? && !e.Approve?
    requires Reach(env, steps) == s && Next(env, s, e) == s2
    ensures AllKeep(env, d, more) && Reach(env, more) == s2
  {
    more := GrowQuietly(env, d, steps, e);
  }

  predicate CanBegin(s: State, th: Thread) {
    Opened(s.rows, th.agent, th.amount, th.now, th.seller) == Some(th)
  }

  function BeginOf(th: Thread): Step {
    Begin(th.agent, th.amount, th.now, th.seller)
  }

  lemma IsBegun(env: Env, s: State, th: Thread)
    requires CanBegin(s, th)
    ensures Next(env, s, BeginOf(th)) == s.(threads := s.threads + [th])
  {
  }

  /** A step of the last spend by itself. */
  lemma LastActs(env: Env, s: State, threads: seq<Thread>, th: Thread, act: Act)
    requires s.threads == threads + [th]
    ensures Next(env, s, Do(|threads|, act)) == s.(threads := threads + [Acted(th, act)])
  {
    assert s.threads[|threads| := Acted(th, act)] == threads + [Acted(th, act)];
  }

  lemma LastPermitIsMined(env: Env, s: State, th: Thread, allow: Allowances)
    requires s.threads == [] + [th] && th.permit == Pending && PermitEffect(env, s.allow, th, 0) == Some(allow)
    ensures Next(env, s, MinePermit(0, 0)) == s.(allow := allow, threads := [] + [th.(permit := Mined)])
  {
    assert s.threads[0 := th.(permit := Mined)] == [] + [th.(permit := Mined)];
  }

  lemma SamePermit(env: Env, allow: Allowances, th: Thread, after: Thread)
    requires th.row == after.row
    ensures PermitEffect(env, allow, th, 0) == PermitEffect(env, allow, after, 0)
  {
  }

  /** A spend that would be let through and sent its calldata, but for the permit. */
  predicate CanPermit(th: Thread) {
    th.pc == Checked && th.permit == Unsent && th.transfer == Unsent && PermitCalldata(th.row).Some?
  }

  lemma PermitActs(th: Thread)
    requires CanPermit(th)
    ensures Acted(th, ReadAllowance(None)) == th.(pc := NeedPermit)
    ensures Acted(th.(pc := NeedPermit), SendPermit(true, true)) == th.(pc := PermitWait, permit := Pending)
    ensures Acted(th.(pc := PermitWait, permit := Mined), LosePermit) == th.(pc := Done(GaveUp), permit := Mined)
  {
  }

  /** The permit reaches the chain; the spend that sent it never learns. */
  lemma PermitLands(env: Env, d: Deal, before: seq<Step>, s: State, th: Thread, allow: Allowances)
    returns (steps: seq<Step>)
    requires AllKeep(env, d, before) && Reach(env, before) == s && s.threads == []
    requires CanBegin(s, th) && CanPermit(th) && PermitEffect(env, s.allow, th, 0) == Some(allow)
    ensures AllKeep(env, d, steps)
    ensures Reach(env, steps) == s.(allow := allow, threads := [] + [th.(pc := Done(GaveUp), permit := Mined)])
  {
    PermitActs(th);
    var sent, mined := th.(pc := PermitWait, permit := Pending), th.(pc := PermitWait, permit := Mined);
    IsBegun(env, s, th);
    var s1 := s.(threads := [] + [th]);
    steps := MovesTo(env, d, before, s, BeginOf(th), s1);
    LastActs(env, s1, [], th, ReadAllowance(None));
    var s2 := s.(threads := [] + [th.(pc := NeedPermit)]);
    steps := MovesTo(env, d, steps, s1, Do(0, ReadAllowance(None)), s2);
    LastActs(env, s2, [], th.(pc := NeedPermit), SendPermit(true, true));
    var s3 := s.(threads := [] + [sent]);
    steps := MovesTo(env, d, steps, s2, Do(0, SendPermit(true, true)), s3);
    SamePermit(env, s.allow, th, sent);
    LastPermitIsMined(env, s3, sent, allow);
    var s4 := s.(allow := allow, threads := [] + [mined]);
    steps := MovesTo(env, d, steps, s3, MinePermit(0, 0), s4);
    LastActs(env, s4, [], mined, LosePermit);
    steps := MovesTo(env, d, steps, s4, Do(0, LosePermit), s4.(threads := [] + [th.(pc := Done(GaveUp), permit := Mined)]));
  }

  /** A spend for the largest amount that an allowance without end lets through. */
  predicate Covered(allowed: Allowed, th: Thread) {
    && th.pc == Checked && th.key.Some? && TransferCalldata(th).Some? && th.amount <= MAX_AMOUNT
    && allowed.amount == MAX_AMOUNT && Int64(allowed.expiration) > th.now
  }

  lemma TransferActs(th: Thread, allowed: Allowed)
    requires Covered(allowed, th)
    ensures Acted(th, ReadAllowance(Some(allowed))) == th.(pc := Ready)
    ensures Acted(th.(pc := Ready), SendTransfer(true, true)) == th.(pc := TransferWait, transfer := Pending)
    ensures Acted(th.(pc := TransferWait, transfer := Mined), LoseTransfer) == LostTrack(th)
  {
  }

  /** The transfer leaves an allowance without end as it is. */
  lemma LastTransferIsMined(env: Env, s: State, threads: seq<Thread>, th: Thread)
    requires s.threads == threads + [th] && th.transfer == Pending && th.key.Some? && th.amount <= MAX_AMOUNT
    requires AllowedAt(s.allow, th.key.value).amount == MAX_AMOUNT
    ensures Next(env, s, MineTransfer(|threads|, 0, true)) == s.(threads := threads + [th.(transfer := Mined)])
  {
    PackedExactly(th.amount);
    assert s.threads[|threads| := th.(transfer := Mined)] == threads + [th.(transfer := Mined)];
  }

  /** A spend that is covered pays and never learns. */
  lemma DrawsOnce(env: Env, d: Deal, before: seq<Step>, s: State, th: Thread) returns (steps: seq<Step>)
    requires AllKeep(env, d, before) && Reach(env, before) == s
    requires CanBegin(s, th) && th.key.Some? && Covered(AllowedAt(s.allow, th.key.value), th)
    ensures AllKeep(env, d, steps) && Reach(env, steps) == s.(threads := s.threads + [LostTrack(th)])
  {
    var t, allowed := |s.threads|, AllowedAt(s.allow, th.key.value);
    TransferActs(th, allowed);
    var sent, mined := th.(pc := TransferWait, transfer := Pending), th.(pc := TransferWait, transfer := Mined);
    IsBegun(env, s, th);
    var s1 := s.(threads := s.threads + [th]);
    steps := MovesTo(env, d, before, s, BeginOf(th), s1);
    LastActs(env, s1, s.threads, th, ReadAllowance(Some(allowed)));
    var s2 := s.(threads := s.threads + [th.(pc := Ready)]);
    steps := MovesTo(env, d, steps, s1, Do(t, ReadAllowance(Some(allowed))), s2);
    LastActs(env, s2, s.threads, th.(pc := Ready), SendTransfer(true, true));
    var s3 := s.(threads := s.threads + [sent]);
    steps := MovesTo(env, d, steps, s2, Do(t, SendTransfer(true, true)), s3);
    LastTransferIsMined(env, s3, s.threads, sent);
    var s4 := s.(threads := s.threads + [mined]);
    steps := MovesTo(env, d, steps, s3, MineTransfer(t, 0, true), s4);
    LastActs(env, s4, s.threads, mined, LoseTransfer);
    steps := MovesTo(env, d, steps, s4, Do(t, LoseTransfer), s.(threads := s.threads + [LostTrack(th)]));
  }

  /** The state once the permit for the whole amount is mined and `n` spends have drawn on it. */
  predicate HasDrawn(env: Env, c: Claim, seller: string, s: State, n: nat)
    requires Permits(env, c)
  {
    var th := FullSpend(env, c, seller);
    && s.rows == [th.row]
    && AllowedAt(s.allow, th.key.value).amount == th.amount && AllowedAt(s.allow, th.key.value).expiration == th.row.expiration
    && s.threads == [th.(pc := Done(GaveUp), permit := Mined)] + Copies(LostTrack(th), n)
  }

  lemma FullSpendCanBegin(env: Env, c: Claim, seller: string, s: State)
    requires Permits(env, c) && s.rows == [RowOf(env, c)]
    ensures CanBegin(s, FullSpend(env, c, seller)) && CanPermit(FullSpend(env, c, seller))
  {
    RowIsOpen(env, c, seller);
    PermitIsPacked(env, c);
  }

  /** What the permit leaves under its key. */
  lemma PermitGrantsAll(env: Env, c: Claim, th: Thread) returns (allow: Allowances)
    requires Permits(env, c) && th.row == RowOf(env, c) && th.key == Some(KeyOf(th.row))
    ensures PermitEffect(env, map[], th, 0) == Some(allow)
    ensures var allowed := AllowedAt(allow, th.key.value);
      allowed.amount == Allowance(th.row).value && allowed.expiration == th.row.expiration
  {
    RowFacts(env, c);
    PermitIsTaken(env, c, th);
    allow := PermitEffect(env, map[], th, 0).value;
    PermitSetsItsKey(env, map[], th, 0);
    PackedExactly(Allowance(th.row).value);
  }

  lemma PermitIsMinedFirst(env: Env, c: Claim, seller: string) returns (steps: seq<Step>)
    requires Permits(env, c)
    ensures AllKeep(env, DealOf(env, c), steps) && HasDrawn(env, c, seller, Reach(env, steps), 0)
  {
    var d, th, s := DealOf(env, c), FullSpend(env, c, seller), INITIAL.(rows := [RowOf(env, c)]);
    ClaimIsKept(env, c);
    steps := GrowKept(env, d, [], Verify(c));
    FullSpendCanBegin(env, c, seller, s);
    var allow := PermitGrantsAll(env, c, th);
    steps := PermitLands(env, d, steps, s, th, allow);
  }

  lemma TransferIsPacked(th: Thread)
    requires IsHexAddress(th.row.owner) && IsHexAddress(th.row.token) && IsHexAddress(th.seller) && th.amount > 0
    ensures TransferCalldata(th).Some?
  {
    var a := TransferArgs(th.row.owner, th.seller, th.amount, th.row.token);
    assert EncodeTransferFromCall(a).Ok?;
  }

  lemma FullSpendIsPacked(env: Env, c: Claim, seller: string)
    requires Permits(env, c) && IsHexAddress(seller)
    ensures TransferCalldata(FullSpend(env, c, seller)).Some?
  {
    RowFacts(env, c);
    TransferIsPacked(FullSpend(env, c, seller));
  }

  lemma Lasts(expiration: int64, now: int64, allowed: Allowed)
    requires now < expiration && 0 < expiration && allowed.expiration == expiration
    ensures Int64(allowed.expiration) > now
  {
  }

  lemma IsCovered(env: Env, c: Claim, seller: string, allowed: Allowed)
    requires Permits(env, c) && IsHexAddress(seller) && Allowance(RowOf(env, c)).value == MAX_AMOUNT
    requires allowed.amount == MAX_AMOUNT && allowed.expiration == RowOf(env, c).expiration
    ensures Covered(allowed, FullSpend(env, c, seller))
  {
    FullSpendIsPacked(env, c, seller);
    RowFacts(env, c);
    Lasts(RowOf(env, c).expiration, c.now, allowed);
  }

  lemma OneMoreIsDrawn(env: Env, c: Claim, seller: string, s: State, n: nat)
    requires Permits(env, c) && HasDrawn(env, c, seller, s, n)
    ensures HasDrawn(env, c, seller, s.(threads := s.threads + [LostTrack(FullSpend(env, c, seller))]), n + 1)
  {
    var th := FullSpend(env, c, seller);
    var gone := [th.(pc := Done(GaveUp), permit := Mined)];
    assert gone + Copies(LostTrack(th), n) + [LostTrack(th)] == gone + Copies(LostTrack(th), n + 1);
  }

  lemma DrawsAgain(env: Env, c: Claim, seller: string, before: seq<Step>, n: nat) returns (steps: seq<Step>)
    requires Permits(env, c) && DealOf(env, c).amount == MAX_AMOUNT && IsHexAddress(seller)
    requires AllKeep(env, DealOf(env, c), before) && HasDrawn(env, c, seller, Reach(env, before), n)
    ensures AllKeep(env, DealOf(env, c), steps) && HasDrawn(env, c, seller, Reach(env, steps), n + 1)
  {
    var s, th := Reach(env, before), FullSpend(env, c, seller);
    FullSpendCanBegin(env, c, seller, s);
    IsCovered(env, c, seller, AllowedAt(s.allow, th.key.value));
    OneMoreIsDrawn(env, c, seller, s, n);
    steps := DrawsOnce(env, DealOf(env, c), before, s, th);
  }

  lemma {:induction false} AllDraw(env: Env, c: Claim, seller: string, n: nat) returns (steps: seq<Step>)
    requires Permits(env, c) && DealOf(env, c).amount == MAX_AMOUNT && IsHexAddress(seller)
    ensures AllKeep(env, DealOf(env, c), steps) && HasDrawn(env, c, seller, Reach(env, steps), n)
  {
    if n == 0 {
      steps := PermitIsMinedFirst(env, c, seller);
    } else {
      steps := AllDraw(env, c, seller, n - 1);
      steps := DrawsAgain(env, c, seller, steps, n - 1);
    }
  }

  lemma {:induction false} DrawnByAll(key: Key, gone: Thread, th: Thread, n: nat)
    requires gone.transfer != Mined && th.transfer == Mined && th.key == Some(key)
    ensures Total(DrawnOn(key), [gone] + Copies(th, n)) == n * th.amount
  {
    if n == 0 {
      assert [gone] + Copies(th, 0) == [] + [gone];
      TotalAppend(DrawnOn(key), [], gone);
    } else {
      DrawnByAll(key, gone, th, n - 1);
      assert [gone] + Copies(th, n) == ([gone] + Copies(th, n - 1)) + [th];
      TotalAppend(DrawnOn(key), [gone] + Copies(th, n - 1), th);
      assert n * th.amount == (n - 1) * th.amount + th.amount;
    }
  }

  lemma DrawnSoFar(env: Env, c: Claim, seller: string, s: State, n: nat)
    requires Permits(env, c) && HasDrawn(env, c, seller, s, n)
    ensures Drawn(s, DealOf(env, c).key) == n * DealOf(env, c).amount
  {
    var th := FullSpend(env, c, seller);
    DrawnByAll(DealOf(env, c).key, th.(pc := Done(GaveUp), permit := Mined), LostTrack(th), n);
  }

  /** Nothing is drawn before a permit is mined. */
  lemma OneWasMined(env: Env, d: Deal, steps: seq<Step>, n: nat)
    requires d.Valid() && AllKeep(env, d, steps) && Drawn(Reach(env, steps), d.key) == n * MAX_AMOUNT
    ensures n > 0 ==> PermitsMined(d, Reach(env, steps)) == 1
  {
    PermitIsMinedOnce(env, d, steps);
    FinitePermitCapsDrawing(env, d, steps);
  }

  /**
   One permit without end: for every `n`, a run without approvals, in which exactly one permit is mined, draws `n` times the
   largest amount, while the key has this row only and every receipt is lost.
   */
  lemma UnlimitedPermitIsNeverUsedUp(env: Env, c: Claim, seller: string, n: nat) returns (steps: seq<Step>)
    requires Permits(env, c) && DealOf(env, c).amount == MAX_AMOUNT && IsHexAddress(seller)
    ensures var d := DealOf(env, c);
      && d.Valid() && AllKeep(env, d, steps)
      && Drawn(Reach(env, steps), d.key) == n * MAX_AMOUNT && (n > 0 ==> PermitsMined(d, Reach(env, steps)) == 1)
  {
    var d := DealOf(env, c);
    DealIsValid(env, c);
    steps := AllDraw(env, c, seller, n);
    DrawnSoFar(env, c, seller, Reach(env, steps), n);
    OneWasMined(env, d, steps, n);
  }

  /**
   The exact condition for a permit to cap what is drawn, in every run that gives its key nothing else: an amount below the
   largest.
   */
  lemma PermitCapsExactly(env: Env, c: Claim, seller: string)
    requires Permits(env, c) && IsHexAddress(seller)
    ensures var d := DealOf(env, c);
      (forall steps :: AllKeep(env, d, steps) ==> Drawn(Reach(env, steps), d.key) <= d.amount) <==> d.amount < MAX_AMOUNT
  {
    var d := DealOf(env, c);
    DealIsValid(env, c);
    if d.amount < MAX_AMOUNT {
      forall steps | AllKeep(env, d, steps) ensures Drawn(Reach(env, steps), d.key) <= d.amount {
        FinitePermitCapsDrawing(env, d, steps);
      }
    } else {
      var steps := UnlimitedPermitIsNeverUsedUp(env, c, seller, 2);
      assert AllKeep(env, d, steps);
    }
  }

  lemma PrintedIsDecimal(amount: nat)
    requires amount > 0
    ensures DecimalToBigInt(PrintInt(amount)) == Ok(amount) && ParseInt(PrintInt(amount)) == Some(amount)
    ensures PrintInt(amount) !in {"", "0"}
  {
    ParsePrint(amount);
    ParsedIsTrimmed(PrintInt(amount));
    assert ParseInt("0") == Some(0);
  }

  lemma SampleDomain(p: TransferParams)
    requires BuildPermit2(p).Ok? && p.permit2Addr == Nobody()
    ensures BuildPermit2(p).value.0 == Domain(p.chainId, 0)
  {
    AddressRoundTrip(0);
  }

  /** Such claims exist, whatever the amount: account 0 permits it to itself. */
  lemma SampleIsPermitted(env: Env, amount: nat)
    requires env.crypto == SampleCrypto() && env.home == Domain(1, 0) && 0 < amount <= MAX_AMOUNT
    ensures Permits(env, SampleClaim(PrintInt(amount))) && DealOf(env, SampleClaim(PrintInt(amount))).amount == amount
  {
    var c := SampleClaim(PrintInt(amount));
    PrintedIsDecimal(amount);
    SomeClaimIsAccepted(PrintInt(amount));
    AcceptedIsDescribed(env, c);
    VerifiedFacts(env.crypto, c);
    SampleDomain(c.params);
  }
}
