/** Verifying a signed authorization and caching it. */
module Authorize {
  import opened Bytes
  import opened Permit2
  import opened Signatures
  import opened Store
  import opened Text
  import opened TypedData
  import opened Wrappers

  datatype AuthError =
    | ZeroAmount | DeadlinePassed | InvalidOwner | SpenderMismatch
    | Unbuildable(cause: TypedError) | UndecodableSignature | Unrecoverable | OwnerMismatch | MalformedSignature

  /** One submission to the verifier. */
  datatype Claim = Claim(params: TransferParams, signatureHex: string, owner: string, agent: string, now: int64)

  /** All the checks, in order; on success the row to cache. */
  function VerifiedRow(crypto: Crypto, c: Claim): Result<Authorization, AuthError> {
    var p := c.params;
    if p.amount == "" || p.amount == "0" then Err(ZeroAmount)
    else if p.deadline <= c.now then Err(DeadlinePassed)
    else if !LooksLikeAddress(c.owner) then Err(InvalidOwner)
    else if !EqualFold(c.agent, p.spender) then Err(SpenderMismatch)
    else
      match BuildPermit2(p)
      case Err(e) => Err(Unbuildable(e))
      case Ok((domain, message)) =>
        var sig := Sig65(c.signatureHex);
        if sig.None? then Err(UndecodableSignature)
        else
          var recovered := crypto.recover(crypto.hash(domain, message), sig.value);
          if recovered.None? then Err(Unrecoverable)
          else if !EqualFold(AddressHex(recovered.value), c.owner) then Err(OwnerMismatch)
          else if NormalizeSigHex(c.signatureHex) == "" then Err(MalformedSignature)
          else
            Ok(Authorization(c.owner, p.spender, p.token, p.amount, p.deadline, Int64(p.nonce),
                             NormalizeSigHex(c.signatureHex), "", false, false, c.now))
  }

  class Authorizer {
    const crypto: Crypto
    const store: MemoryStore

    constructor (crypto: Crypto, store: MemoryStore)
      ensures this.crypto == crypto && this.store == store
    {
      this.crypto := crypto;
      this.store := store;
    }

    method VerifyAndCache(c: Claim) returns (r: Result<(), AuthError>)
      modifies store
      ensures var row := VerifiedRow(crypto, c);
        && (row.Ok? ==> r == Ok(()) && store.rows == UpsertRows(old(store.rows), row.value))
        && (row.Err? ==> r == Err(row.error) && store.rows == old(store.rows))
    {
      var p := c.params;
      if p.amount == "" || p.amount == "0" {
        return Err(ZeroAmount);
      }
      if p.deadline <= c.now {
        return Err(DeadlinePassed);
      }
      if !LooksLikeAddress(c.owner) {
        return Err(InvalidOwner);
      }
      if !EqualFold(c.agent, p.spender) {
        return Err(SpenderMismatch);
      }
      var td := BuildPermit2(p);
      if td.Err? {
        return Err(Unbuildable(td.error));
      }
      var sig := Sig65(c.signatureHex);
      if sig.None? {
        return Err(UndecodableSignature);
      }
      var recovered := crypto.recover(crypto.hash(td.value.0, td.value.1), sig.value);
      if recovered.None? {
        return Err(Unrecoverable);
      }
      if !EqualFold(AddressHex(recovered.value), c.owner) {
        return Err(OwnerMismatch);
      }
      var cached := NormalizeSigHex(c.signatureHex);
      if cached == "" {
        return Err(MalformedSignature);
      }
      var _ := store.Upsert(Authorization(c.owner, p.spender, p.token, p.amount, p.deadline, Int64(p.nonce),
                                          cached, "", false, false, c.now));
      return Ok(());
    }
  }

  // ---- what a signed row is worth ----

  predicate WellAddressed(r: Authorization) {
    IsHexAddress(r.owner) && IsHexAddress(r.agent) && IsHexAddress(r.token)
  }

  /** `m` is the message the row stands for. */
  predicate Describes(r: Authorization, m: PermitMessage) {
    && WellAddressed(r)
    && m.token == HexToAddress(r.token)
    && m.spender == HexToAddress(r.agent)
    && ParseInt(TrimSpace(r.amountAtoms)) == Some(m.amount)
    && m.expiration == r.expiration == m.sigDeadline
    && m.nonce == r.nonce
    && m.amount < TWO_160 && m.expiration < TWO_48 && m.nonce < TWO_48
  }

  /** The owner signed `m`, under some Permit2 domain, with the signature `sent` carries. */
  ghost predicate SignedBy(crypto: Crypto, owner: Address, m: PermitMessage, sent: seq<byte>) {
    && |sent| == 65 && sent[64] >= 27
    && exists d: Domain :: crypto.recover(crypto.hash(d, m), sent[64 := sent[64] - 27]) == Some(owner)
  }

  ghost predicate Authentic(crypto: Crypto, r: Authorization) {
    && SigOnchain(r.signatureHex).Some?
    && exists m :: Describes(r, m) && SignedBy(crypto, HexToAddress(r.owner), m, SigOnchain(r.signatureHex).value)
  }

  lemma BuiltDescribes(p: TransferParams, r: Authorization)
    requires BuildPermit2(p).Ok? && LooksLikeAddress(r.owner)
    requires r.agent == p.spender && r.token == p.token && r.amountAtoms == p.amount
    requires r.expiration == p.deadline && r.nonce == Int64(p.nonce)
    ensures Describes(r, BuildPermit2(p).value.1)
  {
    BuiltFits(p);
    BuiltFields(p);
    LooksIsHex(r.owner);
  }

  lemma RecoveredIsOwner(recovered: Address, owner: string)
    requires LooksLikeAddress(owner) && EqualFold(AddressHex(recovered), owner)
    ensures IsHexAddress(owner) && HexToAddress(owner) == recovered
  {
    FoldedAddress(AddressHex(recovered), owner);
    AddressRoundTrip(recovered);
  }

  /** The cached signature, in its on-chain form, is the one that was recovered from. */
  lemma CachedSignature(s: string)
    requires Sig65(s).Some?
    ensures var sent := SigOnchain(NormalizeSigHex(s));
      sent.Some? && sent.value[64] >= 27 && sent.value[64 := sent.value[64] - 27] == Sig65(s).value
  {
    OneSignature(s);
    var sent, sig := SigOnchain(NormalizeSigHex(s)).value, Sig65(s).value;
    forall i | 0 <= i < 65 ensures sent[64 := sent[64] - 27][i] == sig[i] {
      if i < 64 {
        assert sent[..64][i] == sig[..64][i];
      }
    }
  }

  /** Whatever the verifier caches, its owner signed: the same fields, with the signature kept for the chain. */
  lemma VerifiedIsAuthentic(crypto: Crypto, c: Claim)
    requires VerifiedRow(crypto, c).Ok?
    ensures Authentic(crypto, VerifiedRow(crypto, c).value) && Signed(VerifiedRow(crypto, c).value)
  {
    VerifiedFacts(crypto, c);
    var (d, m) := BuildPermit2(c.params).value;
    var r := VerifiedRow(crypto, c).value;
    BuiltDescribes(c.params, r);
    CachedIsAuthentic(crypto, c.signatureHex, d, m, r);
  }

  lemma CachedIsAuthentic(crypto: Crypto, signatureHex: string, d: Domain, m: PermitMessage, r: Authorization)
    requires Describes(r, m) && Sig65(signatureHex).Some? && r.signatureHex == NormalizeSigHex(signatureHex)
    requires crypto.recover(crypto.hash(d, m), Sig65(signatureHex).value) == Some(HexToAddress(r.owner))
    ensures Authentic(crypto, r)
  {
    CachedSignature(signatureHex);
    assert SignedBy(crypto, HexToAddress(r.owner), m, SigOnchain(r.signatureHex).value);
  }

  lemma VerifiedFacts(crypto: Crypto, c: Claim)
    requires VerifiedRow(crypto, c).Ok?
    ensures BuildPermit2(c.params).Ok? && Sig65(c.signatureHex).Some? && LooksLikeAddress(c.owner)
    ensures var r := VerifiedRow(crypto, c).value;
      && r.owner == c.owner && r.agent == c.params.spender && r.token == c.params.token && r.amountAtoms == c.params.amount
      && r.expiration == c.params.deadline && r.nonce == Int64(c.params.nonce)
      && r.signatureHex == NormalizeSigHex(c.signatureHex) && Signed(r)
    ensures var (d, m) := BuildPermit2(c.params).value;
      IsHexAddress(c.owner) && crypto.recover(crypto.hash(d, m), Sig65(c.signatureHex).value) == Some(HexToAddress(c.owner))
  {
    var (d, m) := BuildPermit2(c.params).value;
    RecoveredIsOwner(crypto.recover(crypto.hash(d, m), Sig65(c.signatureHex).value).value, c.owner);
    OneSignature(c.signatureHex);
  }

  /**
   A claim is accepted exactly when its bounds hold and its owner signed it: recovery yields the owner's account. The last
   check, that the signature is well formed, never refuses one.
   */
  lemma AcceptedExactly(crypto: Crypto, c: Claim)
    ensures VerifiedRow(crypto, c).Ok? <==>
      && c.params.amount !in {"", "0"} && c.params.deadline > c.now && EqualFold(c.agent, c.params.spender)
      && IsSignedClaim(crypto, c)
    ensures VerifiedRow(crypto, c) != Err(MalformedSignature)
  {
    if Sig65(c.signatureHex).Some? {
      OneSignature(c.signatureHex);
    }
    if BuildPermit2(c.params).Ok? && Sig65(c.signatureHex).Some? && LooksLikeAddress(c.owner) {
      var (d, m) := BuildPermit2(c.params).value;
      var recovered := crypto.recover(crypto.hash(d, m), Sig65(c.signatureHex).value);
      if recovered.Some? {
        NamesOneAccount(recovered.value, c.owner);
      }
    }
  }

  predicate IsSignedClaim(crypto: Crypto, c: Claim) {
    && LooksLikeAddress(c.owner) && IsHexAddress(c.owner)
    && BuildPermit2(c.params).Ok? && Sig65(c.signatureHex).Some?
    && var (d, m) := BuildPermit2(c.params).value;
      crypto.recover(crypto.hash(d, m), Sig65(c.signatureHex).value) == Some(HexToAddress(c.owner))
  }

  /** What the wallet's own signing yields for the owner's key is accepted. */
  lemma OwnSignatureIsAccepted(crypto: Crypto, c: Claim, raw: seq<byte>)
    requires |raw| == 65 && raw[64] < 27 && c.signatureHex == Presented(raw)
    requires c.params.amount !in {"", "0"} && c.params.deadline > c.now && EqualFold(c.agent, c.params.spender)
    requires LooksLikeAddress(c.owner) && IsHexAddress(c.owner) && BuildPermit2(c.params).Ok?
    requires var (d, m) := BuildPermit2(c.params).value; crypto.recover(crypto.hash(d, m), raw) == Some(HexToAddress(c.owner))
    ensures VerifiedRow(crypto, c).Ok?
    ensures SigOnchain(VerifiedRow(crypto, c).value.signatureHex) == Some(raw[64 := raw[64] + 27])
  {
    PresentedIsRead(raw);
    AcceptedExactly(crypto, c);
    VerifiedFacts(crypto, c);
  }

  /** What a spend reads as the allowance of a row. */
  function Allowance(r: Authorization): Option<int> {
    ParseInt(r.amountAtoms)
  }

  /** A verified amount that a spend can read fits the message it was signed in. */
  lemma VerifiedAmount(crypto: Crypto, c: Claim)
    requires VerifiedRow(crypto, c).Ok?
    ensures var a := Allowance(VerifiedRow(crypto, c).value); a.Some? ==> 0 <= a.value < TWO_160
  {
    VerifiedFacts(crypto, c);
    if ParseInt(c.params.amount).Some? {
      BuiltAmount(c.params);
    }
  }

  lemma BuiltAmount(p: TransferParams)
    requires BuildPermit2(p).Ok? && ParseInt(p.amount).Some?
    ensures 0 <= ParseInt(p.amount).value < TWO_160
  {
    BuiltExactly(p);
    ParsedIsTrimmed(p.amount);
  }

  /** The arguments the spender packs from a row. */
  function RowArgs(r: Authorization): Option<PermitArgs> {
    var sig, amount := SigOnchain(r.signatureHex), ParseInt(r.amountAtoms);
    if sig.None? || amount.None? then None
    else Some(PermitArgs(r.owner, r.token, r.agent, amount.value, Uint64(r.expiration), Uint64(r.nonce), r.expiration, sig.value))
  }

  lemma DescribedArgs(r: Authorization, m: PermitMessage)
    requires Describes(r, m) && RowArgs(r).Some?
    ensures ArgsMessage(RowArgs(r).value) == m
  {
    ParsedIsTrimmed(r.amountAtoms);
    PackedExactly(m.amount);
    PackedExactly(m.expiration);
    PackedExactly(m.nonce);
  }

  /** Permit calldata packed from an authentic row decodes to a message that the row's owner signed. */
  lemma SentPermitWasSigned(crypto: Crypto, r: Authorization)
    requires Authentic(crypto, r) && RowArgs(r).Some?
    requires EncodePermitCall(RowArgs(r).value).Ok?
    ensures var call := DecodePermitCall(EncodePermitCall(RowArgs(r).value).value);
      && call.Some?
      && call.value.0 == HexToAddress(r.owner) < TWO_160
      && SignedBy(crypto, call.value.0, call.value.1, call.value.2)
  {
    var sent := SigOnchain(r.signatureHex).value;
    var m :| Describes(r, m) && SignedBy(crypto, HexToAddress(r.owner), m, sent);
    var a := RowArgs(r).value;
    PermitCallRoundTrip(a);
    DescribedArgs(r, m);
  }

  // ---- amounts the check lets through ----

  predicate HasNonZeroDigit(s: string) {
    exists i :: 0 <= i < |s| && '1' <= s[i] <= '9'
  }

  lemma {:induction false} ZeroValue(s: string)
    requires forall i :: 0 <= i < |s| ==> IsDigit(s[i])
    ensures DigitsValue(s) > 0 <==> HasNonZeroDigit(s)
  {
    if s == "" {
    } else {
      var n := |s| - 1;
      ZeroValue(s[..n]);
      if HasNonZeroDigit(s[..n]) {
        var i :| 0 <= i < n && '1' <= s[..n][i] <= '9';
        assert '1' <= s[i] <= '9';
      }
      if HasNonZeroDigit(s) && !('1' <= s[n] <= '9') {
        var i :| 0 <= i < |s| && '1' <= s[i] <= '9';
        assert '1' <= s[..n][i] <= '9';
      }
    }
  }

  lemma DigitAfterSign(s: string)
    requires s != "" && s[0] in {'+', '-'}
    ensures HasNonZeroDigit(s) <==> HasNonZeroDigit(s[1..])
  {
    if HasNonZeroDigit(s) {
      var i :| 0 <= i < |s| && '1' <= s[i] <= '9';
      assert '1' <= s[1..][i - 1] <= '9';
    }
    if HasNonZeroDigit(s[1..]) {
      var i :| 0 <= i < |s| - 1 && '1' <= s[1..][i] <= '9';
      assert '1' <= s[i + 1] <= '9';
    }
  }

  /**
   The comment promises a positive amount, but the check compares text: a cached row can be spent from exactly when
   its amount has no white space around it and some digit other than zero.
   */
  lemma CachedIsSpendable(crypto: Crypto, c: Claim)
    requires VerifiedRow(crypto, c).Ok?
    ensures var a := Allowance(VerifiedRow(crypto, c).value);
      (a.Some? && a.value > 0) <==> (TrimSpace(c.params.amount) == c.params.amount && HasNonZeroDigit(c.params.amount))
  {
    var s := c.params.amount;
    if ParseInt(s).Some? {
      ParsedIsTrimmed(s);
    }
    if TrimSpace(s) == s {
      var v := ParseInt(s).value;
      assert v >= 0;
      if s[0] in {'+', '-'} {
        ZeroValue(s[1..]);
        DigitAfterSign(s);
      } else {
        ZeroValue(s);
      }
    }
  }

  /** Amounts read as messages and as allowances: a zero written with two digits, and a padded seven. */
  lemma OddAmounts()
    ensures DecimalToBigInt("00") == Ok(0) && ParseInt("00") == Some(0)
    ensures DecimalToBigInt(" 7") == Ok(7) && ParseInt(" 7").None?
  {
    assert DigitsValue("00"[..1]) == 0 && AllDigits("00");
    TrimInner("00");
    assert TrimLeft(" 7") == " 7"[1..] == "7";
    assert TrimRight("7") == "7";
    assert AllDigits("7") && DigitsValue("7") == 7 by {
      assert "7"[..0] == "";
    }
  }

  /** Account 0, for want of a real one. */
  function Nobody(): string {
    AddressHex(0)
  }

  /** A claim for an amount, signed by account 0 when every signature recovers to it. */
  function SampleClaim(amount: string): Claim {
    Claim(TransferParams(Nobody(), Nobody(), amount, 0, 1, 1, Nobody()), Presented(seq(65, _ => 0)), Nobody(), Nobody(), 0)
  }

  function SampleCrypto(): Crypto {
    Crypto((_, _) => [], (_, _) => Some(0))
  }

  /** Whatever decimal amount a claim is for, there is one that is signed and accepted, unless its text is the one refused. */
  lemma SomeClaimIsAccepted(amount: string)
    requires DecimalToBigInt(amount).Ok? && DecimalToBigInt(amount).value < TWO_160 && amount !in {"", "0"}
    ensures VerifiedRow(SampleCrypto(), SampleClaim(amount)).Ok?
  {
    var c := SampleClaim(amount);
    var raw: seq<byte> := seq(65, _ => 0);
    LooksIsHex(Nobody());
    AddressRoundTrip(0);
    BuiltExactly(c.params);
    OwnSignatureIsAccepted(SampleCrypto(), c, raw);
  }

  /** The amount check lets through a zero, and a number that no spend can read: both claims are accepted and cached. */
  lemma AmountCheckIsTextual()
    ensures VerifiedRow(SampleCrypto(), SampleClaim("00")).Ok? &&
            Allowance(VerifiedRow(SampleCrypto(), SampleClaim("00")).value) == Some(0)
    ensures VerifiedRow(SampleCrypto(), SampleClaim(" 7")).Ok? &&
            Allowance(VerifiedRow(SampleCrypto(), SampleClaim(" 7")).value) == None
  {
    OddAmounts();
    SomeClaimIsAccepted("00");
    SomeClaimIsAccepted(" 7");
    VerifiedFacts(SampleCrypto(), SampleClaim("00"));
    VerifiedFacts(SampleCrypto(), SampleClaim(" 7"));
  }
}
