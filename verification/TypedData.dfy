/** Building the EIP-712 message of a Permit2 authorization, and the bounds it checks. */
module TypedData {
  import opened Bytes
  import opened Permit2
  import opened Text
  import opened Wrappers

  datatype TransferParams = TransferParams(
    token: string,
    spender: string,
    amount: string,
    nonce: nat,
    deadline: int64,
    chainId: int64,
    permit2Addr: string)

  /** The signing domain; it carries no version. */
  datatype Domain = Domain(chainId: int64, verifyingContract: Address)

  datatype TypedError = EmptyAmount | NotDecimal | NegativeAmount | AmountTooWide | NonceTooWide | DeadlineTooWide | InvalidAddress

  /** Hashing and key recovery are library code: any functions of these shapes. */
  datatype Crypto = Crypto(hash: (Domain, PermitMessage) -> seq<byte>, recover: (seq<byte>, seq<byte>) -> Option<Address>)

  function DecimalToBigInt(s: string): Result<nat, TypedError> {
    var t := TrimSpace(s);
    if t == "" then Err(EmptyAmount)
    else
      match ParseInt(t)
      case None => Err(NotDecimal)
      case Some(v) => if v < 0 then Err(NegativeAmount) else Ok(v)
  }

  function BitLen(v: nat): nat {
    if v == 0 then 0 else 1 + BitLen(v / 2)
  }

  method BitsForU64(v: nat) returns (bits: nat)
    ensures bits == BitLen(v)
  {
    bits := 0;
    var rest := v;
    while rest > 0
      invariant bits + BitLen(rest) == BitLen(v)
    {
      bits := bits + 1;
      rest := rest / 2;
    }
  }

  /** The bit count bounds a number exactly as its power of two does. */
  lemma {:induction false} BitLenBounds(v: nat, bits: nat)
    ensures BitLen(v) <= bits <==> v < Pow(2, bits)
  {
    if v == 0 {
      PowPositive(bits);
    } else if bits > 0 {
      BitLenBounds(v / 2, bits - 1);
    }
  }

  lemma {:induction false} PowPositive(k: nat)
    ensures Pow(2, k) > 0
  {
    if k == 0 {
    } else {
      PowPositive(k - 1);
    }
  }

  lemma TypeWidths()
    ensures Pow(2, 48) == TWO_48 && Pow(2, 160) == TWO_160
  {
    assert Pow(2, 5) == 32;
    PowSum(2, 5, 5);
    PowSum(2, 10, 10);
    PowSum(2, 20, 20);
    assert Pow(2, 8) == 256;
    PowSum(2, 40, 8);
    PowSum(2, 40, 40);
    PowSum(2, 80, 80);
  }

  function Uint64(x: int64): nat {
    if x < 0 then x + TWO_64 else x
  }

  function BuildPermit2(p: TransferParams): Result<(Domain, PermitMessage), TypedError> {
    match DecimalToBigInt(p.amount)
    case Err(e) => Err(e)
    case Ok(amount) =>
      if BitLen(amount) > 160 then Err(AmountTooWide)
      else if BitLen(p.nonce) > 48 then Err(NonceTooWide)
      else if BitLen(Uint64(p.deadline)) > 48 then Err(DeadlineTooWide)
      else if !LooksLikeAddress(p.token) || !LooksLikeAddress(p.spender) || !LooksLikeAddress(p.permit2Addr) then
        Err(InvalidAddress)
      else
        LooksIsHex(p.token);
        LooksIsHex(p.spender);
        LooksIsHex(p.permit2Addr);
        Ok((Domain(p.chainId, HexToAddress(p.permit2Addr)),
            PermitMessage(HexToAddress(p.token), amount, Uint64(p.deadline), p.nonce, HexToAddress(p.spender), Uint64(p.deadline))))
  }

  /** Every message built fits the Solidity types it is signed under, and is rejected for no other number. */
  lemma BuiltFits(p: TransferParams)
    ensures BuildPermit2(p).Ok? ==>
      var m := BuildPermit2(p).value.1;
      m.amount < TWO_160 && m.nonce < TWO_48 && m.expiration < TWO_48 && m.expiration == p.deadline == m.sigDeadline
    ensures BuildPermit2(p) == Err(AmountTooWide) <==>
      DecimalToBigInt(p.amount).Ok? && DecimalToBigInt(p.amount).value >= TWO_160
    ensures p.deadline < 0 ==> BuildPermit2(p).Err?
  {
    TypeWidths();
    BitLenBounds(Uint64(p.deadline), 48);
    BitLenBounds(p.nonce, 48);
    match DecimalToBigInt(p.amount)
    case Err(_) =>
    case Ok(amount) => BitLenBounds(amount, 160);
  }

  /** A message is built exactly when its three numbers fit their types and its three addresses look like addresses. */
  lemma BuiltExactly(p: TransferParams)
    ensures BuildPermit2(p).Ok? <==>
      && DecimalToBigInt(p.amount).Ok? && DecimalToBigInt(p.amount).value < TWO_160
      && p.nonce < TWO_48 && 0 <= p.deadline < TWO_48
      && LooksLikeAddress(p.token) && LooksLikeAddress(p.spender) && LooksLikeAddress(p.permit2Addr)
  {
    TypeWidths();
    BitLenBounds(Uint64(p.deadline), 48);
    BitLenBounds(p.nonce, 48);
    match DecimalToBigInt(p.amount)
    case Err(_) =>
    case Ok(amount) => BitLenBounds(amount, 160);
  }

  /** The message built carries the parameters in their places. */
  lemma BuiltFields(p: TransferParams)
    requires BuildPermit2(p).Ok?
    ensures IsHexAddress(p.token) && IsHexAddress(p.spender) && ParseInt(TrimSpace(p.amount)).Some?
    ensures var m := BuildPermit2(p).value.1;
      && m.token == HexToAddress(p.token) && m.spender == HexToAddress(p.spender)
      && Some(m.amount) == ParseInt(TrimSpace(p.amount))
      && m.expiration == m.sigDeadline == Uint64(p.deadline) && m.nonce == p.nonce
  {
    LooksIsHex(p.token);
    LooksIsHex(p.spender);
  }
}
