/** Calldata of the two Permit2 calls the agent account sends. */
module Permit2 {
  import opened Abi
  import opened Bytes
  import opened Text
  import opened Wrappers

  /** The signed `PermitSingle`, with its `PermitDetails` laid flat. */
  datatype PermitMessage = PermitMessage(
    token: Address,
    amount: nat,
    expiration: nat,
    nonce: nat,
    spender: Address,
    sigDeadline: nat)

  datatype PermitArgs = PermitArgs(
    owner: string,
    token: string,
    spender: string,
    amount: int,
    expiration: nat,
    nonce: nat,
    sigDeadline: int,
    signature: seq<byte>)

  datatype TransferArgs = TransferArgs(from: string, to: string, amount: int, token: string)

  datatype CallError = BadOwner | BadToken | BadSpender | BadAmount | BadDeadline | BadSignature | BadFrom | BadTo

  const PERMIT_SELECTOR: seq<byte> := [0x2b, 0x67, 0xb5, 0x70]
  const TRANSFER_SELECTOR: seq<byte> := [0x36, 0xc7, 0x85, 0x16]

  const FOUR_WORDS := TCons(TWord, TCons(TWord, TCons(TWord, TCons(TWord, TNil))))
  const TWO_WORDS := TCons(TWord, TCons(TWord, TNil))
  const SINGLE_TYPES := TCons(TTuple(FOUR_WORDS), TWO_WORDS)
  const PERMIT_TYPES := TCons(TWord, TCons(TTuple(SINGLE_TYPES), TCons(TBytes, TNil)))

  function Words4(a: nat, b: nat, c: nat, d: nat): Vals {
    VCons(Word(a), VCons(Word(b), VCons(Word(c), VCons(Word(d), VNil))))
  }

  function DetailsValues(m: PermitMessage): Vals {
    Words4(m.token, m.amount, m.expiration, m.nonce)
  }

  function SingleValues(m: PermitMessage): Vals {
    VCons(Tuple(DetailsValues(m)), VCons(Word(m.spender), VCons(Word(m.sigDeadline), VNil)))
  }

  function PermitValues(owner: Address, m: PermitMessage, signature: seq<byte>): Vals {
    VCons(Word(owner), VCons(Tuple(SingleValues(m)), VCons(Blob(signature), VNil)))
  }

  function TransferValues(from: Address, to: Address, amount: nat, token: Address): Vals {
    Words4(from, to, amount, token)
  }

  /** What packing keeps of a number: its residue as a 256-bit word. */
  function Packed(n: int): nat {
    n % TWO_256
  }

  predicate WordSized(m: PermitMessage) {
    m.amount < TWO_256 && m.expiration < TWO_256 && m.nonce < TWO_256 && m.sigDeadline < TWO_256
  }

  lemma Words4Fit(a: nat, b: nat, c: nat, d: nat)
    requires a < TWO_256 && b < TWO_256 && c < TWO_256 && d < TWO_256
    ensures FitAll(FOUR_WORDS, Words4(a, b, c, d))
    ensures !AnyDynamic(FOUR_WORDS) && HeadSizes(FOUR_WORDS) == 128
  {
    FitWord(d, TNil, VNil);
    FitWord(c, FOUR_WORDS.tail.tail.tail, VCons(Word(d), VNil));
    FitWord(b, FOUR_WORDS.tail.tail, VCons(Word(c), VCons(Word(d), VNil)));
    FitWord(a, FOUR_WORDS.tail, VCons(Word(b), VCons(Word(c), VCons(Word(d), VNil))));
  }

  lemma PermitFits(owner: Address, m: PermitMessage, signature: seq<byte>)
    requires WordSized(m)
    ensures FitAll(PERMIT_TYPES, PermitValues(owner, m, signature))
    ensures !AnyDynamic(SINGLE_TYPES) && HeadSizes(SINGLE_TYPES) == 192
  {
    Words4Fit(m.token, m.amount, m.expiration, m.nonce);
    FitWord(m.sigDeadline, TNil, VNil);
    FitWord(m.spender, TCons(TWord, TNil), VCons(Word(m.sigDeadline), VNil));
    assert Fits(TTuple(FOUR_WORDS), Tuple(DetailsValues(m)));
    assert FitAll(SINGLE_TYPES, SingleValues(m));
    FitBlob(signature, TNil, VNil);
  }

  function ArgsMessage(a: PermitArgs): (m: PermitMessage)
    requires IsHexAddress(a.token) && IsHexAddress(a.spender)
    ensures WordSized(m)
  {
    PermitMessage(HexToAddress(a.token), Packed(a.amount), Packed(a.expiration), Packed(a.nonce),
                  HexToAddress(a.spender), Packed(a.sigDeadline))
  }

  function EncodePermitCall(a: PermitArgs): Result<seq<byte>, CallError> {
    if !IsHexAddress(a.owner) then Err(BadOwner)
    else if !IsHexAddress(a.token) then Err(BadToken)
    else if !IsHexAddress(a.spender) then Err(BadSpender)
    else if a.amount <= 0 then Err(BadAmount)
    else if a.sigDeadline <= 0 then Err(BadDeadline)
    else if |a.signature| != 65 then Err(BadSignature)
    else
      PermitFits(HexToAddress(a.owner), ArgsMessage(a), a.signature);
      Ok(PERMIT_SELECTOR + EncAll(PERMIT_TYPES, PermitValues(HexToAddress(a.owner), ArgsMessage(a), a.signature)))
  }

  function EncodeTransferFromCall(a: TransferArgs): Result<seq<byte>, CallError> {
    if !IsHexAddress(a.from) then Err(BadFrom)
    else if !IsHexAddress(a.to) then Err(BadTo)
    else if !IsHexAddress(a.token) then Err(BadToken)
    else if a.amount <= 0 then Err(BadAmount)
    else
      Words4Fit(HexToAddress(a.from), HexToAddress(a.to), Packed(a.amount), HexToAddress(a.token));
      Ok(TRANSFER_SELECTOR + EncAll(FOUR_WORDS,
                                    TransferValues(HexToAddress(a.from), HexToAddress(a.to), Packed(a.amount), HexToAddress(a.token))))
  }

  // ---- what the contract reads ----

  function PermitMembers(vs: Vals): Option<(nat, PermitMessage, seq<byte>)> {
    match vs
    case VCons(Word(owner),
      VCons(Tuple(VCons(Tuple(VCons(Word(token), VCons(Word(amount), VCons(Word(expiration), VCons(Word(nonce), VNil))))),
                        VCons(Word(spender), VCons(Word(deadline), VNil)))),
            VCons(Blob(signature), VNil))) =>
      if token < TWO_160 && spender < TWO_160 then
        Some((owner, PermitMessage(token, amount, expiration, nonce, spender, deadline), signature))
      else None
    case _ => None
  }

  function DecodePermitCall(data: seq<byte>): Option<(nat, PermitMessage, seq<byte>)> {
    if |data| < 4 || data[..4] != PERMIT_SELECTOR then None
    else
      match DecAll(PERMIT_TYPES, data[4..], 0, 0)
      case Some(vs) => PermitMembers(vs)
      case None => None
  }

  function DecodeTransferCall(data: seq<byte>): Option<(nat, nat, nat, nat)> {
    if |data| < 4 || data[..4] != TRANSFER_SELECTOR then None
    else
      match DecAll(FOUR_WORDS, data[4..], 0, 0)
      case Some(VCons(Word(from), VCons(Word(to), VCons(Word(amount), VCons(Word(token), VNil))))) =>
        Some((from, to, amount, token))
      case _ => None
  }

  lemma PermitSize(owner: Address, m: PermitMessage, signature: seq<byte>)
    requires WordSized(m) && |signature| == 65
    ensures FitAll(PERMIT_TYPES, PermitValues(owner, m, signature))
    ensures |EncAll(PERMIT_TYPES, PermitValues(owner, m, signature))| == 384
  {
    PermitFits(owner, m, signature);
    var vs := PermitValues(owner, m, signature);
    assert HeadSizes(PERMIT_TYPES) == 256;
    HeadLength(PERMIT_TYPES, vs, 256);
    assert |Enc(TBytes, Blob(signature))| == 128;
    var last := VCons(Blob(signature), VNil);
    assert Tails(TCons(TBytes, TNil), last) == Enc(TBytes, Blob(signature)) + [];
    assert Tails(PERMIT_TYPES, vs) == [] + ([] + Tails(TCons(TBytes, TNil), last));
  }

  /** Calldata behind a selector decodes to the arguments packed. */
  lemma ReadBack(selector: seq<byte>, ts: Tys, vs: Vals)
    requires |selector| == 4 && FitAll(ts, vs) && |EncAll(ts, vs)| < TWO_256
    ensures var data := selector + EncAll(ts, vs);
      data[..4] == selector && DecAll(ts, data[4..], 0, 0) == Some(vs)
  {
    var body := EncAll(ts, vs);
    assert (selector + body)[4..] == body;
    RoundTripAll(ts, vs, body, 0);
  }

  lemma PermitReadsBack(owner: Address, m: PermitMessage, signature: seq<byte>)
    requires WordSized(m) && |signature| == 65 && m.token < TWO_160 && m.spender < TWO_160
    ensures FitAll(PERMIT_TYPES, PermitValues(owner, m, signature))
    ensures var data := PERMIT_SELECTOR + EncAll(PERMIT_TYPES, PermitValues(owner, m, signature));
      |data| == 388 && DecodePermitCall(data) == Some((owner, m, signature))
  {
    var vs := PermitValues(owner, m, signature);
    PermitSize(owner, m, signature);
    ReadBack(PERMIT_SELECTOR, PERMIT_TYPES, vs);
    assert PermitMembers(vs) == Some((owner, m, signature));
  }

  /** Accepted permit calldata is exactly 388 bytes, and reads back as the owner, the message and the signature given. */
  lemma PermitCallRoundTrip(a: PermitArgs)
    requires EncodePermitCall(a).Ok?
    ensures |EncodePermitCall(a).value| == 388
    ensures IsHexAddress(a.owner) && IsHexAddress(a.token) && IsHexAddress(a.spender)
    ensures DecodePermitCall(EncodePermitCall(a).value) == Some((HexToAddress(a.owner), ArgsMessage(a), a.signature))
  {
    PermitReadsBack(HexToAddress(a.owner), ArgsMessage(a), a.signature);
  }

  /** Numbers that fit their Solidity types are carried unchanged; a larger one is silently cut to 256 bits. */
  lemma PackedExactly(n: int)
    ensures Packed(n) == n <==> 0 <= n < TWO_256
  {
  }

  lemma TransferCallRoundTrip(a: TransferArgs)
    requires EncodeTransferFromCall(a).Ok?
    ensures |EncodeTransferFromCall(a).value| == 132
    ensures IsHexAddress(a.from) && IsHexAddress(a.to) && IsHexAddress(a.token)
    ensures DecodeTransferCall(EncodeTransferFromCall(a).value) ==
            Some((HexToAddress(a.from), HexToAddress(a.to), Packed(a.amount), HexToAddress(a.token)))
  {
    var vs := TransferValues(HexToAddress(a.from), HexToAddress(a.to), Packed(a.amount), HexToAddress(a.token));
    Words4Fit(HexToAddress(a.from), HexToAddress(a.to), Packed(a.amount), HexToAddress(a.token));
    HeadLength(FOUR_WORDS, vs, 128);
    NoTails(FOUR_WORDS, vs);
    ReadBack(TRANSFER_SELECTOR, FOUR_WORDS, vs);
  }
}
