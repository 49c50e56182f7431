/** Owners of a Coinbase Smart Wallet, and the factory calls that deploy or predict it. */
module SmartAccount {
  import opened Abi
  import opened Bytes
  import opened P256
  import opened Text
  import opened Wrappers

  // ---- owners ----

  lemma {:induction false} LeadingZeros(n: nat, width: nat, more: nat)
    requires n < Pow(256, width)
    ensures ToBE(n, more + width) == Zeros(more) + ToBE(n, width)
  {
    if width == 0 {
      AllZeros(more);
    } else {
      LeadingZeros(n / 256, width - 1, more);
      assert Zeros(more) + (ToBE(n / 256, width - 1) + [n % 256]) == Zeros(more) + ToBE(n / 256, width - 1) + [n % 256];
    }
  }

  lemma {:induction false} AllZeros(k: nat)
    ensures ToBE(0, k) == Zeros(k)
  {
    if k == 0 {
    } else {
      AllZeros(k - 1);
    }
  }

  lemma AddressWidth()
    ensures Pow(256, 20) == TWO_160
  {
    assert Pow(256, 5) == 0x100_0000_0000;
    PowSum(256, 5, 5);
    PowSum(256, 10, 10);
  }

  /** Copies `src` into `dst` from `start` on. */
  method CopyInto(dst: array<byte>, start: nat, src: seq<byte>)
    requires start + |src| <= dst.Length
    modifies dst
    ensures dst[..] == old(dst[..start]) + src + old(dst[start + |src|..])
  {
    for i := 0 to |src|
      invariant dst[..start] == old(dst[..start]) && dst[start + |src|..] == old(dst[start + |src|..])
      invariant forall j :: 0 <= j < i ==> dst[start + j] == src[j]
    {
      dst[start + i] := src[i];
    }
    assert dst[start..start + |src|] == src;
    assert dst[..] == dst[..start] + dst[start..start + |src|] + dst[start + |src|..];
  }

  /** The owner bytes of an account are its ABI encoding. */
  method EOAOwnerBytes(addr: Address) returns (out: array<byte>)
    ensures fresh(out) && out[..] == Enc(TWord, Word(addr))
  {
    out := new byte[32](_ => 0);
    CopyInto(out, 12, ToBE(addr, 20));
    AddressWidth();
    LeadingZeros(addr, 20, 12);
    assert out[..] == Zeros(12) + ToBE(addr, 20);
  }

  const POINT_TYPES := TCons(TWord, TCons(TWord, TNil))

  function PointValues(x: nat, y: nat): Vals {
    VCons(Word(x), VCons(Word(y), VNil))
  }

  lemma LastWord(y: nat, offset: nat)
    requires y < TWO_256
    ensures FitAll(TCons(TWord, TNil), VCons(Word(y), VNil))
    ensures Heads(TCons(TWord, TNil), VCons(Word(y), VNil), offset) == ToBE(y, 32)
  {
    FitWord(y, TNil, VNil);
    assert Heads(TNil, VNil, offset) == [];
  }

  lemma PointEncoding(x: nat, y: nat)
    requires x < TWO_256 && y < TWO_256
    ensures FitAll(POINT_TYPES, PointValues(x, y)) && EncAll(POINT_TYPES, PointValues(x, y)) == KeyBytes(x, y)
  {
    FitWord(y, TNil, VNil);
    FitWord(x, TCons(TWord, TNil), VCons(Word(y), VNil));
    NoTails(POINT_TYPES, PointValues(x, y));
    LastWord(y, 64);
    assert HeadSizes(POINT_TYPES) == 64;
    assert Heads(POINT_TYPES, PointValues(x, y), 64) == Enc(TWord, Word(x)) + Heads(TCons(TWord, TNil), VCons(Word(y), VNil), 64);
  }

  function Abs(n: int): nat {
    if n < 0 then -n else n
  }

  /**
   The owner bytes of a passkey are the ABI encoding of its two coordinates, whose signs are ignored. A wider number
   does not fit 32 bytes, and Go's `FillBytes` panics; no result stands for that.
   */
  method PasskeyOwnerBytes(x: int, y: int) returns (out: array?<byte>)
    ensures out == null <==> Abs(x) >= TWO_256 || Abs(y) >= TWO_256
    ensures out != null ==>
      && fresh(out) && FitAll(POINT_TYPES, PointValues(Abs(x), Abs(y)))
      && out[..] == EncAll(POINT_TYPES, PointValues(Abs(x), Abs(y)))
  {
    if Abs(x) >= TWO_256 || Abs(y) >= TWO_256 {
      return null;
    }
    var buf := new byte[64](_ => 0);
    CopyInto(buf, 0, ToBE(Abs(x), 32));
    CopyInto(buf, 32, ToBE(Abs(y), 32));
    PointEncoding(Abs(x), Abs(y));
    assert buf[..] == KeyBytes(Abs(x), Abs(y));
    out := buf;
  }

  /** A passkey's owner bytes are the bare spelling of its public key: parsing them gives the same point. */
  lemma OwnerBytesAreTheKey<P>(c: Curve<P>, x: nat, y: nat)
    requires x < TWO_256 && y < TWO_256
    ensures FitAll(POINT_TYPES, PointValues(x, y))
    ensures ParsePublicKey(c, EncAll(POINT_TYPES, PointValues(x, y))) == Ok((x, y)) <==> c.point(x, y).Some?
  {
    PointEncoding(x, y);
    ParsesBothSpellings(c, KeyBytes(x, y), x, y);
  }

  /** Owners are told apart by their bytes: two accounts, two passkeys, or an account and a passkey. */
  lemma OwnersAreDistinct(a: Address, b: Address, x: nat, y: nat, u: nat, v: nat)
    requires x < TWO_256 && y < TWO_256 && u < TWO_256 && v < TWO_256
    ensures Enc(TWord, Word(a)) == Enc(TWord, Word(b)) ==> a == b
    ensures KeyBytes(x, y) == KeyBytes(u, v) ==> x == u && y == v
    ensures Enc(TWord, Word(a)) != KeyBytes(x, y)
  {
    WordRoundTrip(a);
    WordRoundTrip(b);
    WordRoundTrip(x);
    WordRoundTrip(y);
    WordRoundTrip(u);
    WordRoundTrip(v);
    var p, q := KeyBytes(x, y), KeyBytes(u, v);
    assert p[..32] == ToBE(x, 32) && p[32..] == ToBE(y, 32) && q[..32] == ToBE(u, 32) && q[32..] == ToBE(v, 32);
  }

  // ---- factory calls ----

  const CREATE_ACCOUNT: seq<byte> := [0x3f, 0xfb, 0xa3, 0x6f]
  const GET_ADDRESS: seq<byte> := [0x25, 0x0b, 0x1b, 0x41]
  const FACTORY_TYPES := TCons(TArray(TBytes), TCons(TWord, TNil))

  function Blobs(owners: seq<seq<byte>>): (vs: Vals)
    ensures Count(vs) == |owners|
  {
    if owners == [] then VNil else VCons(Blob(owners[0]), Blobs(owners[1..]))
  }

  function Unblob(vs: Vals): Option<seq<seq<byte>>> {
    match vs
    case VNil => Some([])
    case VCons(Blob(data), tail) =>
      (match Unblob(tail)
       case Some(rest) => Some([data] + rest)
       case None => None)
    case _ => None
  }

  lemma {:induction false} BlobsFit(owners: seq<seq<byte>>)
    ensures FitAll(Repeat(TBytes, |owners|), Blobs(owners))
    ensures Unblob(Blobs(owners)) == Some(owners)
  {
    if owners == [] {
    } else {
      BlobsFit(owners[1..]);
      assert [owners[0]] + owners[1..] == owners;
    }
  }

  function FactoryValues(owners: seq<seq<byte>>, nonce: nat): Vals {
    VCons(Array(Blobs(owners)), VCons(Word(nonce), VNil))
  }

  lemma FactoryFits(owners: seq<seq<byte>>, nonce: nat)
    requires |owners| < TWO_256 && nonce < TWO_256
    ensures FitAll(FACTORY_TYPES, FactoryValues(owners, nonce))
  {
    BlobsFit(owners);
    FitWord(nonce, TNil, VNil);
    assert Fits(TArray(TBytes), Array(Blobs(owners)));
  }

  /** A list in memory has fewer than 2^63 members. */
  predicate Callable(owners: seq<seq<byte>>, nonce: nat) {
    |owners| < TWO_63 && nonce < TWO_64
  }

  function FactoryCalldata(selector: seq<byte>, owners: seq<seq<byte>>, nonce: nat): seq<byte>
    requires Callable(owners, nonce)
  {
    FactoryFits(owners, nonce);
    selector + EncAll(FACTORY_TYPES, FactoryValues(owners, nonce))
  }

  function CreateAccountCalldata(owners: seq<seq<byte>>, nonce: nat): seq<byte>
    requires Callable(owners, nonce)
  {
    FactoryCalldata(CREATE_ACCOUNT, owners, nonce)
  }

  function GetAddressCalldata(owners: seq<seq<byte>>, nonce: nat): seq<byte>
    requires Callable(owners, nonce)
  {
    FactoryCalldata(GET_ADDRESS, owners, nonce)
  }

  function DecodeFactoryCall(data: seq<byte>): Option<(seq<byte>, seq<seq<byte>>, nat)> {
    if |data| < 4 then None
    else
      match DecAll(FACTORY_TYPES, data[4..], 0, 0)
      case Some(VCons(Array(items), VCons(Word(nonce), VNil))) =>
        (match Unblob(items)
         case Some(owners) => Some((data[..4], owners, nonce))
         case None => None)
      case _ => None
  }

  /** Any owner list, of any length and with owners of any length, comes back with its nonce. */
  lemma FactoryCallRoundTrip(selector: seq<byte>, owners: seq<seq<byte>>, nonce: nat)
    requires |selector| == 4 && Callable(owners, nonce) && |FactoryCalldata(selector, owners, nonce)| < TWO_256
    ensures DecodeFactoryCall(FactoryCalldata(selector, owners, nonce)) == Some((selector, owners, nonce))
  {
    FactoryFits(owners, nonce);
    BlobsFit(owners);
    var data := FactoryCalldata(selector, owners, nonce);
    var body := EncAll(FACTORY_TYPES, FactoryValues(owners, nonce));
    assert data[4..] == body && data[..4] == selector;
    RoundTripAll(FACTORY_TYPES, FactoryValues(owners, nonce), body, 0);
  }

  /**
   Deployment and prediction ask about the same account exactly when owners and nonce agree: the two calls never
   coincide, each is injective, and past the selector they are equal for equal arguments only.
   */
  lemma PredictedIsDeployed(owners: seq<seq<byte>>, nonce: nat, owners1: seq<seq<byte>>, nonce1: nat)
    requires Callable(owners, nonce) && Callable(owners1, nonce1)
    requires |CreateAccountCalldata(owners, nonce)| < TWO_256 && |GetAddressCalldata(owners1, nonce1)| < TWO_256
    ensures CreateAccountCalldata(owners, nonce) != GetAddressCalldata(owners1, nonce1)
    ensures CreateAccountCalldata(owners, nonce)[4..] == GetAddressCalldata(owners1, nonce1)[4..] <==>
            owners == owners1 && nonce == nonce1
    ensures CreateAccountCalldata(owners, nonce) == CreateAccountCalldata(owners1, nonce1) <==>
            owners == owners1 && nonce == nonce1
  {
    FactoryCallRoundTrip(CREATE_ACCOUNT, owners, nonce);
    FactoryCallRoundTrip(GET_ADDRESS, owners1, nonce1);
    assert |FactoryCalldata(CREATE_ACCOUNT, owners1, nonce1)| == |FactoryCalldata(GET_ADDRESS, owners1, nonce1)|;
    FactoryCallRoundTrip(CREATE_ACCOUNT, owners1, nonce1);
    assert CREATE_ACCOUNT[0] != GET_ADDRESS[0];
  }

  // ---- the predicted address ----

  datatype LookupError = NoRpc | CallFailed | ShortAnswer

  /** `answer` is what the node returned to the call, if it returned. */
  function CounterfactualAddress(hasRpc: bool, answer: Option<seq<byte>>): Result<Address, LookupError> {
    if !hasRpc then Err(NoRpc)
    else if answer.None? then Err(CallFailed)
    else if |answer.value| < 32 then Err(ShortAnswer)
    else Ok(ReadAddress(answer.value[12..32]))
  }

  function ReadAddress(b: seq<byte>): Address
    requires |b| == 20
  {
    AddressWidth();
    FromBEBound(b);
    FromBE(b)
  }

  /** An ABI-encoded address, with anything after it, is read back. */
  lemma AnsweredAddress(a: Address, rest: seq<byte>)
    ensures CounterfactualAddress(true, Some(Enc(TWord, Word(a)) + rest)) == Ok(a)
  {
    AddressWidth();
    LeadingZeros(a, 20, 12);
    FromToBE(a, 20);
    assert (Enc(TWord, Word(a)) + rest)[12..32] == ToBE(a, 20);
  }
}
