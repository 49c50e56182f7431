/** The ERC-1271 signature a Coinbase Smart Wallet accepts for a passkey owner: a WebAuthn assertion, packed twice. */
module Passkey {
  import opened Abi
  import opened Bytes
  import opened P256
  import opened Permit2
  import opened WebAuthn
  import opened Wrappers

  /** `rs` is what parsing the DER signature yields, if it parses. */
  datatype Assertion = Assertion(authenticatorData: seq<byte>, clientData: seq<byte>, rs: Option<(int, int)>)

  datatype PasskeyError = BadDer | BadNumbers | Offsets(error: IndexError)

  datatype Auth = Auth(authenticatorData: seq<byte>, clientData: seq<byte>, challengeIndex: nat, typeIndex: nat, r: nat, s: nat)

  const AUTH_PARTS := TCons(TBytes, TCons(TBytes, FOUR_WORDS))
  const AUTH_TYPES := TCons(TTuple(AUTH_PARTS), TNil)
  const WRAPPER_TYPES := TCons(TTuple(TCons(TWord, TCons(TBytes, TNil))), TNil)

  function AuthValues(a: Auth): Vals {
    VCons(Tuple(VCons(Blob(a.authenticatorData), VCons(Blob(a.clientData), Words4(a.challengeIndex, a.typeIndex, a.r, a.s)))), VNil)
  }

  function WrapperValues(owner: nat, data: seq<byte>): Vals {
    VCons(Tuple(VCons(Word(owner), VCons(Blob(data), VNil))), VNil)
  }

  predicate WordSized(a: Auth) {
    a.challengeIndex < TWO_256 && a.typeIndex < TWO_256 && a.r < TWO_256 && a.s < TWO_256
  }

  lemma AuthFits(a: Auth)
    requires WordSized(a)
    ensures FitAll(AUTH_TYPES, AuthValues(a))
  {
    Words4Fit(a.challengeIndex, a.typeIndex, a.r, a.s);
    var words := Words4(a.challengeIndex, a.typeIndex, a.r, a.s);
    FitBlob(a.clientData, FOUR_WORDS, words);
    FitBlob(a.authenticatorData, AUTH_PARTS.tail, VCons(Blob(a.clientData), words));
  }

  lemma WrapperFits(owner: nat, data: seq<byte>)
    requires owner < TWO_256
    ensures FitAll(WRAPPER_TYPES, WrapperValues(owner, data))
  {
    FitBlob(data, TNil, VNil);
    FitWord(owner, TCons(TBytes, TNil), VCons(Blob(data), VNil));
  }

  /** Numbers are packed modulo 2^256. */
  function EncodeWebAuthnAuth(authenticatorData: seq<byte>, clientData: seq<byte>, challengeIndex: int, typeIndex: int,
                              r: int, s: int): seq<byte> {
    var a := Auth(authenticatorData, clientData, Packed(challengeIndex), Packed(typeIndex), Packed(r), Packed(s));
    AuthFits(a);
    EncAll(AUTH_TYPES, AuthValues(a))
  }

  function EncodeSignatureWrapper(ownerIndex: nat, data: seq<byte>): seq<byte>
    requires ownerIndex < TWO_64
  {
    WrapperFits(ownerIndex, data);
    EncAll(WRAPPER_TYPES, WrapperValues(ownerIndex, data))
  }

  function DecodeDer(a: Assertion): Result<(int, int), PasskeyError> {
    match a.rs
    case None => Err(BadDer)
    case Some((r, s)) => if r <= 0 || s <= 0 then Err(BadNumbers) else Ok((r, s))
  }

  function BuildPasskeySignature(a: Assertion, ownerIndex: nat): Result<seq<byte>, PasskeyError>
    requires ownerIndex < TWO_64
  {
    match DecodeDer(a)
    case Err(e) => Err(e)
    case Ok((r, s)) =>
      match ClientDataIndices(a.clientData)
      case Err(e) => Err(Offsets(e))
      case Ok((challenge, ty)) =>
        var inner := EncodeWebAuthnAuth(a.authenticatorData, a.clientData, challenge, ty, r, NormalizeLowS(s));
        Ok(EncodeSignatureWrapper(ownerIndex, inner))
  }

  // ---- what the wallet contract reads ----

  function DecodeAuth(data: seq<byte>): Option<Auth> {
    match DecAll(AUTH_TYPES, data, 0, 0)
    case Some(VCons(Tuple(VCons(Blob(auth), VCons(Blob(client),
      VCons(Word(challenge), VCons(Word(ty), VCons(Word(r), VCons(Word(s), VNil))))))), VNil)) =>
      Some(Auth(auth, client, challenge, ty, r, s))
    case _ => None
  }

  function DecodeWrapper(data: seq<byte>): Option<(nat, seq<byte>)> {
    match DecAll(WRAPPER_TYPES, data, 0, 0)
    case Some(VCons(Tuple(VCons(Word(owner), VCons(Blob(inner), VNil))), VNil)) => Some((owner, inner))
    case _ => None
  }

  /** No buffer has 2^256 bytes; a shorter encoding gives its inputs back, numbers as 256-bit words. */
  lemma AuthRoundTrip(auth: seq<byte>, client: seq<byte>, challengeIndex: int, typeIndex: int, r: int, s: int)
    requires |EncodeWebAuthnAuth(auth, client, challengeIndex, typeIndex, r, s)| < TWO_256
    ensures DecodeAuth(EncodeWebAuthnAuth(auth, client, challengeIndex, typeIndex, r, s)) ==
            Some(Auth(auth, client, Packed(challengeIndex), Packed(typeIndex), Packed(r), Packed(s)))
  {
    var a := Auth(auth, client, Packed(challengeIndex), Packed(typeIndex), Packed(r), Packed(s));
    AuthFits(a);
    RoundTripAll(AUTH_TYPES, AuthValues(a), EncodeWebAuthnAuth(auth, client, challengeIndex, typeIndex, r, s), 0);
  }

  lemma WrapperRoundTrip(ownerIndex: nat, data: seq<byte>)
    requires ownerIndex < TWO_64 && |EncodeSignatureWrapper(ownerIndex, data)| < TWO_256
    ensures DecodeWrapper(EncodeSignatureWrapper(ownerIndex, data)) == Some((ownerIndex, data))
  {
    WrapperFits(ownerIndex, data);
    RoundTripAll(WRAPPER_TYPES, WrapperValues(ownerIndex, data), EncodeSignatureWrapper(ownerIndex, data), 0);
  }

  /** A wrapper is longer than what it wraps. */
  lemma WrapperIsLonger(ownerIndex: nat, data: seq<byte>)
    requires ownerIndex < TWO_64
    ensures |EncodeSignatureWrapper(ownerIndex, data)| == 128 + |data| + Pad(|data|)
  {
    WrapperFits(ownerIndex, data);
    var parts, vs := WRAPPER_TYPES.head.parts, WrapperValues(ownerIndex, data).head.parts;
    FitBlob(data, TNil, VNil);
    assert HeadSizes(parts) == 64;
    HeadLength(parts, vs, 64);
    assert Tails(TCons(TBytes, TNil), VCons(Blob(data), VNil)) == Enc(TBytes, Blob(data)) + [];
    assert |EncAll(parts, vs)| == 96 + |data| + Pad(|data|);
    HeadLength(WRAPPER_TYPES, WrapperValues(ownerIndex, data), 32);
    assert Tails(WRAPPER_TYPES, WrapperValues(ownerIndex, data)) == Enc(WRAPPER_TYPES.head, Tuple(vs)) + [];
  }

  /** The wallet reads back, through both layers, the owner index, the assertion, the offsets, r and the low s. */
  lemma PasskeySignatureReadsBack(a: Assertion, ownerIndex: nat)
    requires ownerIndex < TWO_64 && BuildPasskeySignature(a, ownerIndex).Ok?
    requires |BuildPasskeySignature(a, ownerIndex).value| < TWO_256
    ensures a.rs.Some? && ClientDataIndices(a.clientData).Ok?
    ensures var (r, s) := a.rs.value; var (challenge, ty) := ClientDataIndices(a.clientData).value;
      var wrapper := DecodeWrapper(BuildPasskeySignature(a, ownerIndex).value);
      && wrapper.Some? && wrapper.value.0 == ownerIndex
      && DecodeAuth(wrapper.value.1) ==
         Some(Auth(a.authenticatorData, a.clientData, Packed(challenge), Packed(ty), Packed(r), Packed(NormalizeLowS(s))))
  {
    var (r, s) := a.rs.value;
    var (challenge, ty) := ClientDataIndices(a.clientData).value;
    var inner := EncodeWebAuthnAuth(a.authenticatorData, a.clientData, challenge, ty, r, NormalizeLowS(s));
    WrapperIsLonger(ownerIndex, inner);
    WrapperRoundTrip(ownerIndex, inner);
    AuthRoundTrip(a.authenticatorData, a.clientData, challenge, ty, r, NormalizeLowS(s));
  }

  /** Signatures built are equal only for the same owner, the same assertion and, as words, the same r and low s. */
  lemma SignaturesAreDistinct(a: Assertion, i: nat, b: Assertion, j: nat)
    requires i < TWO_64 && j < TWO_64 && BuildPasskeySignature(a, i).Ok?
    requires BuildPasskeySignature(a, i) == BuildPasskeySignature(b, j) && |BuildPasskeySignature(a, i).value| < TWO_256
    ensures i == j && a.authenticatorData == b.authenticatorData && a.clientData == b.clientData
    ensures a.rs.Some? && b.rs.Some? && Packed(a.rs.value.0) == Packed(b.rs.value.0)
    ensures Packed(NormalizeLowS(a.rs.value.1)) == Packed(NormalizeLowS(b.rs.value.1))
  {
    PasskeySignatureReadsBack(a, i);
    PasskeySignatureReadsBack(b, j);
  }

  // ---- what packing makes of s ----

  lemma WordsStay(n: int)
    requires 0 <= n < TWO_256
    ensures Packed(n) == n
  {
  }

  /** A word whose low form is negative is read as a number above the group order. */
  lemma OversizedWord(s: int)
    requires N < s < TWO_256
    ensures Packed(NormalizeLowS(s)) == TWO_256 + N - s > N
  {
    var r := TWO_256 + N - s;
    assert NormalizeLowS(s) == N - s && r == N - s + TWO_256;
    assert (N - s) % TWO_256 == r;
  }

  /**
   Which s reach the wallet as a usable low number: those of the group, and beyond it those that lie less than half the
   order above the order modulo 2^256, counting down. The smallest of these has 257 bits.
   */
  lemma UsableAfterPacking(s: int)
    requires s > 0
    ensures 0 < Packed(NormalizeLowS(s)) <= HALF_N <==> s < N || 0 < (N - s) % TWO_256 <= HALF_N
    ensures 0 < s < TWO_256 ==> (0 < Packed(NormalizeLowS(s)) <= HALF_N <==> s < N)
  {
    LowFormIsUsable(s);
    if s <= N {
      WordsStay(NormalizeLowS(s));
    } else if s < TWO_256 {
      OversizedWord(s);
    }
  }

  /** For words, the wallet accepts what it reads exactly when the signature verifies as it was given. */
  lemma PackedVerifiesAsGiven<P(!new)>(c: Curve<P>, x: int, y: int, digest: seq<byte>, r: int, s: int)
    requires Lawful(c) && 0 < r < TWO_256 && 0 < s < TWO_256
    ensures VerifyP256(c, x, y, digest, Packed(r), Packed(NormalizeLowS(s))) <==> VerifyP256(c, x, y, digest, r, s)
  {
    WordsStay(r);
    LowSKeepsValidity(c, x, y, digest, r, s);
    if s <= N {
      WordsStay(NormalizeLowS(s));
    } else {
      OversizedWord(s);
    }
  }

  /**
   End to end, for client data as browsers serialize it and numbers of a signature that fit 256 bits: the wallet accepts
   what it reads exactly when the assertion verifies as signed, it reads a low, positive s exactly when the signed one is of
   the group, and the offset it reads leads to the challenge that was signed.
   */
  lemma PackedAssertionStandsForSigned<P(!new)>(c: Curve<P>, x: int, y: int, digest: seq<byte>, a: Assertion, ownerIndex: nat,
                                                challenge: seq<byte>, rest: seq<byte>)
    requires Lawful(c)
    requires a.rs.Some? && 0 < a.rs.value.0 < TWO_256 && 0 < a.rs.value.1 < TWO_256
    requires a.clientData == Serialized(challenge, rest) && forall i :: 0 <= i < |challenge| ==> IsBase64Url(challenge[i])
    requires ownerIndex < TWO_64 && (BuildPasskeySignature(a, ownerIndex).Ok? ==> |BuildPasskeySignature(a, ownerIndex).value| < TWO_256)
    ensures BuildPasskeySignature(a, ownerIndex).Ok?
    ensures var wrapper := DecodeWrapper(BuildPasskeySignature(a, ownerIndex).value);
      && wrapper.Some? && DecodeAuth(wrapper.value.1).Some?
      && var read := DecodeAuth(wrapper.value.1).value;
        && (0 < read.s <= HALF_N <==> a.rs.value.1 < N)
        && (VerifyP256(c, x, y, digest, read.r, read.s) <==> VerifyP256(c, x, y, digest, a.rs.value.0, a.rs.value.1))
        && read.challengeIndex + |CHALLENGE_KEY| <= |read.clientData|
        && ChallengeAt(read.clientData, read.challengeIndex) == challenge
  {
    OffsetsFindTheChallenge(challenge, rest);
    PasskeySignatureReadsBack(a, ownerIndex);
    var (r, s) := a.rs.value;
    UsableAfterPacking(s);
    PackedVerifiesAsGiven(c, x, y, digest, r, s);
  }

  lemma WidePacksLow(r: int, k: int)
    requires 0 < r < TWO_256 && 0 < k <= HALF_N
    ensures Packed(NormalizeLowS(TWO_256 + N - k)) == k && Packed(NormalizeLowS(k)) == k
    ensures Packed(r) == r && Packed(r + TWO_256) == r
  {
    assert NormalizeLowS(TWO_256 + N - k) == k - TWO_256;
    assert (k - TWO_256) % TWO_256 == k;
    assert (r + TWO_256) % TWO_256 == r;
  }

  lemma LargeVerifiesNot<P>(c: Curve<P>, x: int, y: int, digest: seq<byte>, r: int, s: int)
    requires r >= N || s >= N
    ensures !VerifyP256(c, x, y, digest, r, s)
  {
  }

  /** Two spellings of `(r, k)` in numbers wider than a word: its s counted down from 2^256 + N, or its r from 2^256 up. */
  predicate IsWide(r: int, k: int, rs: (int, int)) {
    rs == (r, TWO_256 + N - k) || rs == (r + TWO_256, k)
  }

  lemma WideIsRead(a: Assertion, ownerIndex: nat, r: int, k: int)
    requires 0 < r < TWO_256 && 0 < k <= HALF_N && a.rs.Some? && IsWide(r, k, a.rs.value)
    requires ClientDataIndices(a.clientData).Ok?
    requires ownerIndex < TWO_64 && (BuildPasskeySignature(a, ownerIndex).Ok? ==> |BuildPasskeySignature(a, ownerIndex).value| < TWO_256)
    ensures BuildPasskeySignature(a, ownerIndex).Ok?
    ensures var wrapper := DecodeWrapper(BuildPasskeySignature(a, ownerIndex).value);
      && wrapper.Some? && DecodeAuth(wrapper.value.1).Some?
      && DecodeAuth(wrapper.value.1).value.r == r && DecodeAuth(wrapper.value.1).value.s == k
  {
    WidePacksLow(r, k);
    PasskeySignatureReadsBack(a, ownerIndex);
  }

  /**
   The bound to 256 bits is needed: nothing limits the width of a parsed number. For every r and every low k, an assertion
   with either wide spelling is packed and read as `(r, k)`, the very numbers of a narrow signature, though it never verifies
   as given.
   */
  lemma WideFormsAreAccepted<P(!new)>(c: Curve<P>, x: int, y: int, digest: seq<byte>, a: Assertion, ownerIndex: nat, r: int, k: int)
    requires 0 < r < TWO_256 && 0 < k <= HALF_N && a.rs.Some? && IsWide(r, k, a.rs.value)
    requires ClientDataIndices(a.clientData).Ok?
    requires ownerIndex < TWO_64 && (BuildPasskeySignature(a, ownerIndex).Ok? ==> |BuildPasskeySignature(a, ownerIndex).value| < TWO_256)
    ensures BuildPasskeySignature(a, ownerIndex).Ok?
    ensures var wrapper := DecodeWrapper(BuildPasskeySignature(a, ownerIndex).value);
      && wrapper.Some? && DecodeAuth(wrapper.value.1).Some?
      && DecodeAuth(wrapper.value.1).value.r == r && DecodeAuth(wrapper.value.1).value.s == k
    ensures !VerifyP256(c, x, y, digest, a.rs.value.0, a.rs.value.1)
  {
    WideIsRead(a, ownerIndex, r, k);
    LargeVerifiesNot(c, x, y, digest, a.rs.value.0, a.rs.value.1);
  }

  // ---- the digest signed ----

  function SignedMessage(sha: seq<byte> -> seq<byte>, a: Assertion): seq<byte> {
    a.authenticatorData + sha(a.clientData)
  }

  function SignedDigest(sha: seq<byte> -> seq<byte>, a: Assertion): seq<byte> {
    sha(SignedMessage(sha, a))
  }

  predicate Collides(sha: seq<byte> -> seq<byte>, m: seq<byte>, n: seq<byte>) {
    m != n && sha(m) == sha(n)
  }

  /** One digest stands for one authenticator data and one client data, unless the hash function collides on them. */
  lemma DigestBindsBoth(sha: seq<byte> -> seq<byte>, a: Assertion, b: Assertion)
    requires forall m :: |sha(m)| == 32
    requires SignedDigest(sha, a) == SignedDigest(sha, b)
    ensures || (a.authenticatorData == b.authenticatorData && a.clientData == b.clientData)
            || Collides(sha, a.clientData, b.clientData)
            || Collides(sha, SignedMessage(sha, a), SignedMessage(sha, b))
  {
    var m, n := SignedMessage(sha, a), SignedMessage(sha, b);
    if m == n {
      var k := |a.authenticatorData|;
      assert |m| == k + 32 && |n| == |b.authenticatorData| + 32;
      assert a.authenticatorData == m[..k] == n[..k] == b.authenticatorData;
      assert sha(a.clientData) == m[k..] == n[k..] == sha(b.clientData);
    }
  }
}
