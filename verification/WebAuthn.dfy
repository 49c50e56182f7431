/** WebAuthn assertions: where a verifier that does not parse JSON finds the type and the challenge. */
module WebAuthn {
  import opened Bytes
  import opened Wrappers

  datatype IndexError = NoChallenge | NoType

  predicate IsAscii(s: string) {
    forall i :: 0 <= i < |s| ==> s[i] as int < 128
  }

  type ascii = s: string | IsAscii(s)

  /** The bytes of an ASCII text. */
  function Ascii(s: ascii): (b: seq<byte>)
    ensures |b| == |s| && forall i :: 0 <= i < |s| ==> b[i] == s[i] as int
  {
    seq(|s|, i requires 0 <= i < |s| => s[i] as int)
  }

  const QUOTE: byte := 34
  const CHALLENGE_KEY: ascii := "\"challenge\":\""
  const TYPE_FIELD: ascii := "\"type\":\"webauthn.get\""

  predicate MatchesAt(b: seq<byte>, pat: seq<byte>, i: nat) {
    i + |pat| <= |b| && b[i..i + |pat|] == pat
  }

  lemma Differs(b: seq<byte>, pat: seq<byte>, i: nat, j: nat)
    requires j < |pat| && i + j < |b| && b[i + j] != pat[j]
    ensures !MatchesAt(b, pat, i)
  {
    if i + |pat| <= |b| {
      assert b[i..i + |pat|][j] == b[i + j];
    }
  }

  /** The first match at or after `i`. */
  function IndexFrom(b: seq<byte>, pat: seq<byte>, i: nat): Option<nat>
    decreases |b| - i
  {
    if MatchesAt(b, pat, i) then Some(i)
    else if i >= |b| then None
    else IndexFrom(b, pat, i + 1)
  }

  /** `bytes.Index`. */
  function Index(b: seq<byte>, pat: seq<byte>): Option<nat> {
    IndexFrom(b, pat, 0)
  }

  lemma {:induction false} IndexFromIsFirst(b: seq<byte>, pat: seq<byte>, i: nat)
    ensures IndexFrom(b, pat, i).None? ==> forall k: nat :: i <= k ==> !MatchesAt(b, pat, k)
    ensures IndexFrom(b, pat, i).Some? ==>
      var at := IndexFrom(b, pat, i).value;
      i <= at && MatchesAt(b, pat, at) && forall k: nat :: i <= k < at ==> !MatchesAt(b, pat, k)
    decreases |b| - i
  {
    if !MatchesAt(b, pat, i) && i < |b| {
      IndexFromIsFirst(b, pat, i + 1);
    }
  }

  /** A match preceded by none is the one found. */
  lemma FirstMatch(b: seq<byte>, pat: seq<byte>, i: nat)
    requires MatchesAt(b, pat, i) && forall k: nat :: k < i ==> !MatchesAt(b, pat, k)
    ensures Index(b, pat) == Some(i)
  {
    IndexFromIsFirst(b, pat, 0);
  }

  /** Offsets of the challenge and of the type. */
  function ClientDataIndices(b: seq<byte>): Result<(nat, nat), IndexError> {
    match Index(b, Ascii(CHALLENGE_KEY))
    case None => Err(NoChallenge)
    case Some(challenge) =>
      match Index(b, Ascii(TYPE_FIELD))
      case None => Err(NoType)
      case Some(ty) => Ok((challenge, ty))
  }

  // ---- client data as browsers write it ----

  predicate IsBase64Url(c: byte) {
    var n := c as int;
    'A' as int <= n <= 'Z' as int || 'a' as int <= n <= 'z' as int || '0' as int <= n <= '9' as int || n in {45, 95}
  }

  /** Serialized as in section 5.8.1.1 of Web Authentication Level 2, the origin and what follows it in `rest`. */
  function Serialized(challenge: seq<byte>, rest: seq<byte>): seq<byte> {
    Ascii("{") + Ascii(TYPE_FIELD) + Ascii(",") + Ascii(CHALLENGE_KEY) + challenge + [QUOTE] + rest
  }

  /** The bytes from `i` up to the next quote. */
  function UpToQuote(b: seq<byte>, i: nat): seq<byte>
    requires i <= |b|
    decreases |b| - i
  {
    if i == |b| || b[i] == QUOTE then [] else [b[i]] + UpToQuote(b, i + 1)
  }

  /** The challenge as an on-chain verifier reads it, from the offset alone. */
  function ChallengeAt(b: seq<byte>, index: nat): seq<byte>
    requires index + |CHALLENGE_KEY| <= |b|
  {
    UpToQuote(b, index + |CHALLENGE_KEY|)
  }

  lemma {:induction false} UpToQuoteReads(b: seq<byte>, i: nat, text: seq<byte>)
    requires i + |text| < |b| && b[i..i + |text|] == text && b[i + |text|] == QUOTE && QUOTE !in text
    ensures UpToQuote(b, i) == text
    decreases |text|
  {
    if text == [] {
    } else {
      assert b[i] == b[i..i + |text|][0] == text[0];
      assert b[i + 1..i + 1 + |text[1..]|] == b[i..i + |text|][1..] == text[1..];
      UpToQuoteReads(b, i + 1, text[1..]);
    }
  }

  lemma KeyLetters()
    ensures |TYPE_FIELD| == 21 && |CHALLENGE_KEY| == 13
    ensures 'c' !in TYPE_FIELD && CHALLENGE_KEY[1] == 'c' && TYPE_FIELD[0] == '\"'
  {
  }

  /** Nothing before the challenge key can match it: no letter there is its second one. */
  lemma NoEarlierKey(b: seq<byte>, k: nat)
    requires |b| > 23 && k < 23 && b[1..22] == Ascii(TYPE_FIELD) && b[22] == ',' as int && b[23] == QUOTE
    ensures !MatchesAt(b, Ascii(CHALLENGE_KEY), k)
  {
    KeyLetters();
    if k < 21 {
      assert b[k + 1] == b[1..22][k] == TYPE_FIELD[k] as int;
      assert TYPE_FIELD[k] in TYPE_FIELD;
    }
    Differs(b, Ascii(CHALLENGE_KEY), k, 1);
  }

  lemma KeysStart(challenge: seq<byte>, rest: seq<byte>)
    ensures var b := Serialized(challenge, rest);
      && |b| == 37 + |challenge| + |rest|
      && b[0] != QUOTE && b[22] == ',' as int && b[23] == QUOTE
      && b[1..22] == Ascii(TYPE_FIELD) && b[23..36] == Ascii(CHALLENGE_KEY)
      && b[36..36 + |challenge|] == challenge && b[36 + |challenge|] == QUOTE
  {
    KeyLetters();
    var b, key := Serialized(challenge, rest), Ascii(CHALLENGE_KEY);
    assert b[23] == key[0] && CHALLENGE_KEY[0] == '\"';
    assert b[22] == Ascii(",")[0];
    assert b[0] == Ascii("{")[0];
  }

  /** The offsets are always 23 and 1, and the challenge is read back exactly, whatever follows it. */
  lemma OffsetsFindTheChallenge(challenge: seq<byte>, rest: seq<byte>)
    requires forall i :: 0 <= i < |challenge| ==> IsBase64Url(challenge[i])
    ensures ClientDataIndices(Serialized(challenge, rest)) == Ok((23, 1))
    ensures 36 <= |Serialized(challenge, rest)| && ChallengeAt(Serialized(challenge, rest), 23) == challenge
  {
    var b := Serialized(challenge, rest);
    KeyLetters();
    KeysStart(challenge, rest);
    forall k: nat | k < 23 ensures !MatchesAt(b, Ascii(CHALLENGE_KEY), k) {
      NoEarlierKey(b, k);
    }
    FirstMatch(b, Ascii(CHALLENGE_KEY), 23);
    Differs(b, Ascii(TYPE_FIELD), 0, 0);
    FirstMatch(b, Ascii(TYPE_FIELD), 1);
    assert QUOTE !in challenge;
    UpToQuoteReads(b, 36, challenge);
  }

  /** `pat` is at `i` and nowhere before. */
  ghost predicate FirstAt(b: seq<byte>, pat: seq<byte>, i: nat) {
    MatchesAt(b, pat, i) && forall k: nat :: k < i ==> !MatchesAt(b, pat, k)
  }

  ghost predicate Absent(b: seq<byte>, pat: seq<byte>) {
    forall k: nat :: !MatchesAt(b, pat, k)
  }

  /** In any client data the offsets are those of first occurrences, and each error says exactly which text is missing. */
  lemma OffsetsPointAtFields(b: seq<byte>)
    ensures ClientDataIndices(b).Ok? ==>
      var (challenge, ty) := ClientDataIndices(b).value;
      FirstAt(b, Ascii(CHALLENGE_KEY), challenge) && FirstAt(b, Ascii(TYPE_FIELD), ty)
    ensures ClientDataIndices(b) == Err(NoChallenge) <==> Absent(b, Ascii(CHALLENGE_KEY))
    ensures ClientDataIndices(b) == Err(NoType) <==> !Absent(b, Ascii(CHALLENGE_KEY)) && Absent(b, Ascii(TYPE_FIELD))
  {
    IndexFromIsFirst(b, Ascii(CHALLENGE_KEY), 0);
    IndexFromIsFirst(b, Ascii(TYPE_FIELD), 0);
  }
}
