/** The three forms of a 65-byte signature: as submitted, as cached, and as sent on chain. */
module Signatures {
  import opened Bytes
  import opened Text
  import opened Wrappers

  function SigDigits(s: string): string {
    TrimPrefix(TrimSpace(s), "0x")
  }

  function RawSig(s: string): (b: Option<seq<byte>>)
    ensures b.Some? ==> |b.value| == 65
  {
    if |SigDigits(s)| != 130 then None else HexDecode(SigDigits(s))
  }

  function RecoveryV(v: byte): byte {
    if v >= 27 then v - 27 else v
  }

  function OnchainV(v: byte): byte {
    if v < 27 then v + 27 else v
  }

  /** The form key recovery takes: `v` counted from 0. */
  function Sig65(s: string): (r: Option<seq<byte>>)
    ensures r.Some? ==> |r.value| == 65
  {
    match RawSig(s)
    case None => None
    case Some(b) => Some(b[64 := RecoveryV(b[64])])
  }

  /** The form the Permit2 contract takes: `v` counted from 27. */
  function SigOnchain(s: string): (r: Option<seq<byte>>)
    ensures r.Some? ==> |r.value| == 65
  {
    match RawSig(s)
    case None => None
    case Some(b) => Some(b[64 := OnchainV(b[64])])
  }

  /** The form cached in the store: `0x` and 130 lower-case digits, or nothing. */
  function NormalizeSigHex(s: string): string {
    var t := TrimPrefix(TrimPrefix(TrimSpace(s), "0x"), "0X");
    if |t| == 130 && AllHex(t) then "0x" + Fold(t) else ""
  }

  /** The buffer both decoders fill: a copy of the bytes, its last one then rewritten in place. */
  method CopyWithV(b: seq<byte>, v: byte) returns (out: array<byte>)
    requires |b| == 65
    ensures fresh(out) && out[..] == b[64 := v]
  {
    out := new byte[65];
    for i := 0 to 65
      invariant forall j :: 0 <= j < i ==> out[j] == b[j]
    {
      out[i] := b[i];
    }
    out[64] := v;
    assert forall j :: 0 <= j < 65 ==> out[..][j] == b[64 := v][j];
  }

  method DecodeSig65(s: string) returns (out: array?<byte>)
    ensures out == null <==> Sig65(s).None?
    ensures out != null ==> fresh(out) && out[..] == Sig65(s).value
  {
    var b := RawSig(s);
    if b.None? {
      return null;
    }
    out := CopyWithV(b.value, RecoveryV(b.value[64]));
  }

  method DecodeSigOnchain(s: string) returns (out: array?<byte>)
    ensures out == null <==> SigOnchain(s).None?
    ensures out != null ==> fresh(out) && out[..] == SigOnchain(s).value
  {
    var b := RawSig(s);
    if b.None? {
      return null;
    }
    out := CopyWithV(b.value, OnchainV(b.value[64]));
  }

  lemma FoldKeepsHex(t: string)
    requires AllHex(t)
    ensures AllHex(Fold(t))
    ensures HexDecode(Fold(t)) == HexDecode(t)
  {
    forall i | 0 <= i < |t| ensures IsHex(Fold(t)[i]) && HexValue(Fold(t)[i]) == HexValue(t[i]) {
    }
    if |t| % 2 == 0 {
      assert HexDecode(Fold(t)).value == HexDecode(t).value;
    }
  }

  lemma CachedDigits(t: string)
    requires |t| == 130 && AllHex(t)
    ensures SigDigits("0x" + Fold(t)) == Fold(t)
  {
    var s := "0x" + Fold(t);
    FoldKeepsHex(t);
    assert s[0] == '0' && s[131] == Fold(t)[129];
    TrimInner(s);
  }

  /** What recovery accepts is cached, and what is sent later differs from what was recovered only by 27 in `v`. */
  lemma OneSignature(s: string)
    requires Sig65(s).Some?
    ensures NormalizeSigHex(s) != "" && TrimSpace(NormalizeSigHex(s)) != ""
    ensures var sent := SigOnchain(NormalizeSigHex(s));
      && sent.Some?
      && sent.value[..64] == Sig65(s).value[..64]
      && sent.value[64] == Sig65(s).value[64] + 27
  {
    var t := SigDigits(s);
    assert IsHex(t[1]) && "0X"[1] == 'X';
    CachedDigits(t);
    FoldKeepsHex(t);
    assert NormalizeSigHex(s) == "0x" + Fold(t);
    TrimInner(NormalizeSigHex(s));
  }

  /** The cache is wider than recovery by one spelling only: an upper-case `0X` prefix. */
  lemma CacheAcceptsExactly(s: string)
    ensures NormalizeSigHex(s) != "" <==>
      Sig65(s).Some? || ("0X" <= SigDigits(s) && |SigDigits(s)| == 132 && AllHex(SigDigits(s)[2..]))
  {
    var t := SigDigits(s);
    if Sig65(s).Some? {
      OneSignature(s);
    }
    if "0X" <= t {
      assert t[1] == "0X"[1] && !IsHex(t[1]);
    }
  }

  // ---- signatures the wallet makes itself ----

  /** The text handed out for a raw signature. */
  function Presented(raw: seq<byte>): string
    requires |raw| == 65
  {
    "0x" + HexEncode(raw[64 := OnchainV(raw[64])])
  }

  /** `raw` comes from the signing library; its last byte is rewritten in place. */
  method PresentSignature(raw: array<byte>) returns (s: string)
    requires raw.Length == 65
    modifies raw
    ensures s == Presented(old(raw[..])) && raw[..] == old(raw[..])[64 := OnchainV(old(raw[64]))]
  {
    if raw[64] < 27 {
      raw[64] := raw[64] + 27;
    }
    s := "0x" + HexEncode(raw[..]);
  }

  /** A signature the wallet presents is read back as made, and reaches the chain in the form it was presented in. */
  lemma PresentedIsRead(raw: seq<byte>)
    requires |raw| == 65 && raw[64] < 27
    ensures Sig65(Presented(raw)) == Some(raw)
    ensures SigOnchain(NormalizeSigHex(Presented(raw))) == Some(raw[64 := raw[64] + 27])
  {
    PresentedIsRecovered(raw);
    RecoveredIsSent(raw, Presented(raw));
  }

  lemma PresentedIsRecovered(raw: seq<byte>)
    requires |raw| == 65 && raw[64] < 27
    ensures Sig65(Presented(raw)) == Some(raw)
  {
    PresentedDigits(raw);
    assert raw[64 := raw[64] + 27][64 := raw[64]] == raw;
  }

  lemma RecoveredIsSent(raw: seq<byte>, s: string)
    requires |raw| == 65 && raw[64] < 27 && Sig65(s) == Some(raw)
    ensures SigOnchain(NormalizeSigHex(s)) == Some(raw[64 := raw[64] + 27])
  {
    OneSignature(s);
    var sent := SigOnchain(NormalizeSigHex(s)).value;
    OnlyLastDiffers(raw, sent, raw[64] + 27);
  }

  lemma PresentedDigits(raw: seq<byte>)
    requires |raw| == 65
    ensures RawSig(Presented(raw)) == Some(raw[64 := OnchainV(raw[64])])
  {
    var b := raw[64 := OnchainV(raw[64])];
    var s := "0x" + HexEncode(b);
    HexRoundTrip(b);
    assert s[0] == '0' && s[131] == HexEncode(b)[129];
    TrimInner(s);
    assert s[2..] == HexEncode(b);
  }

  lemma OnlyLastDiffers(raw: seq<byte>, sent: seq<byte>, v: byte)
    requires |raw| == |sent| == 65 && sent[..64] == raw[..64] && sent[64] == v
    ensures sent == raw[64 := v]
  {
    assert sent == sent[..64] + [sent[64]] && raw[64 := v] == raw[..64] + [v];
  }
}
