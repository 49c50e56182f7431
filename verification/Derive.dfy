/** Agent keys derived along all-hardened BIP-32 paths, and the printed form of those paths. */
module Derive {
  import opened Bytes
  import opened Text
  import opened Wrappers

  const TWO_31: nat := 0x8000_0000
  const TWO_32: nat := 0x1_0000_0000
  const PURPOSE: uint32 := 44

  type uint32 = n: nat | n < TWO_32

  /** The BIP-32 and secp256k1 library: any functions of these shapes. */
  datatype Bip32<!K> = Bip32(
    master: seq<byte> -> Option<K>,
    child: (K, uint32) -> Option<K>,
    secret: K -> seq<byte>,
    address: seq<byte> -> Option<Address>)

  datatype AgentKey = AgentKey(privateKey: seq<byte>, address: string, path: string)

  datatype DeriveError =
    | SeedLength | EmptyPath | IndexTooLarge(index: nat) | NoMaster | NoChild(index: nat) | WrongKeySize | NotAScalar
    | AccountOutOfRange

  // ---- paths ----

  function Segment(i: nat): string {
    "/" + PrintNat(i) + "'"
  }

  function Segments(indices: seq<nat>): string {
    if indices == [] then "" else Segment(indices[0]) + Segments(indices[1..])
  }

  function PathText(indices: seq<nat>): string {
    "m" + Segments(indices)
  }

  lemma JoinedTwice(a: string, b: string, c: string)
    ensures (a + b) + c == a + (b + c)
  {
  }

  lemma {:induction false} SegmentsSnoc(indices: seq<nat>, i: nat)
    ensures Segments(indices + [i]) == Segments(indices) + Segment(i)
  {
    if indices == [] {
      assert ([] + [i])[1..] == [];
    } else {
      SegmentsSnoc(indices[1..], i);
      assert (indices + [i])[1..] == indices[1..] + [i];
      JoinedTwice(Segment(indices[0]), Segments(indices[1..]), Segment(i));
    }
  }

  /** The length of the run of digits at the front. */
  function DigitRun(s: string): (k: nat)
    ensures k <= |s| && forall i :: 0 <= i < k ==> IsDigit(s[i])
  {
    if s != "" && IsDigit(s[0]) then 1 + DigitRun(s[1..]) else 0
  }

  /** Reads any number of segments: a slash, a numeral and an apostrophe each. */
  function ParseSegments(s: string): Option<seq<nat>>
    decreases |s|
  {
    if s == "" then Some([])
    else if s[0] != '/' then None
    else
      var rest := s[1..];
      var k := DigitRun(rest);
      if k == 0 || k == |rest| || rest[k] != '\'' then None
      else
        match ParseSegments(rest[k + 1..])
        case Some(tail) => Some([DigitsValue(rest[..k])] + tail)
        case None => None
  }

  function ParsePath(s: string): Option<seq<nat>> {
    if s == "" || s[0] != 'm' then None else ParseSegments(s[1..])
  }

  lemma {:induction false} DigitRunStops(digits: string, rest: string)
    requires forall i :: 0 <= i < |digits| ==> IsDigit(digits[i])
    requires rest != "" ==> !IsDigit(rest[0])
    ensures DigitRun(digits + rest) == |digits|
  {
    if digits == "" {
      assert digits + rest == rest;
    } else {
      DigitRunStops(digits[1..], rest);
      assert (digits + rest)[1..] == digits[1..] + rest;
    }
  }

  lemma {:induction false} SegmentsParse(indices: seq<nat>)
    ensures ParseSegments(Segments(indices)) == Some(indices)
  {
    if indices == [] {
    } else {
      var digits, tail := PrintNat(indices[0]), Segments(indices[1..]);
      var s := Segments(indices);
      assert s[1..] == digits + ("'" + tail);
      DigitRunStops(digits, "'" + tail);
      PrintNatValue(indices[0]);
      assert s[1..][|digits| + 1..] == tail && s[1..][..|digits|] == digits;
      SegmentsParse(indices[1..]);
      assert [indices[0]] + indices[1..] == indices;
    }
  }

  /** A printed path parses back to the indices it was printed from. */
  lemma PathRoundTrip(indices: seq<nat>)
    ensures ParsePath(PathText(indices)) == Some(indices)
  {
    assert PathText(indices)[1..] == Segments(indices);
    SegmentsParse(indices);
  }

  // ---- derivation ----

  /** 32-bit addition. */
  function Hardened(i: uint32): uint32 {
    (i + TWO_31) % TWO_32
  }

  function Walk<K>(lib: Bip32<K>, key: K, indices: seq<uint32>): Option<K> {
    if indices == [] then Some(key)
    else
      match Walk(lib, key, indices[..|indices| - 1])
      case None => None
      case Some(parent) => lib.child(parent, Hardened(indices[|indices| - 1]))
  }

  /** A path can be walked in two stages: an owner's key is enough to derive the keys of the owner's agents. */
  lemma {:induction false} WalkSum<K>(lib: Bip32<K>, key: K, p: seq<uint32>, q: seq<uint32>)
    ensures Walk(lib, key, p + q) ==
      match Walk(lib, key, p)
      case None => None
      case Some(mid) => Walk(lib, mid, q)
  {
    if q == [] {
      assert p + q == p;
    } else {
      var n := |q| - 1;
      assert (p + q)[..|p| + n] == p + q[..n];
      WalkSum(lib, key, p, q[..n]);
    }
  }

  /** The seed has between 16 and 64 bytes, the path is not empty, and every index is below 2^31. */
  predicate Derivable(seed: seq<byte>, indices: seq<uint32>) {
    16 <= |seed| <= 64 && indices != [] && forall i :: 0 <= i < |indices| ==> indices[i] < TWO_31
  }

  /** The key at a path: what the walk along all of it gives, with the path printed. */
  predicate IsAt<K>(lib: Bip32<K>, seed: seq<byte>, indices: seq<uint32>, key: AgentKey) {
    && lib.master(seed).Some?
    && var leaf := Walk(lib, lib.master(seed).value, indices);
      && leaf.Some?
      && key.privateKey == lib.secret(leaf.value) && |key.privateKey| == 32
      && lib.address(key.privateKey).Some? && key.address == AddressHex(lib.address(key.privateKey).value)
      && key.path == PathText(indices)
  }

  /** The first index that is too large is the one reported. */
  predicate FirstTooLarge(indices: seq<uint32>, index: nat) {
    exists k :: 0 <= k < |indices| && indices[k] == index >= TWO_31 && forall j :: 0 <= j < k ==> indices[j] < TWO_31
  }

  method DeriveHardened<K>(lib: Bip32<K>, seed: seq<byte>, indices: seq<uint32>) returns (r: Result<AgentKey, DeriveError>)
    ensures r.Ok? ==> Derivable(seed, indices) && IsAt(lib, seed, indices, r.value)
    ensures r.Err? ==> !Derivable(seed, indices) || !(exists key :: IsAt(lib, seed, indices, key))
    ensures r != Err(AccountOutOfRange)
    ensures r == Err(SeedLength) <==> !(16 <= |seed| <= 64)
    ensures r == Err(EmptyPath) <==> 16 <= |seed| <= 64 && indices == []
    ensures r.Err? && r.error.IndexTooLarge? <==> 16 <= |seed| <= 64 && exists i :: 0 <= i < |indices| && indices[i] >= TWO_31
    ensures r.Err? && r.error.IndexTooLarge? ==> FirstTooLarge(indices, r.error.index)
  {
    if !(16 <= |seed| <= 64) {
      return Err(SeedLength);
    }
    if |indices| == 0 {
      return Err(EmptyPath);
    }
    for k := 0 to |indices|
      invariant forall j :: 0 <= j < k ==> indices[j] < TWO_31
    {
      if indices[k] >= TWO_31 {
        return Err(IndexTooLarge(indices[k]));
      }
    }
    var master := lib.master(seed);
    if master.None? {
      return Err(NoMaster);
    }
    var key, path := master.value, "m";
    for k := 0 to |indices|
      invariant Walk(lib, master.value, indices[..k]) == Some(key)
      invariant path == PathText(indices[..k])
    {
      assert indices[..k + 1] == indices[..k] + [indices[k]];
      assert indices[..k + 1][..k] == indices[..k];
      var next := lib.child(key, Hardened(indices[k]));
      if next.None? {
        WalkStops(lib, master.value, indices, k + 1);
        return Err(NoChild(indices[k]));
      }
      SegmentsSnoc(indices[..k], indices[k]);
      key := next.value;
      path := path + "/" + PrintNat(indices[k]) + "'";
    }
    assert indices[..|indices|] == indices;
    var secret := lib.secret(key);
    if |secret| != 32 {
      return Err(WrongKeySize);
    }
    var address := lib.address(secret);
    if address.None? {
      return Err(NotAScalar);
    }
    r := Ok(AgentKey(secret, AddressHex(address.value), path));
  }

  lemma WalkStops<K>(lib: Bip32<K>, key: K, indices: seq<uint32>, k: nat)
    requires k <= |indices| && Walk(lib, key, indices[..k]).None?
    ensures Walk(lib, key, indices).None?
  {
    assert indices == indices[..k] + indices[k..];
    WalkSum(lib, key, indices[..k], indices[k..]);
  }

  method Derive<K>(lib: Bip32<K>, seed: seq<byte>, coinType: uint32, account: uint32) returns (r: Result<AgentKey, DeriveError>)
    ensures r.Ok? ==> 0 < account < TWO_31 && coinType < TWO_31 && IsAt(lib, seed, [PURPOSE, coinType, account], r.value)
    ensures r == Err(AccountOutOfRange) <==> account == 0 || account >= TWO_31
    ensures r.Ok? <==>
      && account != 0 && Derivable(seed, [PURPOSE, coinType, account])
      && exists key :: IsAt(lib, seed, [PURPOSE, coinType, account], key)
  {
    if account == 0 || account >= TWO_31 {
      return Err(AccountOutOfRange);
    }
    var indices := [PURPOSE, coinType, account];
    assert indices[1] == coinType;
    r := DeriveHardened(lib, seed, indices);
  }

  method DeriveAgent<K>(lib: Bip32<K>, seed: seq<byte>, coinType: uint32, owner: uint32, agent: uint32)
    returns (r: Result<AgentKey, DeriveError>)
    ensures r.Ok? ==>
      && coinType < TWO_31 && owner < TWO_31 && agent < TWO_31
      && IsAt(lib, seed, [PURPOSE, coinType, owner, agent], r.value)
    ensures r.Ok? <==>
      && Derivable(seed, [PURPOSE, coinType, owner, agent])
      && exists key :: IsAt(lib, seed, [PURPOSE, coinType, owner, agent], key)
  {
    var indices := [PURPOSE, coinType, owner, agent];
    assert indices[1] == coinType && indices[2] == owner && indices[3] == agent;
    r := DeriveHardened(lib, seed, indices);
  }

  /** Keys of the two schemes, or of different indices in one scheme, never carry the same path. */
  lemma PathsTellKeysApart<K>(lib: Bip32<K>, seed: seq<byte>, p: seq<uint32>, q: seq<uint32>, a: AgentKey, b: AgentKey)
    requires IsAt(lib, seed, p, a) && IsAt(lib, seed, q, b)
    ensures a.path == b.path <==> p == q
    ensures p == q ==> a == b
    ensures |p| == 3 && |q| == 4 ==> a.path != b.path
  {
    PathRoundTrip(p);
    PathRoundTrip(q);
  }
}
