/** Strings as the wallet reads them: white space, case folding, decimal and hexadecimal numerals. */
module Text {
  import opened Bytes
  import opened Wrappers

  // ---- white space and case ----

  predicate IsSpace(c: char) {
    var n := c as int;
    9 <= n <= 13 || n in {0x20, 0x85, 0xA0, 0x1680, 0x2028, 0x2029, 0x202F, 0x205F, 0x3000} || 0x2000 <= n <= 0x200A
  }

  function TrimLeft(s: string): string {
    if s != "" && IsSpace(s[0]) then TrimLeft(s[1..]) else s
  }

  function TrimRight(s: string): string {
    if s != "" && IsSpace(s[|s| - 1]) then TrimRight(s[..|s| - 1]) else s
  }

  function TrimSpace(s: string): string {
    TrimRight(TrimLeft(s))
  }

  function TrimPrefix(s: string, p: string): string {
    if p <= s then s[|p|..] else s
  }

  function Lower(c: char): char {
    if 'A' <= c <= 'Z' then (c as int + 32) as char else c
  }

  function Fold(s: string): (r: string)
    ensures |r| == |s|
  {
    seq(|s|, i requires 0 <= i < |s| => Lower(s[i]))
  }

  /** Equality up to ASCII case, which is all of `strings.EqualFold` on hexadecimal addresses. */
  predicate EqualFold(s: string, t: string) {
    Fold(s) == Fold(t)
  }

  lemma TrimInner(s: string)
    requires s != "" ==> !IsSpace(s[0]) && !IsSpace(s[|s| - 1])
    ensures TrimSpace(s) == s
  {
  }

  // ---- decimal numerals ----

  predicate IsDigit(c: char) { '0' <= c <= '9' }

  function DigitValue(c: char): nat
    requires IsDigit(c)
  {
    c as int - '0' as int
  }

  predicate AllDigits(s: string) {
    s != "" && forall i :: 0 <= i < |s| ==> IsDigit(s[i])
  }

  function DigitsValue(s: string): nat
    requires forall i :: 0 <= i < |s| ==> IsDigit(s[i])
  {
    if s == "" then 0 else 10 * DigitsValue(s[..|s| - 1]) + DigitValue(s[|s| - 1])
  }

  /** `big.Int.SetString(s, 10)`: an optional sign and at least one digit, nothing else. */
  function ParseInt(s: string): Option<int> {
    if s != "" && s[0] in {'+', '-'} then
      if AllDigits(s[1..]) then
        Some(if s[0] == '-' then 0 - DigitsValue(s[1..]) else DigitsValue(s[1..]))
      else
        None
    else if AllDigits(s) then Some(DigitsValue(s))
    else None
  }

  function PrintNat(n: nat): (s: string)
    ensures AllDigits(s)
  {
    if n < 10 then [('0' as int + n) as char] else PrintNat(n / 10) + [('0' as int + n % 10) as char]
  }

  function PrintInt(n: int): string {
    if n < 0 then "-" + PrintNat(-n) else PrintNat(n)
  }

  lemma {:induction false} PrintNatValue(n: nat)
    ensures DigitsValue(PrintNat(n)) == n
  {
    if n < 10 {
      var s := PrintNat(n);
      assert s[..|s| - 1] == "";
    } else {
      PrintNatValue(n / 10);
      var s := PrintNat(n);
      assert s[..|s| - 1] == PrintNat(n / 10);
    }
  }

  lemma ParsePrint(n: int)
    ensures ParseInt(PrintInt(n)) == Some(n)
  {
    if n < 0 {
      PrintNatValue(-n);
      assert PrintInt(n)[1..] == PrintNat(-n);
    } else {
      PrintNatValue(n);
      assert IsDigit(PrintNat(n)[0]);
    }
  }

  /** A numeral that parses has no white space at either end, so trimming it first changes nothing. */
  lemma ParsedIsTrimmed(s: string)
    requires ParseInt(s).Some?
    ensures TrimSpace(s) == s
  {
    if s[0] in {'+', '-'} {
      assert IsDigit(s[1..][|s| - 2]);
    } else {
      assert IsDigit(s[0]) && IsDigit(s[|s| - 1]);
    }
    TrimInner(s);
  }

  // ---- hexadecimal numerals and addresses ----

  predicate IsHex(c: char) {
    '0' <= c <= '9' || 'a' <= c <= 'f' || 'A' <= c <= 'F'
  }

  predicate AllHex(s: string) {
    forall i :: 0 <= i < |s| ==> IsHex(s[i])
  }

  function HexValue(c: char): (v: nat)
    requires IsHex(c)
    ensures v < 16
  {
    if c <= '9' then c as int - '0' as int
    else if c <= 'F' then c as int - 'A' as int + 10
    else c as int - 'a' as int + 10
  }

  function HexChar(v: nat): (c: char)
    requires v < 16
    ensures IsHex(c) && HexValue(c) == v && Lower(c) == c
  {
    if v < 10 then ('0' as int + v) as char else ('a' as int + v - 10) as char
  }

  /** `hex.DecodeString`. */
  function HexDecode(s: string): (b: Option<seq<byte>>)
    ensures b.Some? <==> |s| % 2 == 0 && AllHex(s)
    ensures b.Some? ==> |b.value| == |s| / 2
  {
    if |s| % 2 == 0 && AllHex(s) then
      Some(seq(|s| / 2, i requires 0 <= i < |s| / 2 => 16 * HexValue(s[2 * i]) + HexValue(s[2 * i + 1])))
    else
      None
  }

  /** `hex.EncodeToString`. */
  function HexEncode(b: seq<byte>): (s: string)
    ensures |s| == 2 * |b| && AllHex(s)
  {
    seq(2 * |b|, i requires 0 <= i < 2 * |b| => HexChar(if i % 2 == 0 then b[i / 2] / 16 else b[i / 2] % 16))
  }

  lemma HexRoundTrip(b: seq<byte>)
    ensures HexDecode(HexEncode(b)) == Some(b)
  {
    var s := HexEncode(b);
    forall i | 0 <= i < |b| ensures HexDecode(s).value[i] == b[i] {
      assert (2 * i) / 2 == i && (2 * i) % 2 == 0 && (2 * i + 1) / 2 == i && (2 * i + 1) % 2 == 1;
      assert s[2 * i] == HexChar(b[i] / 16) && s[2 * i + 1] == HexChar(b[i] % 16);
    }
    assert HexDecode(s).value == b;
  }

  function HexNat(s: string): nat
    requires AllHex(s)
  {
    if s == "" then 0 else 16 * HexNat(s[..|s| - 1]) + HexValue(s[|s| - 1])
  }

  function HexPad(n: nat, width: nat): (s: string)
    ensures |s| == width && AllHex(s) && Fold(s) == s
  {
    if width == 0 then "" else HexPad(n / 16, width - 1) + [HexChar(n % 16)]
  }

  lemma HexNatSnoc(s: string, c: char)
    requires AllHex(s) && IsHex(c)
    ensures AllHex(s + [c]) && HexNat(s + [c]) == 16 * HexNat(s) + HexValue(c)
  {
    assert (s + [c])[..|s|] == s;
  }

  lemma {:induction false} HexPadValue(n: nat, width: nat)
    requires n < Pow(16, width)
    ensures HexNat(HexPad(n, width)) == n
  {
    if width == 0 {
    } else {
      HexPadValue(n / 16, width - 1);
      HexNatSnoc(HexPad(n / 16, width - 1), HexChar(n % 16));
    }
  }

  lemma {:induction false} HexPadFolds(s: string)
    requires AllHex(s)
    ensures HexPad(HexNat(s), |s|) == Fold(s)
  {
    if s == "" {
    } else {
      var n := |s| - 1;
      var head, c := s[..n], s[n];
      HexPadFolds(head);
      HexPadStep(HexNat(head), HexValue(c), n);
      CharFolds(c);
      FoldSnoc(head, c);
      assert s == head + [c];
    }
  }

  lemma FoldSnoc(s: string, c: char)
    ensures Fold(s + [c]) == Fold(s) + [Lower(c)]
  {
  }

  lemma CharFolds(c: char)
    requires IsHex(c)
    ensures HexValue(c) < 16 && HexChar(HexValue(c)) == Lower(c)
  {
  }

  lemma HexPadStep(n: nat, digit: nat, width: nat)
    requires digit < 16
    ensures HexPad(16 * n + digit, width + 1) == HexPad(n, width) + [HexChar(digit)]
  {
    assert (16 * n + digit) / 16 == n && (16 * n + digit) % 16 == digit;
  }

  lemma {:induction false} HexNatFold(s: string, t: string)
    requires AllHex(s) && AllHex(t) && EqualFold(s, t)
    ensures HexNat(s) == HexNat(t)
  {
    if s == "" {
    } else {
      var n := |s| - 1;
      assert |Fold(s)| == |Fold(t)|;
      assert Fold(s)[n] == Fold(t)[n];
      forall i | 0 <= i < n ensures Fold(s[..n])[i] == Fold(t[..n])[i] {
        assert Fold(s)[i] == Fold(t)[i];
      }
      HexNatFold(s[..n], t[..n]);
    }
  }

  lemma {:induction false} HexNatBound(s: string)
    requires AllHex(s)
    ensures HexNat(s) < Pow(16, |s|)
  {
    if s == "" {
    } else {
      HexNatBound(s[..|s| - 1]);
    }
  }

  type Address = n: nat | n < TWO_160

  function Strip0x(s: string): string {
    if |s| >= 2 && s[0] == '0' && s[1] in {'x', 'X'} then s[2..] else s
  }

  /** `common.IsHexAddress`: 40 hexadecimal digits, with or without the prefix. */
  predicate IsHexAddress(s: string) {
    |Strip0x(s)| == 40 && AllHex(Strip0x(s))
  }

  /** `looksLikeAddress`: the prefix is compulsory and lower case. */
  predicate LooksLikeAddress(s: string) {
    |s| == 42 && "0x" <= s && AllHex(s[2..])
  }

  /** `common.HexToAddress`, on the strings `IsHexAddress` lets through. */
  function HexToAddress(s: string): Address
    requires IsHexAddress(s)
  {
    PowFacts();
    HexNatBound(Strip0x(s));
    HexNat(Strip0x(s))
  }

  /** `Address.Hex()`, up to the letter case of its checksum. */
  function AddressHex(a: Address): (s: string)
    ensures LooksLikeAddress(s)
  {
    var s := "0x" + HexPad(a, 40);
    assert s[2..] == HexPad(a, 40);
    s
  }

  lemma LooksIsHex(s: string)
    requires LooksLikeAddress(s)
    ensures IsHexAddress(s)
  {
    assert s[0] == "0x"[0] && s[1] == "0x"[1];
  }

  /** Address strings equal up to case name the same account. */
  lemma FoldedAddress(s: string, t: string)
    requires LooksLikeAddress(s) && LooksLikeAddress(t) && EqualFold(s, t)
    ensures IsHexAddress(s) && IsHexAddress(t)
    ensures HexToAddress(s) == HexToAddress(t)
  {
    LooksIsHex(s);
    LooksIsHex(t);
    assert Fold(s[2..]) == Fold(s)[2..] == Fold(t)[2..] == Fold(t[2..]);
    HexNatFold(s[2..], t[2..]);
  }

  /** Letter case never tells two spellings of an account apart. */
  lemma FoldedSpelling(s: string, t: string)
    requires IsHexAddress(s) && EqualFold(s, t)
    ensures IsHexAddress(t) && HexToAddress(t) == HexToAddress(s)
  {
    assert |Fold(s)| == |Fold(t)| && forall i :: 0 <= i < |s| ==> Fold(s)[i] == Fold(t)[i];
    var x, y := Strip0x(s), Strip0x(t);
    assert |s| >= 2 && Lower(s[0]) == Lower(t[0]) && Lower(s[1]) == Lower(t[1]) by {
      assert Fold(s)[0] == Fold(t)[0] && Fold(s)[1] == Fold(t)[1];
    }
    assert |x| == |y|;
    forall i | 0 <= i < |x| ensures Lower(x[i]) == Lower(y[i]) && IsHex(y[i]) {
      assert Fold(s)[|s| - |x| + i] == Fold(t)[|s| - |x| + i];
    }
    assert Fold(x) == Fold(y);
    HexNatFold(x, y);
  }

  /** Printing an address and reading it back gives the same account. */
  lemma AddressRoundTrip(a: Address)
    ensures IsHexAddress(AddressHex(a)) && HexToAddress(AddressHex(a)) == a
  {
    var s := AddressHex(a);
    LooksIsHex(s);
    assert s[2..] == HexPad(a, 40);
    PowFacts();
    HexPadValue(a, 40);
  }

  /** Only the spellings of one account, up to case, name it. */
  lemma NamesOneAccount(a: Address, s: string)
    requires LooksLikeAddress(s)
    ensures IsHexAddress(s)
    ensures HexToAddress(s) == a <==> EqualFold(AddressHex(a), s)
  {
    LooksIsHex(s);
    if EqualFold(AddressHex(a), s) {
      FoldedAddress(AddressHex(a), s);
      AddressRoundTrip(a);
    }
    if HexToAddress(s) == a {
      HexPadFolds(s[2..]);
      assert AddressHex(a)[2..] == HexPad(a, 40) == Fold(s[2..]);
      assert Fold(AddressHex(a)) == "0x" + Fold(s[2..]);
      assert Fold(s)[0] == '0' && Fold(s)[1] == 'x';
      assert Fold(s) == "0x" + Fold(s[2..]);
    }
  }
}
