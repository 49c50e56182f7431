/**
 P-256 signatures: the low-s form, and verification as in section 6.4.2 of FIPS 186-5 over an abstract group of order N.
 */
module P256 {
  import opened Bytes
  import opened Wrappers

  const N: nat := 0xFFFFFFFF00000000FFFFFFFFFFFFFFFFBCE6FAADA7179E84F3B9CAC2FC632551
  const HALF_N: nat := N / 2

  // ---- the curve ----

  /** `point` is the curve point with the given coordinates, if there is one; `x` is its first coordinate. */
  datatype Curve<!P> = Curve(
    zero: P,
    base: P,
    add: (P, P) -> P,
    neg: P -> P,
    x: P -> nat,
    point: (int, int) -> Option<P>)

  function Times<P>(c: Curve<P>, k: nat, p: P): P {
    if k == 0 then c.zero else c.add(Times(c, k - 1, p), p)
  }

  /** A commutative group whose members all have order N, in which opposite points share their first coordinate. */
  ghost predicate Lawful<P(!new)>(c: Curve<P>) {
    && (forall p, q, r :: Associates(c, p, q, r))
    && (forall p, q :: Commutes(c, p, q))
    && (forall p :: Member(c, p))
  }

  predicate Associates<P(==)>(c: Curve<P>, p: P, q: P, r: P) {
    c.add(c.add(p, q), r) == c.add(p, c.add(q, r))
  }

  predicate Commutes<P(==)>(c: Curve<P>, p: P, q: P) {
    c.add(p, q) == c.add(q, p)
  }

  predicate Member<P(==)>(c: Curve<P>, p: P) {
    && c.add(p, c.zero) == p
    && c.add(p, c.neg(p)) == c.zero
    && Times(c, N, p) == c.zero
    && c.x(c.neg(p)) == c.x(p)
  }

  /** The opposite of a residue. */
  function Minus(k: nat): nat
    requires k < N
  {
    if k == 0 then 0 else N - k
  }

  lemma Cancel<P(!new)>(c: Curve<P>, p: P, q: P)
    requires Lawful(c) && c.add(p, q) == c.zero
    ensures q == c.neg(p)
  {
    calc {
      q;
      { assert Member(c, q); }
      c.add(q, c.zero);
      { assert Member(c, p); }
      c.add(q, c.add(p, c.neg(p)));
      { assert Associates(c, q, p, c.neg(p)); }
      c.add(c.add(q, p), c.neg(p));
      { assert Commutes(c, q, p); }
      c.add(c.zero, c.neg(p));
      { assert Commutes(c, c.zero, c.neg(p)) && Member(c, c.neg(p)); }
      c.neg(p);
    }
  }

  lemma {:induction false} TimesSum<P(!new)>(c: Curve<P>, j: nat, k: nat, p: P)
    requires Lawful(c)
    ensures Times(c, j + k, p) == c.add(Times(c, j, p), Times(c, k, p))
  {
    if k == 0 {
      assert Member(c, Times(c, j, p));
    } else {
      TimesSum(c, j, k - 1, p);
      assert Associates(c, Times(c, j, p), Times(c, k - 1, p), p);
    }
  }

  lemma TimesMinus<P(!new)>(c: Curve<P>, k: nat, p: P)
    requires Lawful(c) && k < N
    ensures Times(c, Minus(k), p) == c.neg(Times(c, k, p))
  {
    if k == 0 {
      assert Member(c, c.zero);
    } else {
      TimesSum(c, k, N - k, p);
      assert Member(c, p);
    }
    Cancel(c, Times(c, k, p), Times(c, Minus(k), p));
  }

  lemma NegSum<P(!new)>(c: Curve<P>, p: P, q: P)
    requires Lawful(c)
    ensures c.add(c.neg(p), c.neg(q)) == c.neg(c.add(p, q))
  {
    var p1, q1 := c.neg(p), c.neg(q);
    calc {
      c.add(c.add(p, q), c.add(p1, q1));
      { assert Associates(c, p, q, c.add(p1, q1)) && Commutes(c, p1, q1); }
      c.add(p, c.add(q, c.add(q1, p1)));
      { assert Associates(c, q, q1, p1) && Member(c, q); }
      c.add(p, c.add(c.zero, p1));
      { assert Commutes(c, c.zero, p1) && Member(c, p1) && Member(c, p); }
      c.zero;
    }
    Cancel(c, c.add(p, q), c.add(p1, q1));
  }

  // ---- low s ----

  function NormalizeLowS(s: int): int {
    if s > HALF_N then N - s else s
  }

  predicate IsLowS(s: int) {
    s <= HALF_N
  }

  /** Of the two forms of a signature exactly one is low, and normalizing either gives it. */
  lemma UniqueLowForm(s: int)
    requires 0 < s < N
    ensures forall t {:trigger IsLowS(t)} :: t in {s, N - s} ==> (IsLowS(t) <==> t == NormalizeLowS(s))
    ensures NormalizeLowS(s) in {s, N - s}
    ensures NormalizeLowS(N - s) == NormalizeLowS(s)
  {
    assert N == 2 * HALF_N + 1;
  }

  /** The result can be a signature's s only when the input can: beyond N it is not positive, yet passes for low. */
  lemma LowFormIsUsable(s: int)
    ensures 0 < NormalizeLowS(s) <= HALF_N <==> 0 < s < N
    ensures s >= N ==> NormalizeLowS(s) <= 0
    ensures IsLowS(NormalizeLowS(s)) && NormalizeLowS(NormalizeLowS(s)) == NormalizeLowS(s)
  {
    assert N == 2 * HALF_N + 1;
  }

  // ---- verification ----

  /** The number signed: the leftmost 256 bits of the digest. */
  function DigestNumber(digest: seq<byte>): nat {
    FromBE(if |digest| > 32 then digest[..32] else digest)
  }

  /** `[u]G + [v]Q`, where `w` is the inverse of s. */
  function Combined<P>(c: Curve<P>, q: P, e: nat, r: nat, w: nat): P {
    c.add(Times(c, e * w % N, c.base), Times(c, r * w % N, q))
  }

  ghost predicate Accepts<P>(c: Curve<P>, q: P, e: nat, r: int, s: int, w: nat) {
    && 0 < r < N && 0 < s < N
    && w < N && s * w % N == 1
    && Combined(c, q, e, r, w) != c.zero
    && c.x(Combined(c, q, e, r, w)) % N == r
  }

  ghost predicate Verifies<P>(c: Curve<P>, q: P, e: nat, r: int, s: int) {
    exists w: nat :: Accepts(c, q, e, r, s, w)
  }

  ghost predicate VerifyP256<P>(c: Curve<P>, x: int, y: int, digest: seq<byte>, r: int, s: int) {
    c.point(x, y).Some? && Verifies(c, c.point(x, y).value, DigestNumber(digest), r, s)
  }

  lemma MultipleIsLarge(n: int, d: int)
    requires n >= 0 && d != 0
    ensures n * d >= n || n * d <= -n
  {
    if d > 0 {
      NonNegative(n, d - 1);
      assert n * d == n + n * (d - 1);
    } else {
      NonNegative(n, -d - 1);
      assert n * d == -n - n * (-d - 1);
    }
  }

  lemma NonNegative(a: int, b: int)
    requires a >= 0 && b >= 0
    ensures a * b >= 0
  {
  }

  lemma ModUnique(a: int, q: int, r: nat, n: nat)
    requires r < n && a == n * q + r
    ensures a % n == r
  {
    var d := a / n - q;
    assert a == n * (a / n) + a % n && n * d == n * (a / n) - n * q;
    if d != 0 {
      MultipleIsLarge(n, d);
    }
  }

  lemma MinusProduct(e: nat, w: nat)
    requires 0 < w < N
    ensures e * (N - w) % N == Minus(e * w % N)
  {
    var q, r := e * w / N, e * w % N;
    assert e * w == N * q + r;
    assert e * (N - w) == N * e - e * w;
    if r == 0 {
      assert N * e - N * q == N * (e - q);
      ModUnique(e * (N - w), e - q, 0, N);
    } else {
      assert N * e - N * q == N * (e - q - 1) + N;
      ModUnique(e * (N - w), e - q - 1, N - r, N);
    }
  }

  lemma OppositeInverse(s: nat, w: nat)
    requires 0 < s < N && w < N && s * w % N == 1
    ensures w > 0 && (N - s) * (N - w) % N == 1
  {
    MinusProduct(s, w);
    MinusProduct(N - w, s);
    assert (N - w) * (N - s) == (N - s) * (N - w) && (N - w) * s == s * (N - w);
  }

  lemma OppositePoint<P(!new)>(c: Curve<P>, q: P, e: nat, r: nat, w: nat)
    requires Lawful(c) && 0 < w < N
    ensures Combined(c, q, e, r, N - w) == c.neg(Combined(c, q, e, r, w))
  {
    MinusProduct(e, w);
    MinusProduct(r, w);
    var u, v := e * w % N, r * w % N;
    TimesMinus(c, u, c.base);
    TimesMinus(c, v, q);
    NegSum(c, Times(c, u, c.base), Times(c, v, q));
  }

  /** The opposite inverse goes with the opposite s, and gives the opposite point. */
  lemma OppositeAccepts<P(!new)>(c: Curve<P>, q: P, e: nat, r: int, s: int, w: nat)
    requires Lawful(c) && Accepts(c, q, e, r, s, w)
    ensures w > 0 && Accepts(c, q, e, r, N - s, N - w)
  {
    OppositeInverse(s, w);
    OppositePoint(c, q, e, r, w);
    var p := Combined(c, q, e, r, w);
    assert Member(c, p);
  }

  lemma OppositeVerifies<P(!new)>(c: Curve<P>, q: P, e: nat, r: int, s: int)
    requires Lawful(c) && Verifies(c, q, e, r, s)
    ensures Verifies(c, q, e, r, N - s)
  {
    var w: nat :| Accepts(c, q, e, r, s, w);
    OppositeAccepts(c, q, e, r, s, w);
  }

  /** Normalizing never changes whether a signature verifies, whatever number s is. */
  lemma LowSKeepsValidity<P(!new)>(c: Curve<P>, x: int, y: int, digest: seq<byte>, r: int, s: int)
    requires Lawful(c)
    ensures VerifyP256(c, x, y, digest, r, NormalizeLowS(s)) <==> VerifyP256(c, x, y, digest, r, s)
  {
    if s > HALF_N && c.point(x, y).Some? {
      var q, e := c.point(x, y).value, DigestNumber(digest);
      if Verifies(c, q, e, r, s) {
        OppositeVerifies(c, q, e, r, s);
      }
      if Verifies(c, q, e, r, N - s) {
        OppositeVerifies(c, q, e, r, N - s);
        assert N - (N - s) == s;
      }
    }
  }

  // ---- public keys ----

  datatype KeyError = BadPrefix | BadLength | OffCurve

  function ParsePublicKey<P>(c: Curve<P>, pub: seq<byte>): Result<(nat, nat), KeyError> {
    if |pub| == 65 && pub[0] != 4 then Err(BadPrefix)
    else if |pub| != 64 && |pub| != 65 then Err(BadLength)
    else
      var xy := if |pub| == 65 then pub[1..] else pub;
      var x, y := FromBE(xy[..32]), FromBE(xy[32..]);
      if c.point(x, y).None? then Err(OffCurve) else Ok((x, y))
  }

  function KeyBytes(x: nat, y: nat): (b: seq<byte>)
    ensures |b| == 64
  {
    ToBE(x, 32) + ToBE(y, 32)
  }

  /** The keys accepted are exactly the two spellings of points on the curve, and both are read as those points. */
  lemma ParsesBothSpellings<P>(c: Curve<P>, pub: seq<byte>, x: nat, y: nat)
    ensures ParsePublicKey(c, pub) == Ok((x, y)) <==>
      && x < TWO_256 && y < TWO_256 && c.point(x, y).Some?
      && pub in {KeyBytes(x, y), [4] + KeyBytes(x, y)}
  {
    if ParsePublicKey(c, pub) == Ok((x, y)) {
      var xy := if |pub| == 65 then pub[1..] else pub;
      assert |pub| == 65 ==> pub == [4] + xy;
      WordFromBytes(xy[..32]);
      WordFromBytes(xy[32..]);
      assert xy == xy[..32] + xy[32..];
    }
    if x < TWO_256 && y < TWO_256 && c.point(x, y).Some? {
      var xy := KeyBytes(x, y);
      WordRoundTrip(x);
      WordRoundTrip(y);
      assert xy[..32] == ToBE(x, 32) && xy[32..] == ToBE(y, 32);
      assert ([4] + xy)[1..] == xy;
    }
  }
}
