/**
 Contract ABI encoding of arguments, as in the section "Formal Specification of the Encoding" of the
 Solidity Contract ABI Specification: words, byte strings, tuples and dynamic arrays, with heads and tails.
 */
module Abi {
  import opened Bytes
  import opened Wrappers

  datatype Ty = TWord | TBytes | TTuple(parts: Tys) | TArray(elem: Ty)
  datatype Tys = TNil | TCons(head: Ty, tail: Tys)

  datatype Val = Word(n: nat) | Blob(data: seq<byte>) | Tuple(parts: Vals) | Array(items: Vals)
  datatype Vals = VNil | VCons(head: Val, tail: Vals)

  function Count(vs: Vals): nat {
    match vs
    case VNil => 0
    case VCons(_, tail) => 1 + Count(tail)
  }

  function Max(a: nat, b: nat): nat {
    if a < b then b else a
  }

  function Depth(t: Ty): nat {
    match t
    case TWord => 0
    case TBytes => 0
    case TTuple(parts) => 1 + DepthAll(parts)
    case TArray(elem) => 1 + Depth(elem)
  }

  function DepthAll(ts: Tys): nat {
    match ts
    case TNil => 0
    case TCons(head, tail) => Max(Depth(head), DepthAll(tail))
  }

  function Length(ts: Tys): nat {
    match ts
    case TNil => 0
    case TCons(_, tail) => 1 + Length(tail)
  }

  /** The member types of an array of `n` elements. */
  function Repeat(t: Ty, n: nat): (ts: Tys)
    ensures DepthAll(ts) <= Depth(t)
  {
    if n == 0 then TNil else TCons(t, Repeat(t, n - 1))
  }

  predicate Fits(t: Ty, v: Val)
    decreases v
  {
    match v
    case Word(n) => t.TWord? && n < TWO_256
    case Blob(_) => t.TBytes?
    case Tuple(parts) => t.TTuple? && FitAll(t.parts, parts)
    case Array(items) => t.TArray? && Count(items) < TWO_256 && FitAll(Repeat(t.elem, Count(items)), items)
  }

  predicate FitAll(ts: Tys, vs: Vals)
    decreases vs
  {
    match vs
    case VNil => ts.TNil?
    case VCons(head, tail) => ts.TCons? && Fits(ts.head, head) && FitAll(ts.tail, tail)
  }

  predicate IsDynamic(t: Ty) {
    match t
    case TWord => false
    case TBytes => true
    case TTuple(parts) => AnyDynamic(parts)
    case TArray(_) => true
  }

  predicate AnyDynamic(ts: Tys) {
    match ts
    case TNil => false
    case TCons(head, tail) => IsDynamic(head) || AnyDynamic(tail)
  }

  /** Bytes a member takes in the head: itself when static, an offset when dynamic. */
  function HeadSize(t: Ty): nat {
    match t
    case TTuple(parts) => if AnyDynamic(parts) then 32 else HeadSizes(parts)
    case _ => 32
  }

  function HeadSizes(ts: Tys): nat {
    match ts
    case TNil => 0
    case TCons(head, tail) => HeadSize(head) + HeadSizes(tail)
  }

  function Zeros(n: nat): (z: seq<byte>)
    ensures |z| == n
  {
    seq(n, _ => 0)
  }

  function Pad(n: nat): nat {
    (32 - n % 32) % 32
  }

  lemma FitWord(n: nat, ts: Tys, vs: Vals)
    requires n < TWO_256 && FitAll(ts, vs)
    ensures FitAll(TCons(TWord, ts), VCons(Word(n), vs))
    ensures AnyDynamic(TCons(TWord, ts)) == AnyDynamic(ts) && HeadSizes(TCons(TWord, ts)) == 32 + HeadSizes(ts)
  {
  }

  lemma FitBlob(data: seq<byte>, ts: Tys, vs: Vals)
    requires FitAll(ts, vs)
    ensures FitAll(TCons(TBytes, ts), VCons(Blob(data), vs))
    ensures HeadSizes(TCons(TBytes, ts)) == 32 + HeadSizes(ts)
  {
  }

  // ---- encoding ----

  function Enc(t: Ty, v: Val): seq<byte>
    requires Fits(t, v)
    decreases v, 0
  {
    match v
    case Word(n) => ToBE(n, 32)
    case Blob(data) => ToBE(|data|, 32) + data + Zeros(Pad(|data|))
    case Tuple(parts) => EncAll(t.parts, parts)
    case Array(items) => ToBE(Count(items), 32) + EncAll(Repeat(t.elem, Count(items)), items)
  }

  function EncAll(ts: Tys, vs: Vals): seq<byte>
    requires FitAll(ts, vs)
    decreases vs, 1
  {
    Heads(ts, vs, HeadSizes(ts)) + Tails(ts, vs)
  }

  /** The heads of the members, the first dynamic one pointing `offset` bytes past the start. */
  function Heads(ts: Tys, vs: Vals, offset: nat): seq<byte>
    requires FitAll(ts, vs)
    decreases vs, 0
  {
    match vs
    case VNil => []
    case VCons(head, tail) =>
      if IsDynamic(ts.head) then ToBE(offset, 32) + Heads(ts.tail, tail, offset + |Enc(ts.head, head)|)
      else Enc(ts.head, head) + Heads(ts.tail, tail, offset)
  }

  function Tails(ts: Tys, vs: Vals): seq<byte>
    requires FitAll(ts, vs)
    decreases vs, 0
  {
    match vs
    case VNil => []
    case VCons(head, tail) => (if IsDynamic(ts.head) then Enc(ts.head, head) else []) + Tails(ts.tail, tail)
  }

  // ---- decoding ----

  function ReadWord(buf: seq<byte>, at: nat): Option<nat> {
    if at + 32 <= |buf| then Some(FromBE(buf[at..at + 32])) else None
  }

  function Dec(t: Ty, buf: seq<byte>, at: nat): Option<Val>
    decreases Depth(t), 0
  {
    match t
    case TWord =>
      (match ReadWord(buf, at)
       case Some(n) => Some(Word(n))
       case None => None)
    case TBytes =>
      (match ReadWord(buf, at)
       case Some(n) => if at + 32 + n <= |buf| then Some(Blob(buf[at + 32..at + 32 + n])) else None
       case None => None)
    case TTuple(parts) =>
      (match DecAll(parts, buf, at, at)
       case Some(vs) => Some(Tuple(vs))
       case None => None)
    case TArray(elem) =>
      (match ReadWord(buf, at)
       case Some(n) =>
         (match DecAll(Repeat(elem, n), buf, at + 32, at + 32)
          case Some(vs) => Some(Array(vs))
          case None => None)
       case None => None)
  }

  /** Where a member lies: at its head, or where its head says, counted from the start of the tuple. */
  function Place(t: Ty, buf: seq<byte>, base: nat, at: nat): Option<nat> {
    if !IsDynamic(t) then Some(at)
    else
      match ReadWord(buf, at)
      case Some(offset) => Some(base + offset)
      case None => None
  }

  function Joined(first: Option<Val>, rest: Option<Vals>): Option<Vals> {
    if first.Some? && rest.Some? then Some(VCons(first.value, rest.value)) else None
  }

  /** Reads members whose heads start at `at`, with offsets counted from `base`. */
  function DecAll(ts: Tys, buf: seq<byte>, base: nat, at: nat): Option<Vals>
    decreases DepthAll(ts), 1 + Length(ts)
  {
    match ts
    case TNil => Some(VNil)
    case TCons(head, tail) =>
      match Place(head, buf, base, at)
      case None => None
      case Some(where) => Joined(Dec(head, buf, where), DecAll(tail, buf, base, at + HeadSize(head)))
  }

  // ---- round trip ----

  predicate At(buf: seq<byte>, at: nat, s: seq<byte>) {
    at + |s| <= |buf| && buf[at..at + |s|] == s
  }

  lemma AtSplit(buf: seq<byte>, at: nat, s: seq<byte>, t: seq<byte>)
    requires At(buf, at, s + t)
    ensures At(buf, at, s) && At(buf, at + |s|, t)
  {
    var whole := buf[at..at + |s + t|];
    assert buf[at..at + |s|] == whole[..|s|] == s;
    assert buf[at + |s|..at + |s| + |t|] == whole[|s|..] == t;
  }

  lemma ReadWordAt(buf: seq<byte>, at: nat, n: nat)
    requires n < TWO_256 && At(buf, at, ToBE(n, 32))
    ensures ReadWord(buf, at) == Some(n)
  {
    WordRoundTrip(n);
  }

  lemma {:induction false} StaticSize(t: Ty, v: Val)
    requires Fits(t, v) && !IsDynamic(t)
    ensures |Enc(t, v)| == HeadSize(t)
    decreases v, 0
  {
    match v
    case Word(_) =>
    case Tuple(parts) =>
      HeadLength(t.parts, parts, HeadSizes(t.parts));
      NoTails(t.parts, parts);
  }

  lemma {:induction false} HeadLength(ts: Tys, vs: Vals, offset: nat)
    requires FitAll(ts, vs)
    ensures |Heads(ts, vs, offset)| == HeadSizes(ts)
    decreases vs, 1
  {
    match vs
    case VNil =>
    case VCons(head, tail) =>
      if IsDynamic(ts.head) {
        HeadLength(ts.tail, tail, offset + |Enc(ts.head, head)|);
      } else {
        StaticSize(ts.head, head);
        HeadLength(ts.tail, tail, offset);
      }
  }

  lemma {:induction false} NoTails(ts: Tys, vs: Vals)
    requires FitAll(ts, vs) && !AnyDynamic(ts)
    ensures Tails(ts, vs) == []
    decreases vs
  {
    match vs
    case VNil =>
    case VCons(_, tail) => NoTails(ts.tail, tail);
  }

  /** Wherever an encoding lies in a buffer, decoding there gives the value back, whatever surrounds it.
      A buffer of 2^256 bytes does not exist, and offsets are words. */
  lemma {:induction false} RoundTrip(t: Ty, v: Val, buf: seq<byte>, at: nat)
    requires Fits(t, v) && |buf| < TWO_256 && At(buf, at, Enc(t, v))
    ensures Dec(t, buf, at) == Some(v)
    decreases v, 0
  {
    match v
    case Word(n) =>
      ReadWordAt(buf, at, n);
    case Blob(data) =>
      AtSplit(buf, at, ToBE(|data|, 32) + data, Zeros(Pad(|data|)));
      AtSplit(buf, at, ToBE(|data|, 32), data);
      ReadWordAt(buf, at, |data|);
    case Tuple(parts) =>
      RoundTripAll(t.parts, parts, buf, at);
    case Array(items) =>
      var ts := Repeat(t.elem, Count(items));
      AtSplit(buf, at, ToBE(Count(items), 32), EncAll(ts, items));
      ReadWordAt(buf, at, Count(items));
      RoundTripAll(ts, items, buf, at + 32);
  }

  lemma {:induction false} RoundTripAll(ts: Tys, vs: Vals, buf: seq<byte>, base: nat)
    requires FitAll(ts, vs) && |buf| < TWO_256 && At(buf, base, EncAll(ts, vs))
    ensures DecAll(ts, buf, base, base) == Some(vs)
    decreases vs, 2
  {
    HeadLength(ts, vs, HeadSizes(ts));
    AtSplit(buf, base, Heads(ts, vs, HeadSizes(ts)), Tails(ts, vs));
    RoundTripParts(ts, vs, buf, base, base, HeadSizes(ts));
  }

  lemma DynamicUnfolds(ts: Tys, vs: Vals, offset: nat)
    requires FitAll(ts, vs) && vs.VCons? && IsDynamic(ts.head)
    ensures HeadSize(ts.head) == 32 && Fits(ts.head, vs.head) && FitAll(ts.tail, vs.tail)
    ensures var e := Enc(ts.head, vs.head);
      && Heads(ts, vs, offset) == ToBE(offset, 32) + Heads(ts.tail, vs.tail, offset + |e|)
      && Tails(ts, vs) == e + Tails(ts.tail, vs.tail)
  {
  }

  /** An offset at one place and what it leads to at another, each with its continuation. */
  lemma HeadAndTail(buf: seq<byte>, at: nat, base: nat, offset: nat, heads: seq<byte>, e: seq<byte>, tails: seq<byte>)
    requires |buf| < TWO_256 && At(buf, at, ToBE(offset, 32) + heads) && At(buf, base + offset, e + tails)
    ensures ReadWord(buf, at) == Some(offset) && At(buf, at + 32, heads)
    ensures At(buf, base + offset, e) && At(buf, base + (offset + |e|), tails)
  {
    AtSplit(buf, at, ToBE(offset, 32), heads);
    AtSplit(buf, base + offset, e, tails);
    ReadWordAt(buf, at, offset);
  }

  lemma DynamicPart(ts: Tys, vs: Vals, buf: seq<byte>, base: nat, at: nat, offset: nat)
    requires FitAll(ts, vs) && |buf| < TWO_256 && vs.VCons? && IsDynamic(ts.head)
    requires At(buf, at, Heads(ts, vs, offset)) && At(buf, base + offset, Tails(ts, vs))
    ensures ReadWord(buf, at) == Some(offset) && HeadSize(ts.head) == 32
    ensures var e := Enc(ts.head, vs.head);
      && At(buf, base + offset, e)
      && At(buf, at + 32, Heads(ts.tail, vs.tail, offset + |e|))
      && At(buf, base + (offset + |e|), Tails(ts.tail, vs.tail))
  {
    var e := Enc(ts.head, vs.head);
    DynamicUnfolds(ts, vs, offset);
    var heads, tails := Heads(ts.tail, vs.tail, offset + |e|), Tails(ts.tail, vs.tail);
    HeadAndTail(buf, at, base, offset, heads, e, tails);
  }

  lemma StaticPart(ts: Tys, vs: Vals, buf: seq<byte>, base: nat, at: nat, offset: nat)
    requires FitAll(ts, vs) && vs.VCons? && !IsDynamic(ts.head)
    requires At(buf, at, Heads(ts, vs, offset)) && At(buf, base + offset, Tails(ts, vs))
    ensures At(buf, at, Enc(ts.head, vs.head))
    ensures At(buf, at + HeadSize(ts.head), Heads(ts.tail, vs.tail, offset))
    ensures At(buf, base + offset, Tails(ts.tail, vs.tail))
  {
    StaticSize(ts.head, vs.head);
    AtSplit(buf, at, Enc(ts.head, vs.head), Heads(ts.tail, vs.tail, offset));
    assert [] + Tails(ts.tail, vs.tail) == Tails(ts.tail, vs.tail);
  }

  /** A member read at its place, and the rest after its head, make up the whole. */
  lemma PartsDecode(ts: Tys, vs: Vals, buf: seq<byte>, base: nat, at: nat, where: nat)
    requires ts.TCons? && vs.VCons? && Place(ts.head, buf, base, at) == Some(where)
    requires Dec(ts.head, buf, where) == Some(vs.head) && DecAll(ts.tail, buf, base, at + HeadSize(ts.head)) == Some(vs.tail)
    ensures DecAll(ts, buf, base, at) == Some(vs)
  {
  }

  lemma {:induction false} DynamicHead(ts: Tys, vs: Vals, buf: seq<byte>, base: nat, at: nat, offset: nat)
    requires FitAll(ts, vs) && |buf| < TWO_256 && vs.VCons? && IsDynamic(ts.head)
    requires At(buf, at, Heads(ts, vs, offset)) && At(buf, base + offset, Tails(ts, vs))
    ensures Place(ts.head, buf, base, at) == Some(base + offset) && Dec(ts.head, buf, base + offset) == Some(vs.head)
    decreases vs, 0
  {
    DynamicPart(ts, vs, buf, base, at, offset);
    RoundTrip(ts.head, vs.head, buf, base + offset);
  }

  lemma {:induction false} StaticHead(ts: Tys, vs: Vals, buf: seq<byte>, base: nat, at: nat, offset: nat)
    requires FitAll(ts, vs) && |buf| < TWO_256 && vs.VCons? && !IsDynamic(ts.head)
    requires At(buf, at, Heads(ts, vs, offset)) && At(buf, base + offset, Tails(ts, vs))
    ensures Place(ts.head, buf, base, at) == Some(at) && Dec(ts.head, buf, at) == Some(vs.head)
    decreases vs, 0
  {
    StaticPart(ts, vs, buf, base, at, offset);
    RoundTrip(ts.head, vs.head, buf, at);
  }

  lemma {:induction false} DynamicRest(ts: Tys, vs: Vals, buf: seq<byte>, base: nat, at: nat, offset: nat)
    requires FitAll(ts, vs) && |buf| < TWO_256 && vs.VCons? && IsDynamic(ts.head)
    requires At(buf, at, Heads(ts, vs, offset)) && At(buf, base + offset, Tails(ts, vs))
    ensures DecAll(ts.tail, buf, base, at + HeadSize(ts.head)) == Some(vs.tail)
    decreases vs, 0
  {
    DynamicPart(ts, vs, buf, base, at, offset);
    RoundTripParts(ts.tail, vs.tail, buf, base, at + 32, offset + |Enc(ts.head, vs.head)|);
  }

  lemma {:induction false} StaticRest(ts: Tys, vs: Vals, buf: seq<byte>, base: nat, at: nat, offset: nat)
    requires FitAll(ts, vs) && |buf| < TWO_256 && vs.VCons? && !IsDynamic(ts.head)
    requires At(buf, at, Heads(ts, vs, offset)) && At(buf, base + offset, Tails(ts, vs))
    ensures DecAll(ts.tail, buf, base, at + HeadSize(ts.head)) == Some(vs.tail)
    decreases vs, 0
  {
    StaticPart(ts, vs, buf, base, at, offset);
    RoundTripParts(ts.tail, vs.tail, buf, base, at + HeadSize(ts.head), offset);
  }

  lemma {:induction false} RoundTripParts(ts: Tys, vs: Vals, buf: seq<byte>, base: nat, at: nat, offset: nat)
    requires FitAll(ts, vs) && |buf| < TWO_256
    requires At(buf, at, Heads(ts, vs, offset)) && At(buf, base + offset, Tails(ts, vs))
    ensures DecAll(ts, buf, base, at) == Some(vs)
    decreases vs, 1
  {
    if vs.VCons? {
      if IsDynamic(ts.head) {
        DynamicHead(ts, vs, buf, base, at, offset);
        DynamicRest(ts, vs, buf, base, at, offset);
        PartsDecode(ts, vs, buf, base, at, base + offset);
      } else {
        StaticHead(ts, vs, buf, base, at, offset);
        StaticRest(ts, vs, buf, base, at, offset);
        PartsDecode(ts, vs, buf, base, at, at);
      }
    }
  }
}
