/** Decoding the Permit2 and token logs the event loop reads. */
module Events {
  import opened Bytes
  import opened Store
  import opened StoreHistory
  import opened Text
  import opened Wrappers

  type word = n: nat | n < TWO_256

  /** A chain log: its contract, topics, data and block. */
  datatype Log = Log(address: Address, topics: seq<word>, data: seq<byte>, block: nat)

  datatype PermitEvent = PermitEvent(owner: string, token: string, spender: string, amountAtoms: string, expiration: int64, nonce: int64)
  datatype LockdownEvent = LockdownEvent(owner: string, token: string, spender: string)
  datatype TransferEvent = TransferEvent(token: string, from: string, to: string, valueAtoms: string)

  datatype LogError = WrongTopics | WrongDataLength

  // Keccak-256 of the canonical event signatures.
  const TOPIC_PERMIT: word := 0xc6a377bfc4eb120024a8ac08eef205be16b817020812c73223e81d1bdb9708ec
  const TOPIC_LOCKDOWN: word := 0x89b1add15eff56b3dfe299ad94e01f2b52fbcb80ae1a3baea6ae8c04cb2b98a4
  const TOPIC_TRANSFER: word := 0xddf252ad1be2c89b69c2b068fc378daa952ba7f163c4a11628f55a4df523b3ef

  function TopicAddress(w: word): (s: string)
    ensures LooksLikeAddress(s)
  {
    AddressHex(w % TWO_160)
  }

  function DecodePermit(l: Log): Result<PermitEvent, LogError> {
    if |l.topics| != 4 || l.topics[0] != TOPIC_PERMIT then Err(WrongTopics)
    else if |l.data| != 96 then Err(WrongDataLength)
    else
      Ok(PermitEvent(TopicAddress(l.topics[1]), TopicAddress(l.topics[2]), TopicAddress(l.topics[3]),
                     PrintInt(FromBE(l.data[0..32])), Int64(FromBE(l.data[32..64])), Int64(FromBE(l.data[64..96]))))
  }

  function DecodeLockdown(l: Log): Result<LockdownEvent, LogError> {
    if |l.topics| != 4 || l.topics[0] != TOPIC_LOCKDOWN then Err(WrongTopics)
    else Ok(LockdownEvent(TopicAddress(l.topics[1]), TopicAddress(l.topics[2]), TopicAddress(l.topics[3])))
  }

  function DecodeTransfer(l: Log): Result<TransferEvent, LogError> {
    if |l.topics| != 3 || l.topics[0] != TOPIC_TRANSFER then Err(WrongTopics)
    else if |l.data| != 32 then Err(WrongDataLength)
    else Ok(TransferEvent(AddressHex(l.address), TopicAddress(l.topics[1]), TopicAddress(l.topics[2]), PrintInt(FromBE(l.data))))
  }

  // ---- decoding undoes the contract's encoding ----

  /** The log Permit2 emits for an approval. */
  function PermitLog(contract: Address, owner: Address, token: Address, spender: Address,
                     amount: word, expiration: word, nonce: word, block: nat): Log {
    Log(contract, [TOPIC_PERMIT, owner, token, spender], ToBE(amount, 32) + ToBE(expiration, 32) + ToBE(nonce, 32), block)
  }

  lemma ThreeWords(a: seq<byte>, b: seq<byte>, c: seq<byte>)
    requires |a| == |b| == |c| == 32
    ensures var d := a + b + c; d[0..32] == a && d[32..64] == b && d[64..96] == c
  {
    var d := a + b + c;
    assert d[32..64] == (a + b)[32..64] == b;
    assert d[64..96] == d[|a + b|..] == c;
  }

  lemma DecodedWords(l: Log, owner: Address, token: Address, spender: Address, amount: word, expiration: word, nonce: word)
    requires l.topics == [TOPIC_PERMIT, owner, token, spender] && |l.data| == 96
    requires FromBE(l.data[0..32]) == amount && FromBE(l.data[32..64]) == expiration && FromBE(l.data[64..96]) == nonce
    ensures DecodePermit(l) ==
            Ok(PermitEvent(AddressHex(owner), AddressHex(token), AddressHex(spender), PrintInt(amount), Int64(expiration), Int64(nonce)))
  {
    assert owner % TWO_160 == owner && token % TWO_160 == token && spender % TWO_160 == spender;
  }

  lemma DecodedData(amount: word, expiration: word, nonce: word)
    ensures var d := ToBE(amount, 32) + ToBE(expiration, 32) + ToBE(nonce, 32);
      FromBE(d[0..32]) == amount && FromBE(d[32..64]) == expiration && FromBE(d[64..96]) == nonce
  {
    WordRoundTrip(amount);
    WordRoundTrip(expiration);
    WordRoundTrip(nonce);
    ThreeWords(ToBE(amount, 32), ToBE(expiration, 32), ToBE(nonce, 32));
  }

  lemma DecodedLog(contract: Address, owner: Address, token: Address, spender: Address,
                   amount: word, expiration: word, nonce: word, block: nat)
    returns (ev: PermitEvent)
    ensures DecodePermit(PermitLog(contract, owner, token, spender, amount, expiration, nonce, block)) == Ok(ev)
    ensures ev ==
      PermitEvent(AddressHex(owner), AddressHex(token), AddressHex(spender), PrintInt(amount), Int64(expiration), Int64(nonce))
  {
    DecodedData(amount, expiration, nonce);
    DecodedWords(PermitLog(contract, owner, token, spender, amount, expiration, nonce, block),
                 owner, token, spender, amount, expiration, nonce);
    ev := PermitEvent(AddressHex(owner), AddressHex(token), AddressHex(spender), PrintInt(amount), Int64(expiration), Int64(nonce));
  }

  lemma Int64Exactly(n: word)
    ensures Int64(n) == n <==> n < TWO_63
  {
  }

  /** The event gives back every field; a 256-bit time or nonce survives exactly when it is below 2^63, as every uint48 is. */
  lemma PermitEventRoundTrip(contract: Address, owner: Address, token: Address, spender: Address,
                             amount: word, expiration: word, nonce: word, block: nat)
    returns (ev: PermitEvent)
    ensures DecodePermit(PermitLog(contract, owner, token, spender, amount, expiration, nonce, block)) == Ok(ev)
    ensures IsHexAddress(ev.owner) && HexToAddress(ev.owner) == owner
    ensures IsHexAddress(ev.token) && HexToAddress(ev.token) == token
    ensures IsHexAddress(ev.spender) && HexToAddress(ev.spender) == spender
    ensures ParseInt(ev.amountAtoms) == Some(amount)
    ensures ev.expiration == expiration <==> expiration < TWO_63
    ensures ev.nonce == nonce <==> nonce < TWO_63
  {
    ev := DecodedLog(contract, owner, token, spender, amount, expiration, nonce, block);
    AddressRoundTrip(owner);
    AddressRoundTrip(token);
    AddressRoundTrip(spender);
    ParsePrint(amount);
    Int64Exactly(expiration);
    Int64Exactly(nonce);
  }

  /** A Lockdown log gives back its three addresses in their places. */
  lemma LockdownEventRoundTrip(contract: Address, owner: Address, token: Address, spender: Address, data: seq<byte>, block: nat)
    returns (ev: LockdownEvent)
    ensures DecodeLockdown(Log(contract, [TOPIC_LOCKDOWN, owner, token, spender], data, block)) == Ok(ev)
    ensures IsHexAddress(ev.owner) && HexToAddress(ev.owner) == owner
    ensures IsHexAddress(ev.token) && HexToAddress(ev.token) == token
    ensures IsHexAddress(ev.spender) && HexToAddress(ev.spender) == spender
  {
    assert owner % TWO_160 == owner && token % TWO_160 == token && spender % TWO_160 == spender;
    ev := LockdownEvent(AddressHex(owner), AddressHex(token), AddressHex(spender));
    AddressRoundTrip(owner);
    AddressRoundTrip(token);
    AddressRoundTrip(spender);
  }

  /** A token transfer gives back the token, both parties and the value. */
  lemma TransferEventRoundTrip(token: Address, from: Address, to: Address, value: word, block: nat) returns (ev: TransferEvent)
    ensures DecodeTransfer(Log(token, [TOPIC_TRANSFER, from, to], ToBE(value, 32), block)) == Ok(ev)
    ensures IsHexAddress(ev.token) && HexToAddress(ev.token) == token
    ensures IsHexAddress(ev.from) && HexToAddress(ev.from) == from
    ensures IsHexAddress(ev.to) && HexToAddress(ev.to) == to
    ensures ParseInt(ev.valueAtoms) == Some(value)
  {
    assert from % TWO_160 == from && to % TWO_160 == to;
    WordRoundTrip(value);
    ev := TransferEvent(AddressHex(token), AddressHex(from), AddressHex(to), PrintInt(value));
    AddressRoundTrip(token);
    AddressRoundTrip(from);
    AddressRoundTrip(to);
    ParsePrint(value);
  }

  // ---- what a log does to the store ----

  /** The store operation a Permit2 log stands for; malformed logs and agents of others stand for none. */
  function LogOp(ours: string -> bool, l: Log): Option<Op> {
    if |l.topics| > 0 && l.topics[0] == TOPIC_PERMIT then
      match DecodePermit(l)
      case Err(_) => None
      case Ok(ev) =>
        if !ours(ev.spender) then None
        else
          Some(Put(Authorization(ev.owner, ev.spender, ev.token, ev.amountAtoms, ev.expiration, ev.nonce, "", "", false, false,
                                 Int64(l.block))))
    else if |l.topics| > 0 && l.topics[0] == TOPIC_LOCKDOWN then
      match DecodeLockdown(l)
      case Err(_) => None
      case Ok(ev) => if !ours(ev.spender) then None else Some(Lock(ev.owner, ev.spender, ev.token))
    else None
  }

  function LogOps(ours: string -> bool, logs: seq<Log>): seq<Op> {
    if logs == [] then []
    else
      var op := LogOp(ours, logs[|logs| - 1]);
      LogOps(ours, logs[..|logs| - 1]) + (if op.Some? then [op.value] else [])
  }

  lemma {:induction false} LogOpsSum(ours: string -> bool, p: seq<Log>, q: seq<Log>)
    ensures LogOps(ours, p + q) == LogOps(ours, p) + LogOps(ours, q)
  {
    if q == [] {
      assert p + q == p;
    } else {
      var n := |q| - 1;
      LogOpsSum(ours, p, q[..n]);
      assert (p + q)[..|p + q| - 1] == p + q[..n];
    }
  }

  lemma {:induction false} LogsAreObserved(ours: string -> bool, logs: seq<Log>)
    ensures Observed(LogOps(ours, logs))
  {
    if logs == [] {
    } else {
      LogsAreObserved(ours, logs[..|logs| - 1]);
    }
  }

  /** A Lockdown log is honoured exactly when all three addresses are topics; with any of them in the data it is dropped. */
  lemma LockdownNeedsItsTopics(ours: string -> bool, l: Log)
    requires |l.topics| > 0 && l.topics[0] == TOPIC_LOCKDOWN
    ensures LogOp(ours, l).Some? <==> |l.topics| == 4 && ours(TopicAddress(l.topics[3]))
    ensures LogOp(ours, l).Some? ==>
      LogOp(ours, l).value == Lock(TopicAddress(l.topics[1]), TopicAddress(l.topics[3]), TopicAddress(l.topics[2]))
  {
    assert TOPIC_LOCKDOWN != TOPIC_PERMIT;
  }

  /** A Lockdown log with the owner for its only topic, and the token and the spender in its data. */
  function LockdownInData(contract: Address, owner: Address, token: Address, spender: Address, block: nat): Log {
    Log(contract, [TOPIC_LOCKDOWN, owner], ToBE(token, 32) + ToBE(spender, 32), block)
  }

  lemma TwoWords(a: word, b: word)
    ensures var d := ToBE(a, 32) + ToBE(b, 32); |d| == 64 && FromBE(d[..32]) == a && FromBE(d[32..]) == b
  {
    WordRoundTrip(a);
    WordRoundTrip(b);
    var d := ToBE(a, 32) + ToBE(b, 32);
    assert d[..32] == ToBE(a, 32) && d[32..] == ToBE(b, 32);
  }

  lemma PaddedAddress(a: Address)
    ensures TopicAddress(a) == AddressHex(a)
  {
    assert a % TWO_160 == a;
  }

  /** With three topics the log is a lock on the row of these accounts. */
  lemma LockdownInTopicsLocks(ours: string -> bool, l: Log, owner: Address, token: Address, spender: Address)
    requires l.topics == [TOPIC_LOCKDOWN, owner, token, spender] && ours(AddressHex(spender))
    ensures LogOp(ours, l) == Some(Lock(AddressHex(owner), AddressHex(spender), AddressHex(token)))
  {
    PaddedAddress(owner);
    PaddedAddress(token);
    PaddedAddress(spender);
    LockdownNeedsItsTopics(ours, l);
  }

  /** Such a log names the same three accounts and is dropped, whoever the spender is; with three topics it is a lock. */
  lemma LockdownInDataIsDropped(ours: string -> bool, contract: Address, owner: Address, token: Address, spender: Address, block: nat)
    ensures var l := LockdownInData(contract, owner, token, spender, block);
      && |l.data| == 64 && FromBE(l.data[..32]) == token && FromBE(l.data[32..]) == spender
      && DecodeLockdown(l) == Err(WrongTopics) && LogOp(ours, l).None?
      && (ours(AddressHex(spender)) ==>
        LogOp(ours, Log(contract, [TOPIC_LOCKDOWN, owner, token, spender], l.data, block)) ==
        Some(Lock(AddressHex(owner), AddressHex(spender), AddressHex(token))))
  {
    var l := LockdownInData(contract, owner, token, spender, block);
    TwoWords(token, spender);
    LockdownNeedsItsTopics(ours, l);
    if ours(AddressHex(spender)) {
      LockdownInTopicsLocks(ours, Log(contract, [TOPIC_LOCKDOWN, owner, token, spender], l.data, block), owner, token, spender);
    }
  }

  // ---- token transfers ----

  const MAX_INT64: int64 := 0x7FFF_FFFF_FFFF_FFFF

  /** The spend a token transfer would be booked as, had a row for it been found. */
  function TransferOp(rows: seq<Authorization>, ev: TransferEvent): Option<Op> {
    match Pick(rows, ForOwner(ev.from, ev.token, MAX_INT64))
    case Err(_) => None
    case Ok(row) => Some(Bump(IdOf(row), ParseInt(ev.valueAtoms).GetOr(0)))
  }

  /**
   Reconciling transfers asks for a row that expires after the last 64-bit second. No row does, so every transfer is
   taken for somebody else's and nothing is ever booked.
   */
  lemma TransfersAreNeverBooked(rows: seq<Authorization>, ev: TransferEvent)
    ensures TransferOp(rows, ev).None?
  {
    PickSelectsNewest(rows, ForOwner(ev.from, ev.token, MAX_INT64));
  }
}
