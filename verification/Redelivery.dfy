/** Retried deliveries of Permit2 logs, and what a single log changes. */
module Redelivery {
  import opened Events
  import opened EventLoop
  import opened Polling
  import opened Retries
  import opened Runs
  import opened Store
  import opened StoreHistory
  import opened Wrappers

  lemma ReplaySum(ours: string -> bool, rows: Rows, p: seq<Log>, q: seq<Log>)
    ensures Replay(ours, rows, p + q) == Replay(ours, Replay(ours, rows, p), q)
  {
    LogOpsSum(ours, p, q);
    RunSum(Apply, rows, LogOps(ours, p), LogOps(ours, q));
  }

  /** Applying part of a batch and later all of it is applying it once. */
  lemma PartAbsorbed(ours: string -> bool, rows: Rows, logs: seq<Log>, k: nat)
    requires Distinct(rows) && k <= |logs|
    ensures Replay(ours, Replay(ours, rows, logs[..k]), logs) == Replay(ours, rows, logs)
  {
    LogOpsSum(ours, logs[..k], logs[k..]);
    assert logs == logs[..k] + logs[k..];
    LogsAreObserved(ours, logs);
    PrefixAbsorbed(rows, LogOps(ours, logs[..k]), LogOps(ours, logs));
  }

  lemma DeliveryIsLawful(ours: string -> bool)
    ensures Lawful(Delivery(ours), Distinct)
  {
    var deliver := Delivery(ours);
    forall x: Rows ensures deliver(x, []) == x {
      assert LogOps(ours, []) == [];
    }
    forall x: Rows, p, q ensures deliver(x, p + q) == deliver(deliver(x, p), q) {
      ReplaySum(ours, x, p, q);
    }
    forall x: Rows, p, k: nat | Distinct(x) && k <= |p| ensures deliver(deliver(x, p[..k]), p) == deliver(x, p) {
      PartAbsorbed(ours, x, p, k);
    }
    forall x: Rows, p | Distinct(x) ensures Distinct(deliver(x, p)) {
      DistinctKept(x, LogOps(ours, p));
    }
  }

  // ---- the store after retries ----

  predicate AppliedOnce(ours: string -> bool, h: History<Log>, s: LoopState<Rows>, origin: nat, t: LoopState<Rows>) {
    if origin == 0 then t == s else t.store == ApplyAll(s.store, LogOps(ours, Window(h, origin + 1, t.watermark)))
  }

  /** One application, row for row and in order, of every Permit2 log from the first watermark or seed up to the present one. */
  predicate OnePass(c: Config, ours: string -> bool, h: History<Log>, s: LoopState<Rows>, ws: seq<Weather>) {
    AppliedOnce(ours, h, s, Origin(c, s.watermark, ws), Ticks(c, h, Delivery(ours), s, ws))
  }

  lemma OnePassOfLogs(ours: string -> bool, h: History<Log>, s: LoopState<Rows>, origin: nat, t: LoopState<Rows>)
    requires IsOnePass(h, Delivery(ours), s, origin, t)
    ensures AppliedOnce(ours, h, s, origin, t)
  {
  }

  /**
   Retried delivery refines one pass, for the store itself: with ticks failing anywhere and heads going anywhere, whenever the
   watermark has reached the end of every window delivered from.
   */
  lemma StoreIsOnePass(c: Config, ours: string -> bool, h: History<Log>, s: LoopState<Rows>, ws: seq<Weather>)
    requires c.Valid() && Distinct(s.store) && forall i :: 0 <= i < |ws| ==> Fits(c, ws[i])
    requires CaughtUp(c, s.watermark, ws)
    ensures OnePass(c, ours, h, s, ws)
  {
    DeliveryIsLawful(ours);
    RetryRefinesOnePass(c, h, Delivery(ours), Distinct, s, ws);
    OnePassOfLogs(ours, h, s, Origin(c, s.watermark, ws), Ticks(c, h, Delivery(ours), s, ws));
  }

  /** In particular after every completed tick, as long as reported heads do not go back. */
  lemma StoreAfterRetries(c: Config, ours: string -> bool, h: History<Log>, s: LoopState<Rows>, ws: seq<Weather>)
    requires c.Valid() && Distinct(s.store) && Rising(ws) && forall i :: 0 <= i < |ws| ==> Fits(c, ws[i])
    requires ws != [] && Completes(c, Mark(c, s.watermark, ws[..|ws| - 1]), ws[|ws| - 1])
    ensures OnePass(c, ours, h, s, ws)
  {
    RisingHeadsCatchUp(c, s.watermark, ws);
    StoreIsOnePass(c, ours, h, s, ws);
  }

  // ---- deliveries past the watermark ----

  /** A chain whose only log is in block `e`. */
  function OneBlock(e: nat, l: Log): History<Log> {
    b => if b == e then [l] else []
  }

  lemma {:induction false} OneBlockWindow(e: nat, l: Log, from: nat, end: nat)
    ensures Window(OneBlock(e, l), from, end) == if from <= e <= end then [l] else []
    decreases end
  {
    if from <= end && end > 0 {
      OneBlockWindow(e, l, from, end - 1);
    }
  }

  lemma SingleLog(ours: string -> bool, rows: Rows, l: Log, op: Op)
    requires LogOp(ours, l) == Some(op)
    ensures Replay(ours, rows, [l]) == Apply(rows, op)
  {
    assert [l][..0] == [] && LogOps(ours, []) == [];
    assert LogOps(ours, [l]) == [op];
    RunSnoc(Apply, rows, [], op);
    assert [] + [op] == [op];
  }

  lemma PutIsListed(rows: Rows, a: Authorization)
    ensures IdOf(a) in Ids(Apply(rows, Put(a)))
  {
    FoundIffListed(rows, IdOf(a));
    IdsApply(rows, Put(a));
  }

  lemma RowsStayListed(ours: string -> bool, rows: Rows, logs: seq<Log>, id: Id)
    requires Distinct(rows) && id in Ids(rows)
    ensures id in Ids(Replay(ours, rows, logs)) && Distinct(Replay(ours, rows, logs))
  {
    DistinctKept(rows, LogOps(ours, logs));
    var i :| 0 <= i < |Ids(rows)| && Ids(rows)[i] == id;
    assert Ids(Replay(ours, rows, logs))[i] == id;
  }

  lemma TickKeepsRow(c: Config, ours: string -> bool, h: History<Log>, s: LoopState<Rows>, w: Weather, id: Id)
    requires Distinct(s.store)
    ensures Distinct(TickStep(c, h, Delivery(ours), s, w).store)
    ensures id in Ids(s.store) ==> id in Ids(TickStep(c, h, Delivery(ours), s, w).store)
  {
    var start := Start(c, s.watermark, w);
    if start.Some? && start.value < w.head.value {
      var logs := Delivered(c, h, start.value, w);
      DistinctKept(s.store, LogOps(ours, logs));
      if id in Ids(s.store) {
        RowsStayListed(ours, s.store, logs, id);
      }
    }
  }

  /** A tick that touches the block delivers its log. */
  lemma TickBringsRow(c: Config, ours: string -> bool, s: LoopState<Rows>, w: Weather, e: nat, l: Log, a: Authorization)
    requires c.Valid() && Fits(c, w) && LogOp(ours, l) == Some(Put(a)) && e > 0 && Touched(c, s.watermark, w) == e
    ensures IdOf(a) in Ids(TickStep(c, OneBlock(e, l), Delivery(ours), s, w).store)
  {
    var start := Start(c, s.watermark, w).value;
    WindowEndMeaning(c, start, w.head.value);
    OneBlockWindow(e, l, start + 1, e);
    assert Delivered(c, OneBlock(e, l), start, w) == [l];
    SingleLog(ours, s.store, l, Put(a));
    PutIsListed(s.store, a);
  }

  lemma {:induction false} RunBringsRow(c: Config, ours: string -> bool, s: LoopState<Rows>, ws: seq<Weather>, e: nat, l: Log, a: Authorization)
    requires c.Valid() && Distinct(s.store) && LogOp(ours, l) == Some(Put(a)) && forall i :: 0 <= i < |ws| ==> Fits(c, ws[i])
    ensures Distinct(Ticks(c, OneBlock(e, l), Delivery(ours), s, ws).store)
    ensures e > 0 && Furthest(c, s.watermark, ws) == e ==> IdOf(a) in Ids(Ticks(c, OneBlock(e, l), Delivery(ours), s, ws).store)
  {
    if ws == [] {
    } else {
      var front, w := ws[..|ws| - 1], ws[|ws| - 1];
      var h := OneBlock(e, l);
      assert front + [w] == ws && forall i :: 0 <= i < |front| ==> front[i] == ws[i];
      RunBringsRow(c, ours, s, front, e, l, a);
      TicksMark(c, h, Delivery(ours), s, front);
      TicksSnoc(c, h, Delivery(ours), s, front, w);
      var before := Ticks(c, h, Delivery(ours), s, front);
      TickKeepsRow(c, ours, h, before, w, IdOf(a));
      if e > 0 && Touched(c, before.watermark, w) == e {
        TickBringsRow(c, ours, before, w, e, l, a);
      }
    }
  }

  lemma {:induction false} OverrunShows(c: Config, ours: string -> bool, s: LoopState<Rows>, ws: seq<Weather>, l: Log, a: Authorization,
                                        h: History<Log>, t: LoopState<Rows>)
    requires c.Valid() && Distinct(s.store) && forall i :: 0 <= i < |ws| ==> Fits(c, ws[i])
    requires LogOp(ours, l) == Some(Put(a)) && IdOf(a) !in Ids(s.store) && !CaughtUp(c, s.watermark, ws)
    requires h == OneBlock(Furthest(c, s.watermark, ws), l) && t == Ticks(c, h, Delivery(ours), s, ws)
    ensures !AppliedOnce(ours, h, s, Origin(c, s.watermark, ws), t)
  {
    var e, origin := Furthest(c, s.watermark, ws), Origin(c, s.watermark, ws);
    RunBringsRow(c, ours, s, ws, e, l, a);
    TicksMark(c, h, Delivery(ours), s, ws);
    NothingUpTo(e, l, origin, t.watermark);
    NotThatPass(ours, h, s, origin, t, IdOf(a));
  }

  lemma NothingUpTo(e: nat, l: Log, origin: nat, watermark: nat)
    requires watermark < e
    ensures Window(OneBlock(e, l), origin + 1, watermark) == []
  {
    OneBlockWindow(e, l, origin + 1, watermark);
  }

  lemma NotThatPass(ours: string -> bool, h: History<Log>, s: LoopState<Rows>, origin: nat, t: LoopState<Rows>, id: Id)
    requires id in Ids(t.store) && id !in Ids(s.store) && Window(h, origin + 1, t.watermark) == []
    ensures !AppliedOnce(ours, h, s, origin, t)
  {
    assert LogOps(ours, []) == [];
  }

  /**
   Exactly when retries do not show. For ticks that fail or are cut short anywhere under any heads, and as long as some log
   could bring a row the store does not have: whatever the chain's logs are, the store is that of one pass, if and only if
   the watermark has reached the end of every window delivered from.
   */
  lemma OnePassExactly(c: Config, ours: string -> bool, s: LoopState<Rows>, ws: seq<Weather>, l: Log, a: Authorization)
    requires c.Valid() && Distinct(s.store) && forall i :: 0 <= i < |ws| ==> Fits(c, ws[i])
    requires LogOp(ours, l) == Some(Put(a)) && IdOf(a) !in Ids(s.store)
    ensures (forall h: History<Log> :: OnePass(c, ours, h, s, ws)) <==> CaughtUp(c, s.watermark, ws)
  {
    if CaughtUp(c, s.watermark, ws) {
      forall h: History<Log> ensures OnePass(c, ours, h, s, ws) {
        StoreIsOnePass(c, ours, h, s, ws);
      }
    } else {
      var h := OneBlock(Furthest(c, s.watermark, ws), l);
      OverrunShows(c, ours, s, ws, l, a, h, Ticks(c, h, Delivery(ours), s, ws));
      assert !OnePass(c, ours, h, s, ws);
    }
  }

  // ---- submissions and spends between deliveries ----

  /**
   What delivering a window again can do to a row that submissions and spends have changed since a part `p` of it was first
   delivered. Its counter is kept. If the window holds a Permit log of the row, everything else is as one pass leaves it, so a
   submission in between is undone, signature and all. If it holds none, the row is as it was, but for a Lockdown.
   */
  lemma RedeliveryOverrides(rows: Rows, p: seq<Op>, between: seq<Op>, ops: seq<Op>, id: Id)
    requires Observed(ops) && Lookup(ApplyAll(ApplyAll(rows, p), between), id).Some?
    ensures var x := Lookup(ApplyAll(ApplyAll(rows, p), between), id);
      var y := Lookup(ApplyAll(ApplyAll(ApplyAll(rows, p), between), ops), id);
      && y.Some? && OrZero(y.value.spentAtoms) == OrZero(x.value.spentAtoms)
      && (HasPut(ops, id) ==>
        Lookup(ApplyAll(rows, ops), id).Some? && Core(y.value) == Core(Lookup(ApplyAll(rows, ops), id).value))
      && (!HasPut(ops, id) ==> y.value in {x.value, x.value.(onchainLocked := true)})
  {
    var now := ApplyAll(ApplyAll(rows, p), between);
    var x := Lookup(now, id);
    LookupApplyAll(now, ops, id);
    LookupApplyAll(rows, ops, id);
    RowCounters(ops, id, x);
    if HasPut(ops, id) {
      RowForgets(ops, id, x, Lookup(rows, id));
      OrZeroTwice(x.value.spentAtoms);
    } else {
      RowWithoutPut(ops, id, x);
    }
  }

  lemma OnRowSigns(x: Option<Authorization>, id: Id, op: Op)
    requires x.Some? && (op.Put? ==> !Signed(op.a))
    ensures OnRow(x, id, op).Some? && (Signed(OnRow(x, id, op).value) <==> Signed(x.value) && !op.Puts(id))
  {
  }

  lemma {:induction false} LogsNeverSign(ops: seq<Op>, id: Id, x: Option<Authorization>)
    requires x.Some? && forall i :: 0 <= i < |ops| && ops[i].Put? ==> !Signed(ops[i].a)
    ensures var y := RowAfter(x, id, ops); y.Some? && (Signed(y.value) <==> Signed(x.value) && !HasPut(ops, id))
  {
    if ops == [] {
    } else {
      LogsNeverSign(ops[..|ops| - 1], id, x);
      OnRowSigns(RowAfter(x, id, ops[..|ops| - 1]), id, ops[|ops| - 1]);
    }
  }

  lemma {:induction false} LogsAreUnsigned(ours: string -> bool, logs: seq<Log>)
    ensures forall i :: 0 <= i < |LogOps(ours, logs)| && LogOps(ours, logs)[i].Put? ==> !Signed(LogOps(ours, logs)[i].a)
  {
    if logs == [] {
    } else {
      LogsAreUnsigned(ours, logs[..|logs| - 1]);
    }
  }

  /** Whenever it is made, a delivery leaves a row signed exactly when it was signed and the delivery holds no Permit log of it. */
  lemma RedeliveryUnsigns(ours: string -> bool, rows: Rows, logs: seq<Log>, id: Id)
    requires Lookup(rows, id).Some?
    ensures var y := Lookup(Replay(ours, rows, logs), id);
      y.Some? && (Signed(y.value) <==> Signed(Lookup(rows, id).value) && !HasPut(LogOps(ours, logs), id))
  {
    LookupApplyAll(rows, LogOps(ours, logs), id);
    LogsAreUnsigned(ours, logs);
    LogsNeverSign(LogOps(ours, logs), id, Lookup(rows, id));
  }
}
