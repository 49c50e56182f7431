/** The event loop: replaying the chain's Permit2 logs into the authorization store. */
module EventLoop {
  import opened Bytes
  import opened Events
  import opened Polling
  import opened Runs
  import opened Store
  import opened StoreHistory

  type Rows = seq<Authorization>

  function Replay(ours: string -> bool, rows: Rows, logs: seq<Log>): Rows {
    ApplyAll(rows, LogOps(ours, logs))
  }

  /** What delivering logs does to the store, for an agent filter `ours`. */
  function Delivery(ours: string -> bool): (Rows, seq<Log>) -> Rows {
    (rows, logs) => Replay(ours, rows, logs)
  }

  class Loop {
    const config: Config
    const ours: string -> bool
    const store: MemoryStore
    var watermark: nat

    constructor (config: Config, ours: string -> bool, store: MemoryStore, watermark: nat)
      ensures this.config == WithDefaults(config) && this.ours == ours && this.store == store && this.watermark == watermark
    {
      this.config := WithDefaults(config);
      this.ours := ours;
      this.store := store;
      this.watermark := watermark;
    }

    method ApplyPermit2(l: Log)
      modifies store
      ensures store.rows == Replay(ours, old(store.rows), [l])
    {
      RunSnoc(Apply, store.rows, [], LogOp(ours, l).GetOr(Lock("", "", "")));
      assert [l][..0] == [] && LogOps(ours, []) == [];
      if |l.topics| > 0 && l.topics[0] == TOPIC_PERMIT {
        var ev := DecodePermit(l);
        if ev.Err? || !ours(ev.value.spender) {
          return;
        }
        var v := ev.value;
        var _ := store.Upsert(Authorization(v.owner, v.spender, v.token, v.amountAtoms, v.expiration, v.nonce, "", "", false, false,
                                            Int64(l.block)));
      } else if |l.topics| > 0 && l.topics[0] == TOPIC_LOCKDOWN {
        var ev := DecodeLockdown(l);
        if ev.Err? || !ours(ev.value.spender) {
          return;
        }
        store.MarkLocked(ev.value.owner, ev.value.spender, ev.value.token);
      }
    }

    /** Returns whether the transfer was taken for one of ours; it never is. */
    method ApplyTransfer(l: Log) returns (booked: bool)
      ensures !booked
    {
      var ev := DecodeTransfer(l);
      if ev.Err? {
        return false;
      }
      TransfersAreNeverBooked(store.rows, ev.value);
      var row := store.PickActive(ForOwner(ev.value.from, ev.value.token, MAX_INT64));
      return row.Ok?;
    }

    method Deliver(logs: seq<Log>)
      modifies store
      ensures store.rows == Replay(ours, old(store.rows), logs)
    {
      assert LogOps(ours, []) == [];
      for i := 0 to |logs|
        invariant store.rows == Replay(ours, old(store.rows), logs[..i])
      {
        assert logs[..i + 1] == logs[..i] + [logs[i]];
        LogOpsSum(ours, logs[..i], [logs[i]]);
        RunSum(Apply, old(store.rows), LogOps(ours, logs[..i]), LogOps(ours, [logs[i]]));
        ApplyPermit2(logs[i]);
      }
      assert logs[..|logs|] == logs;
    }

    /** The part of a tick behind the watermark: filter, apply, reconcile transfers, save. */
    method ProcessWindow(h: History<Log>, transfers: seq<Log>, w: Weather) returns (ok: bool)
      requires w.head.Some?
      modifies this, store
      ensures store.rows == Replay(ours, old(store.rows), Delivered(config, h, old(watermark), w))
      ensures watermark == if Saves(w) then WindowEnd(config, old(watermark), w.head.value) else old(watermark)
      ensures ok <==> Saves(w)
    {
      var to := WindowEnd(config, watermark, w.head.value);
      if !w.filterOk {
        assert Replay(ours, store.rows, []) == store.rows;
        return false;
      }
      var logs := Window(h, watermark + 1, to);
      Deliver(if w.diesAfter.Some? then logs[..Min(w.diesAfter.value, |logs|)] else logs);
      if w.diesAfter.Some? {
        return false;
      }
      for i := 0 to |transfers|
        modifies {}
      {
        var _ := ApplyTransfer(transfers[i]);
      }
      if !w.saveOk {
        return false;
      }
      watermark := to;
      return true;
    }

    method Tick(h: History<Log>, transfers: seq<Log>, w: Weather) returns (ok: bool)
      modifies this, store
      ensures LoopState(store.rows, watermark) == TickStep(config, h, Delivery(ours), old(LoopState(store.rows, watermark)), w)
      ensures ok <==> Completes(config, old(watermark), w)
    {
      if w.head.None? || !w.readOk {
        return false;
      }
      if watermark == 0 {
        if !w.seedOk {
          return false;
        }
        watermark := Seed(config, w.head.value);
      }
      if watermark >= w.head.value {
        return true;
      }
      ok := ProcessWindow(h, transfers, w);
    }
  }
}
