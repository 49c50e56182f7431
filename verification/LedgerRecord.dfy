/** The off-chain record of a permit's spending against the allowance the contract holds. */
module LedgerRecord {
  import opened Authorize
  import opened Contract
  import opened Ledger
  import opened LedgerAllowance
  import opened LedgerBooks
  import opened LedgerGrants
  import opened LedgerPermits
  import opened Permit2
  import opened Store
  import opened Text
  import opened Wrappers

  /** A step that gives the key no other row, no approval and no lockdown. */
  predicate LeavesAlone(env: Env, d: Deal, e: Step) {
    Keeps(env, d, e) && (e.Lockdown? ==> e.key != d.key)
  }

  predicate AllLeaveAlone(env: Env, d: Deal, steps: seq<Step>) {
    forall i :: 0 <= i < |steps| ==> LeavesAlone(env, d, steps[i])
  }

  /** Nothing is granted before the permit; after it, its amount is what is drawn and left, unless it is without end. */
  predicate Exact(d: Deal, s: State) {
    if PermitsMined(d, s) == 0 then Drawn(s, d.key) == 0 && Left(s, d.key) == 0
    else if d.amount < MAX_AMOUNT then Drawn(s, d.key) + Left(s, d.key) == d.amount
    else Left(s, d.key) == MAX_AMOUNT
  }

  // ---- each step keeps it ----

  lemma QuietStaysExact(env: Env, d: Deal, s: State, e: Step)
    requires Inv(s) && Exact(d, s) && LeavesAlone(env, d, e) && !e.MinePermit? && !e.MineTransfer?
    ensures Exact(d, Next(env, s, e))
  {
    QuietStep(env, s, e, d.key);
    QuietAllowance(env, s, e, d.key);
  }

  lemma QuietAllowance(env: Env, s: State, e: Step, key: Key)
    requires !e.MinePermit? && !e.MineTransfer? && (e.Approve? ==> e.key != key) && (e.Lockdown? ==> e.key != key)
    ensures Left(Next(env, s, e), key) == Left(s, key)
  {
    if !e.Approve? && !e.Lockdown? {
      KeepsAllowances(env, s, e);
    }
  }

  /** The one permit of the key sets it up. */
  lemma FirstPermitIsExact(d: Deal, s: State, t: nat, s2: State)
    requires d.Valid() && Exact(d, s) && AllTerms(d, s) && MinesOne(s, t, s2, d.key) && PermitsMined(d, s2) <= 1
    ensures Exact(d, s2)
  {
    OneIsCounted(s, t, s2, d.key);
    PackedExactly(d.amount);
    TotalKept(DrawnOn(d.key), s.threads, t, s.threads[t].(permit := Mined));
  }

  lemma OtherPermitIsExact(d: Deal, s: State, t: nat, s2: State)
    requires Exact(d, s) && MinesNone(s, s2, d.key) && Drawn(s2, d.key) == Drawn(s, d.key) && Left(s2, d.key) == Left(s, d.key)
    ensures Exact(d, s2)
  {
    SameTotals(PermitsOn(d.key), s.threads, s2.threads, d.key);
  }

  lemma PermitStaysExact(env: Env, d: Deal, s: State, t: nat, time: nat)
    requires d.Valid() && Exact(d, s) && AllTerms(d, s) && t < |s.threads| && s.threads[t].permit == Pending && Keyed(s.threads[t])
    requires PermitsMined(d, MinedPermit(env, s, t, time)) <= 1
    ensures Exact(d, MinedPermit(env, s, t, time))
  {
    var s2 := MinedPermit(env, s, t, time);
    PermitMines(env, s, t, time, d.key);
    PermitDrawsNothing(env, s, t, time, d.key);
    if PermitEffect(env, s.allow, s.threads[t], time).Some? {
      PermitGrants(env, s, t, time, d.key);
    }
    if MinesOne(s, t, s2, d.key) {
      FirstPermitIsExact(d, s, t, s2);
    } else {
      OtherPermitIsExact(d, s, t, s2);
    }
  }

  /** A transfer under the key takes from what is left what it adds to what was drawn; without a permit there is none. */
  lemma TransferStaysExact(d: Deal, s: State, t: nat, time: nat, tokenOk: bool)
    requires d.Valid() && Exact(d, s) && t < |s.threads| && s.threads[t].transfer == Pending && Sound(s.threads[t])
    ensures Exact(d, MinedTransfer(s, t, time, tokenOk))
  {
    var th := s.threads[t];
    var effect := TransferEffect(s.allow, th, time, tokenOk);
    var after := th.(transfer := if effect.Some? then Mined else Reverted);
    TotalKept(PermitsOn(d.key), s.threads, t, after);
    TotalUpdate(DrawnOn(d.key), s.threads, t, after);
    PackedExactly(th.amount);
    if effect.Some? {
      TransferTakesItsAmount(s.allow, th.key.value, Packed(th.amount), time, tokenOk);
    }
  }

  lemma StepStaysExact(env: Env, d: Deal, s: State, e: Step)
    requires d.Valid() && Inv(s) && AllKeyed(s) && AllTerms(d, s) && Exact(d, s) && LeavesAlone(env, d, e)
    requires PermitsMined(d, Next(env, s, e)) <= 1
    ensures Exact(d, Next(env, s, e))
  {
    match e
    case MinePermit(t, time) =>
      if t < |s.threads| && s.threads[t].permit == Pending {
        assert Next(env, s, e) == MinedPermit(env, s, t, time);
        PermitStaysExact(env, d, s, t, time);
      }
    case MineTransfer(t, time, tokenOk) =>
      if t < |s.threads| && s.threads[t].transfer == Pending {
        assert Next(env, s, e) == MinedTransfer(s, t, time, tokenOk);
        TransferStaysExact(d, s, t, time, tokenOk);
      }
    case _ => QuietStaysExact(env, d, s, e);
  }

  /**
   The permit's amount is conserved. In every run that leaves its key alone but for its spends, with any number of them in
   flight, any answers and any receipts lost, what was drawn and what is left make up the amount.
   */
  lemma {:induction false} PermitIsConserved(env: Env, d: Deal, steps: seq<Step>)
    requires d.Valid() && AllLeaveAlone(env, d, steps)
    ensures Exact(d, Reach(env, steps)) && PermitsMined(d, Reach(env, steps)) <= 1
  {
    PermitIsMinedOnce(env, d, steps);
    if steps == [] {
    } else {
      var front, e := steps[..|steps| - 1], steps[|steps| - 1];
      assert front + [e] == steps && forall i :: 0 <= i < |front| ==> front[i] == steps[i];
      PermitIsConserved(env, d, front);
      ReachableBooks(env, front, Id("", "", "", 0));
      ReachableKeys(env, front);
      RunKeepsTerms(env, d, front);
      ReachSnoc(env, front, e);
      StepStaysExact(env, d, Reach(env, front), e);
    }
  }

  // ---- the record ----

  /** Rows of one identity draw on one key. */
  lemma SameIdSameKey(r: Authorization, x: Authorization)
    requires IdOf(r) == IdOf(x) && WellAddressed(r)
    ensures KeyIfAny(x) == Some(KeyOf(r))
  {
    FoldedSpelling(r.owner, x.owner);
    FoldedSpelling(r.token, x.token);
    FoldedSpelling(r.agent, x.agent);
  }

  lemma {:induction false} SomePermit(threads: seq<Thread>, key: Key) returns (t: nat)
    requires Total(PermitsOn(key), threads) > 0
    ensures t < |threads| && MinedUnder(threads[t], key)
  {
    var n := |threads| - 1;
    if MinedUnder(threads[n], key) {
      t := n;
    } else {
      t := SomePermit(threads[..n], key);
    }
  }

  /** A spend draws on the key exactly when it is a spend on the row. */
  lemma WeighsAlike(d: Deal, row: Authorization, th: Thread)
    requires IdOf(row) == d.id && KeyIfAny(row) == Some(d.key)
    requires th.key == KeyIfAny(th.row) && (th.key == Some(d.key) ==> IdOf(th.row) == d.id)
    ensures Weigh(DrawnOn(d.key), th) == Weigh(MovedOn(d.id), th)
  {
    if IdOf(th.row) == d.id {
      SameIdSameKey(row, th.row);
    }
  }

  /** What was moved on the row is what was drawn on its key. */
  lemma DrawnIsMoved(d: Deal, s: State)
    requires AllKeyed(s) && AllTerms(d, s) && PermitsMined(d, s) > 0
    ensures Drawn(s, d.key) == Total(MovedOn(d.id), s.threads)
  {
    var p := SomePermit(s.threads, d.key);
    assert Terms(d, s.threads[p].row) && Keyed(s.threads[p]);
    forall t | 0 <= t < |s.threads| ensures Weigh(DrawnOn(d.key), s.threads[t]) == Weigh(MovedOn(d.id), s.threads[t]) {
      assert Keyed(s.threads[t]);
      WeighsAlike(d, s.threads[p].row, s.threads[t]);
    }
    TotalOrder(DrawnOn(d.key), MovedOn(d.id), s.threads);
    TotalOrder(MovedOn(d.id), DrawnOn(d.key), s.threads);
  }

  /** What the record says is left of the amount. */
  function RecordLeft(d: Deal, s: State): int
    requires Lookup(s.rows, d.id).Some?
  {
    d.amount - SpentOf(Lookup(s.rows, d.id).value)
  }

  /**
   The record tracks the chain. In every run that leaves the key alone, once the permit is mined, the contract allows exactly
   what the record says is left, less the transfers mined and not counted; a permit without end stays without end.
   */
  lemma RecordTracksChain(env: Env, d: Deal, steps: seq<Step>)
    requires d.Valid() && AllLeaveAlone(env, d, steps)
    requires PermitsMined(d, Reach(env, steps)) > 0 && Lookup(Reach(env, steps).rows, d.id).Some?
    ensures var s := Reach(env, steps);
      Left(s, d.key) == if d.amount < MAX_AMOUNT then RecordLeft(d, s) - Total(UnbookedOn(d.id), s.threads) else MAX_AMOUNT
  {
    var s := Reach(env, steps);
    PermitIsConserved(env, d, steps);
    ReachableKeys(env, steps);
    RunKeepsTerms(env, d, steps);
    SpendConservation(env, steps, d.id);
    DrawnIsMoved(d, s);
  }

  /** So the record never says less is spent than was, but for uncounted transfers: with none the chain covers all it has left. */
  lemma RecordStaysBelowChain(env: Env, d: Deal, steps: seq<Step>)
    requires d.Valid() && AllLeaveAlone(env, d, steps)
    requires PermitsMined(d, Reach(env, steps)) > 0 && Lookup(Reach(env, steps).rows, d.id).Some?
    ensures var s := Reach(env, steps);
      && Left(s, d.key) >= RecordLeft(d, s) - Total(UnbookedOn(d.id), s.threads)
      && (Total(UnbookedOn(d.id), s.threads) == 0 ==> Left(s, d.key) >= RecordLeft(d, s))
      && (d.amount < MAX_AMOUNT ==> Left(s, d.key) <= RecordLeft(d, s))
  {
    RecordTracksChain(env, d, steps);
    SpendConservation(env, steps, d.id);
  }

  // ---- calm runs ----

  lemma CalmLeavesAlone(env: Env, d: Deal, steps: seq<Step>)
    requires CalmRun(env, d, steps)
    ensures AllLeaveAlone(env, d, steps)
  {
    forall i | 0 <= i < |steps| ensures LeavesAlone(env, d, steps[i]) {
      assert Calm(env, d, Reach(env, steps[..i]), steps[i]);
    }
  }

  /** In a calm run every transfer is counted by the time no spend is under way, so the record is then what the chain allows. */
  lemma CalmRecordIsExact(env: Env, d: Deal, steps: seq<Step>)
    requires d.Valid() && CalmRun(env, d, steps)
    requires PermitsMined(d, Reach(env, steps)) > 0 && Lookup(Reach(env, steps).rows, d.id).Some?
    requires Total(LiveOn(d.key), Reach(env, steps).threads) == 0
    ensures var s := Reach(env, steps); Left(s, d.key) == if d.amount < MAX_AMOUNT then RecordLeft(d, s) else MAX_AMOUNT
  {
    var s := Reach(env, steps);
    CalmLeavesAlone(env, d, steps);
    RecordTracksChain(env, d, steps);
    CalmRunIsUndisturbed(env, d, steps);
    ReachableKeys(env, steps);
    RunKeepsTerms(env, d, steps);
    SpendConservation(env, steps, d.id);
    DrawnIsMoved(d, s);
    DrawnIsBooked(d, s);
  }
}
