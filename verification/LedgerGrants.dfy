/**
 What the contract itself guarantees of any run: nobody draws more than was granted, as long as no grant is of the largest
 amount, which stands for an allowance without end.
 */
module LedgerGrants {
  import opened Bytes
  import opened Contract
  import opened Ledger
  import opened LedgerAllowance
  import opened LedgerBooks
  import opened Permit2
  import opened Store
  import opened Wrappers

  // ---- grants ----

  /** The amount a step puts under a key: an approval by the owner, or a permit that goes through. */
  function Grant(env: Env, s: State, e: Step, key: Key): nat {
    match e
    case Approve(k, granted, _, _) => if k == key then granted else 0
    case MinePermit(t, time) =>
      if t < |s.threads| && s.threads[t].permit == Pending && s.threads[t].key == Some(key) then
        var effect := PermitEffect(env, s.allow, s.threads[t], time);
        if effect.Some? then AllowedAt(effect.value, key).amount else 0
      else 0
    case _ => 0
  }

  function Granted(env: Env, steps: seq<Step>, key: Key): nat {
    if steps == [] then 0
    else
      var n := |steps| - 1;
      Granted(env, steps[..n], key) + Grant(env, Reach(env, steps[..n]), steps[n], key)
  }

  /** No grant is the one amount that stands for an allowance without end. */
  predicate FiniteGrants(env: Env, steps: seq<Step>, key: Key) {
    steps != [] ==>
      var n := |steps| - 1;
      FiniteGrants(env, steps[..n], key) && Grant(env, Reach(env, steps[..n]), steps[n], key) < MAX_AMOUNT
  }

  function Left(s: State, key: Key): nat {
    AllowedAt(s.allow, key).amount
  }

  function Drawn(s: State, key: Key): nat {
    Total(DrawnOn(key), s.threads)
  }

  /** What one step may do to an allowance and to what was drawn on it. */
  predicate Pays(s: State, s2: State, key: Key, grant: nat) {
    && Drawn(s2, key) + Left(s2, key) <= Drawn(s, key) + Left(s, key) + grant
    && (Left(s, key) < MAX_AMOUNT && grant < MAX_AMOUNT ==> Left(s2, key) < MAX_AMOUNT)
  }

  /** A step that mines nothing, as far as the sums under a key go. */
  predicate MinesNothing(s: State, s2: State, key: Key) {
    Drawn(s2, key) == Drawn(s, key) && Total(PermitsOn(key), s2.threads) == Total(PermitsOn(key), s.threads)
  }

  lemma JoiningMinesNothing(s: State, th: Thread, s2: State, key: Key)
    requires th.transfer == Unsent && th.permit == Unsent && s2.threads == s.threads + [th]
    ensures MinesNothing(s, s2, key)
  {
    JoinsWith(DrawnOn(key), s.threads, th, 0);
    JoinsWith(PermitsOn(key), s.threads, th, 0);
  }

  lemma MovingMinesNothing(s: State, t: nat, after: Thread, s2: State, key: Key)
    requires t < |s.threads| && SameCall(s.threads[t], after) && s2.threads == s.threads[t := after]
    requires (after.transfer == Mined <==> s.threads[t].transfer == Mined) && (after.permit == Mined <==> s.threads[t].permit == Mined)
    ensures MinesNothing(s, s2, key)
  {
    TotalKept(DrawnOn(key), s.threads, t, after);
    TotalKept(PermitsOn(key), s.threads, t, after);
  }

  lemma OpenedIsFresh(rows: seq<Authorization>, agent: string, amount: int, now: int64, seller: string)
    requires Opened(rows, agent, amount, now, seller).Some?
    ensures var th := Opened(rows, agent, amount, now, seller).value; th.transfer == Unsent && th.permit == Unsent
  {
  }

  lemma QuietBegin(env: Env, s: State, agent: string, amount: int, now: int64, seller: string, key: Key)
    ensures MinesNothing(s, Next(env, s, Begin(agent, amount, now, seller)), key)
  {
    var th := Opened(s.rows, agent, amount, now, seller);
    if th.Some? {
      OpenedIsFresh(s.rows, agent, amount, now, seller);
      JoiningMinesNothing(s, th.value, Next(env, s, Begin(agent, amount, now, seller)), key);
    }
  }

  lemma QuietAct(env: Env, s: State, t: nat, act: Act, key: Key)
    requires Inv(s)
    ensures MinesNothing(s, Next(env, s, Do(t, act)), key)
  {
    if t < |s.threads| {
      ActedIsSound(s.threads[t], act);
      MovingMinesNothing(s, t, Acted(s.threads[t], act), Next(env, s, Do(t, act)), key);
    }
  }

  lemma BookedMinesNothing(s: State, t: nat, s2: State, key: Key)
    requires Changed(s, Books(t), s2)
    ensures MinesNothing(s, s2, key)
  {
    MovingMinesNothing(s, t, s.threads[t].(pc := Done(Success)), s2, key);
  }

  lemma QuietBook(env: Env, s: State, t: nat, key: Key)
    requires Inv(s)
    ensures MinesNothing(s, Next(env, s, Book(t)), key)
  {
    if t < |s.threads| && s.threads[t].pc == Paid {
      BookChanges(s, t);
      BookedMinesNothing(s, t, Ledger.Booked(s, t), key);
    }
  }

  /** Only the contract's own steps touch the allowances. */
  lemma KeepsAllowances(env: Env, s: State, e: Step)
    requires !e.MinePermit? && !e.MineTransfer? && !e.Approve? && !e.Lockdown?
    ensures Next(env, s, e).allow == s.allow
  {
  }

  lemma KeepsSpends(env: Env, s: State, e: Step)
    requires e.Verify? || e.Observe? || e.Approve? || e.Lockdown?
    ensures Next(env, s, e).threads == s.threads
  {
  }

  lemma QuietStep(env: Env, s: State, e: Step, key: Key)
    requires Inv(s) && !e.MinePermit? && !e.MineTransfer?
    ensures MinesNothing(s, Next(env, s, e), key)
  {
    match e
    case Begin(agent, amount, now, seller) => QuietBegin(env, s, agent, amount, now, seller, key);
    case Do(t, act) => QuietAct(env, s, t, act, key);
    case Book(t) => QuietBook(env, s, t, key);
    case _ => KeepsSpends(env, s, e);
  }

  /** A permit that goes through puts the amount granted under its key and leaves the others alone. */
  lemma PermitGrants(env: Env, s: State, t: nat, time: nat, key: Key)
    requires t < |s.threads| && s.threads[t].permit == Pending && Keyed(s.threads[t])
    requires PermitEffect(env, s.allow, s.threads[t], time).Some?
    ensures Left(MinedPermit(env, s, t, time), key) ==
            if s.threads[t].key == Some(key) then Grant(env, s, MinePermit(t, time), key) else Left(s, key)
  {
    PermitSetsItsKey(env, s.allow, s.threads[t], time);
  }

  lemma PermitDrawsNothing(env: Env, s: State, t: nat, time: nat, key: Key)
    requires t < |s.threads|
    ensures Drawn(MinedPermit(env, s, t, time), key) == Drawn(s, key)
    ensures PermitEffect(env, s.allow, s.threads[t], time).None? ==> MinedPermit(env, s, t, time).allow == s.allow
  {
    var th := s.threads[t];
    TotalKept(DrawnOn(key), s.threads, t, th.(permit := Mined));
    TotalKept(DrawnOn(key), s.threads, t, th.(permit := Reverted));
  }

  lemma PermitPays(env: Env, s: State, t: nat, time: nat, key: Key)
    requires t < |s.threads| && s.threads[t].permit == Pending && Keyed(s.threads[t])
    ensures Pays(s, MinedPermit(env, s, t, time), key, Grant(env, s, MinePermit(t, time), key))
  {
    PermitDrawsNothing(env, s, t, time, key);
    if PermitEffect(env, s.allow, s.threads[t], time).Some? {
      PermitGrants(env, s, t, time, key);
    }
  }

  lemma TransferPays(s: State, t: nat, time: nat, tokenOk: bool, key: Key)
    requires t < |s.threads| && s.threads[t].transfer == Pending && Sound(s.threads[t]) && Left(s, key) < MAX_AMOUNT
    ensures Pays(s, MinedTransfer(s, t, time, tokenOk), key, 0)
  {
    var th := s.threads[t];
    var effect := TransferEffect(s.allow, th, time, tokenOk);
    TotalUpdate(DrawnOn(key), s.threads, t, th.(transfer := if effect.Some? then Mined else Reverted));
    PackedExactly(th.amount);
    if effect.Some? {
      TransferTakesItsAmount(s.allow, th.key.value, Packed(th.amount), time, tokenOk);
    }
  }

  lemma QuietPays(env: Env, s: State, e: Step, key: Key)
    requires Inv(s) && !e.MinePermit? && !e.MineTransfer?
    ensures Pays(s, Next(env, s, e), key, Grant(env, s, e, key))
  {
    QuietStep(env, s, e, key);
    if !e.Approve? && !e.Lockdown? {
      KeepsAllowances(env, s, e);
    }
  }

  lemma StepPays(env: Env, s: State, e: Step, key: Key)
    requires Inv(s) && AllKeyed(s) && Left(s, key) < MAX_AMOUNT
    ensures Pays(s, Next(env, s, e), key, Grant(env, s, e, key))
  {
    match e
    case MinePermit(t, time) =>
      if t < |s.threads| && s.threads[t].permit == Pending { PermitPays(env, s, t, time, key); }
    case MineTransfer(t, time, tokenOk) =>
      if t < |s.threads| && s.threads[t].transfer == Pending { TransferPays(s, t, time, tokenOk, key); }
    case _ => QuietPays(env, s, e, key);
  }

  /**
   The chain caps spending. In every interleaving of finite grants, with any number of spends in flight, any answers and any
   receipts lost, the value drawn under a key and what is left there never exceed what was granted on it.
   */
  lemma {:induction false} DrawnWithinGrants(env: Env, steps: seq<Step>, key: Key)
    requires FiniteGrants(env, steps, key)
    ensures Drawn(Reach(env, steps), key) + Left(Reach(env, steps), key) <= Granted(env, steps, key)
    ensures Left(Reach(env, steps), key) < MAX_AMOUNT
  {
    if steps == [] {
    } else {
      var front, e := steps[..|steps| - 1], steps[|steps| - 1];
      assert front + [e] == steps;
      DrawnWithinGrants(env, front, key);
      ReachableBooks(env, front, Id("", "", "", 0));
      ReachableKeys(env, front);
      ReachSnoc(env, front, e);
      StepPays(env, Reach(env, front), e, key);
    }
  }
}
