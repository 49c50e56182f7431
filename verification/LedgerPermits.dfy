/**
 The contract's nonce over any run: it counts the permits mined, so each signed permit is mined once and what is drawn on a
 key is paid for by approvals and by distinct permits.
 */
module LedgerPermits {
  import opened Authorize
  import opened Bytes
  import opened Contract
  import opened Ledger
  import opened LedgerAllowance
  import opened LedgerBooks
  import opened LedgerGrants
  import opened Permit2
  import opened Store
  import opened StoreHistory
  import opened TypedData
  import opened Wrappers

  predicate MinedUnder(th: Thread, key: Key) {
    th.key == Some(key) && th.permit == Mined
  }

  // ---- steps that mine no permit ----

  /** The spends are the same calls, and no permit under the key was mined in between. */
  predicate SamePermits(before: seq<Thread>, after: seq<Thread>, key: Key) {
    && |before| <= |after|
    && (forall t :: 0 <= t < |before| ==>
      after[t].row == before[t].row && (MinedUnder(after[t], key) <==> MinedUnder(before[t], key)))
    && (forall t :: |before| <= t < |after| ==> !MinedUnder(after[t], key))
  }

  lemma {:induction false} SameTotals(m: Meter, before: seq<Thread>, after: seq<Thread>, key: Key)
    requires m in {PermitsOn(key), GrantedOn(key)} && SamePermits(before, after, key)
    ensures Total(m, after) == Total(m, before)
  {
    if after == [] {
    } else if |after| > |before| {
      SameTotals(m, before, after[..|after| - 1], key);
    } else {
      SameTotals(m, before[..|before| - 1], after[..|after| - 1], key);
    }
  }

  lemma MoveKeepsPermits(threads: seq<Thread>, t: nat, after: Thread, key: Key)
    requires t < |threads| && SameCall(threads[t], after) && (after.permit == Mined <==> threads[t].permit == Mined)
    ensures SamePermits(threads, threads[t := after], key)
  {
  }

  lemma BeginKeepsPermits(env: Env, s: State, agent: string, amount: int, now: int64, seller: string, key: Key)
    ensures SamePermits(s.threads, Next(env, s, Begin(agent, amount, now, seller)).threads, key)
  {
    if Opened(s.rows, agent, amount, now, seller).Some? {
      OpenedIsFresh(s.rows, agent, amount, now, seller);
    }
  }

  lemma ActKeepsPermits(env: Env, s: State, t: nat, act: Act, key: Key)
    requires Inv(s)
    ensures SamePermits(s.threads, Next(env, s, Do(t, act)).threads, key)
  {
    if t < |s.threads| {
      ActedIsSound(s.threads[t], act);
      MoveKeepsPermits(s.threads, t, Acted(s.threads[t], act), key);
    }
  }

  lemma BookedKeepsPermits(s: State, t: nat, s2: State, key: Key)
    requires Changed(s, Books(t), s2)
    ensures SamePermits(s.threads, s2.threads, key)
  {
    MoveKeepsPermits(s.threads, t, s.threads[t].(pc := Done(Success)), key);
  }

  lemma BookKeepsPermits(env: Env, s: State, t: nat, key: Key)
    requires Inv(s)
    ensures SamePermits(s.threads, Next(env, s, Book(t)).threads, key)
  {
    if t < |s.threads| && s.threads[t].pc == Paid {
      BookChanges(s, t);
      BookedKeepsPermits(s, t, Ledger.Booked(s, t), key);
    }
  }

  lemma TransferKeepsPermits(env: Env, s: State, t: nat, time: nat, tokenOk: bool, key: Key)
    ensures SamePermits(s.threads, Next(env, s, MineTransfer(t, time, tokenOk)).threads, key)
  {
    if t < |s.threads| {
      MoveKeepsPermits(s.threads, t, s.threads[t].(transfer := Mined), key);
      MoveKeepsPermits(s.threads, t, s.threads[t].(transfer := Reverted), key);
    }
  }

  lemma StepKeepsPermits(env: Env, s: State, e: Step, key: Key)
    requires Inv(s) && !e.MinePermit?
    ensures SamePermits(s.threads, Next(env, s, e).threads, key)
  {
    match e
    case Begin(agent, amount, now, seller) => BeginKeepsPermits(env, s, agent, amount, now, seller, key);
    case Do(t, act) => ActKeepsPermits(env, s, t, act, key);
    case Book(t) => BookKeepsPermits(env, s, t, key);
    case MineTransfer(t, time, tokenOk) => TransferKeepsPermits(env, s, t, time, tokenOk, key);
    case _ => KeepsSpends(env, s, e);
  }

  lemma TransferKeepsNonce(env: Env, s: State, t: nat, time: nat, tokenOk: bool, key: Key)
    ensures AllowedAt(Next(env, s, MineTransfer(t, time, tokenOk)).allow, key).nonce == AllowedAt(s.allow, key).nonce
  {
    if t < |s.threads| && TransferEffect(s.allow, s.threads[t], time, tokenOk).Some? {
      TransferTakesItsAmount(s.allow, s.threads[t].key.value, Packed(s.threads[t].amount), time, tokenOk);
    }
  }

  lemma StepKeepsNonce(env: Env, s: State, e: Step, key: Key)
    requires !e.MinePermit?
    ensures AllowedAt(Next(env, s, e).allow, key).nonce == AllowedAt(s.allow, key).nonce
  {
    if e.MineTransfer? {
      TransferKeepsNonce(env, s, e.t, e.time, e.tokenOk, key);
    } else if !e.Approve? && !e.Lockdown? {
      KeepsAllowances(env, s, e);
    }
  }

  // ---- steps that mine one ----

  /** A permit is mined: by spend `t`, under its key, with the nonce the contract was at. */
  predicate MinesOne(s: State, t: nat, s2: State, key: Key) {
    && t < |s.threads| && s.threads[t].permit == Pending && s.threads[t].key == Some(key)
    && s2.threads == s.threads[t := s.threads[t].(permit := Mined)]
    && AllowedAt(s.allow, key).nonce == Uint64(s.threads[t].row.nonce)
    && AllowedAt(s2.allow, key).nonce == (Uint64(s.threads[t].row.nonce) + 1) % TWO_48
    && AllowedAt(s2.allow, key).amount == Packed(Allowance(s.threads[t].row).GetOr(0))
  }

  /** Or none is, under this key. */
  predicate MinesNone(s: State, s2: State, key: Key) {
    SamePermits(s.threads, s2.threads, key) && AllowedAt(s2.allow, key).nonce == AllowedAt(s.allow, key).nonce
  }

  lemma OneIsNotNone(s: State, t: nat, s2: State, key: Key)
    requires MinesOne(s, t, s2, key)
    ensures !MinesNone(s, s2, key)
  {
    assert s2.threads[t].permit == Mined;
  }

  lemma OwnPermitMines(env: Env, s: State, t: nat, time: nat, allow: Allowances)
    requires t < |s.threads| && s.threads[t].permit == Pending && Keyed(s.threads[t])
    requires PermitEffect(env, s.allow, s.threads[t], time) == Some(allow)
    ensures s.threads[t].key.Some?
    ensures MinesOne(s, t, s.(allow := allow, threads := s.threads[t := s.threads[t].(permit := Mined)]), s.threads[t].key.value)
  {
    PermitSetsItsKey(env, s.allow, s.threads[t], time);
  }

  lemma OtherPermitMines(env: Env, s: State, t: nat, time: nat, allow: Allowances, key: Key)
    requires t < |s.threads| && s.threads[t].permit == Pending && Keyed(s.threads[t]) && s.threads[t].key != Some(key)
    requires PermitEffect(env, s.allow, s.threads[t], time) == Some(allow)
    ensures MinesNone(s, s.(allow := allow, threads := s.threads[t := s.threads[t].(permit := Mined)]), key)
  {
    PermitSetsItsKey(env, s.allow, s.threads[t], time);
  }

  lemma PermitMines(env: Env, s: State, t: nat, time: nat, key: Key)
    requires t < |s.threads| && s.threads[t].permit == Pending && Keyed(s.threads[t])
    ensures if s.threads[t].key == Some(key) && PermitEffect(env, s.allow, s.threads[t], time).Some?
            then MinesOne(s, t, MinedPermit(env, s, t, time), key) else MinesNone(s, MinedPermit(env, s, t, time), key)
  {
    var effect := PermitEffect(env, s.allow, s.threads[t], time);
    if effect.None? {
      MoveKeepsPermits(s.threads, t, s.threads[t].(permit := Reverted), key);
    } else if s.threads[t].key == Some(key) {
      OwnPermitMines(env, s, t, time, effect.value);
    } else {
      OtherPermitMines(env, s, t, time, effect.value, key);
    }
  }

  /** Every step either mines one permit under the key or none. */
  lemma StepMines(env: Env, s: State, e: Step, key: Key)
    requires Inv(s) && AllKeyed(s)
    ensures MinesNone(s, Next(env, s, e), key) || (e.MinePermit? && MinesOne(s, e.t, Next(env, s, e), key))
  {
    if !e.MinePermit? {
      StepKeepsPermits(env, s, e, key);
      StepKeepsNonce(env, s, e, key);
    } else if e.t < |s.threads| && s.threads[e.t].permit == Pending {
      PermitMines(env, s, e.t, e.time, key);
    }
  }

  // ---- the nonce counts the permits ----

  predicate NoncesBelow(threads: seq<Thread>, key: Key, n: nat) {
    forall t :: 0 <= t < |threads| && MinedUnder(threads[t], key) ==> Uint64(threads[t].row.nonce) < n
  }

  /** No two permits mined under the key were signed for the same nonce; so they are not of one row. */
  predicate NoncesDiffer(threads: seq<Thread>, key: Key) {
    forall t, u :: 0 <= t < u < |threads| && MinedUnder(threads[t], key) && MinedUnder(threads[u], key) ==>
      threads[t].row.nonce != threads[u].row.nonce
  }

  predicate Numbered(s: State, key: Key) {
    var n := Total(PermitsOn(key), s.threads);
    && AllowedAt(s.allow, key).nonce == n % TWO_48
    && NoncesBelow(s.threads, key, TWO_48)
    && (n <= TWO_48 ==> NoncesBelow(s.threads, key, n) && NoncesDiffer(s.threads, key))
  }

  lemma NoneStaysNumbered(s: State, s2: State, key: Key)
    requires Numbered(s, key) && MinesNone(s, s2, key)
    ensures Numbered(s2, key)
  {
    SameTotals(PermitsOn(key), s.threads, s2.threads, key);
  }

  lemma OneIsCounted(s: State, t: nat, s2: State, key: Key)
    requires MinesOne(s, t, s2, key)
    ensures Total(PermitsOn(key), s2.threads) == Total(PermitsOn(key), s.threads) + 1
    ensures Total(GrantedOn(key), s2.threads) == Total(GrantedOn(key), s.threads) + AllowedAt(s2.allow, key).amount
  {
    TotalUpdate(PermitsOn(key), s.threads, t, s.threads[t].(permit := Mined));
    TotalUpdate(GrantedOn(key), s.threads, t, s.threads[t].(permit := Mined));
  }

  lemma OneStaysNumbered(s: State, t: nat, s2: State, key: Key)
    requires Numbered(s, key) && MinesOne(s, t, s2, key)
    ensures Numbered(s2, key)
  {
    OneIsCounted(s, t, s2, key);
    CountsOn(Total(PermitsOn(key), s.threads), Uint64(s.threads[t].row.nonce));
  }

  lemma CountsOn(n: nat, nonce: nat)
    requires nonce == n % TWO_48
    ensures (nonce + 1) % TWO_48 == (n + 1) % TWO_48 && nonce < TWO_48 && (n + 1 <= TWO_48 ==> nonce == n)
  {
  }

  lemma {:induction false} RunIsNumbered(env: Env, steps: seq<Step>, key: Key)
    ensures Numbered(Reach(env, steps), key)
  {
    if steps == [] {
    } else {
      var front, e := steps[..|steps| - 1], steps[|steps| - 1];
      assert front + [e] == steps;
      RunIsNumbered(env, front, key);
      ReachableBooks(env, front, Id("", "", "", 0));
      ReachableKeys(env, front);
      ReachSnoc(env, front, e);
      StepStaysNumbered(env, Reach(env, front), e, key);
    }
  }

  lemma StepStaysNumbered(env: Env, s: State, e: Step, key: Key)
    requires Inv(s) && AllKeyed(s) && Numbered(s, key)
    ensures Numbered(Next(env, s, e), key)
  {
    var s2 := Next(env, s, e);
    StepMines(env, s, e, key);
    if MinesNone(s, s2, key) {
      NoneStaysNumbered(s, s2, key);
    } else {
      OneStaysNumbered(s, e.t, s2, key);
    }
  }

  // ---- no permit is mined twice ----

  function NoncesOf(threads: seq<Thread>, key: Key): set<nat> {
    if threads == [] then {}
    else
      var th := threads[|threads| - 1];
      NoncesOf(threads[..|threads| - 1], key) + if MinedUnder(th, key) then {Uint64(th.row.nonce)} else {}
  }

  lemma {:induction false} NonceIsOfSpend(threads: seq<Thread>, key: Key, x: nat) returns (t: nat)
    requires x in NoncesOf(threads, key)
    ensures t < |threads| && MinedUnder(threads[t], key) && Uint64(threads[t].row.nonce) == x
  {
    var n := |threads| - 1;
    if MinedUnder(threads[n], key) && Uint64(threads[n].row.nonce) == x {
      t := n;
    } else {
      t := NonceIsOfSpend(threads[..n], key, x);
    }
  }

  lemma LastIsNew(threads: seq<Thread>, key: Key)
    requires threads != [] && NoncesDiffer(threads, key) && MinedUnder(threads[|threads| - 1], key)
    ensures Uint64(threads[|threads| - 1].row.nonce) !in NoncesOf(threads[..|threads| - 1], key)
  {
    var n := |threads| - 1;
    forall x | x in NoncesOf(threads[..n], key) ensures x != Uint64(threads[n].row.nonce) {
      var t := NonceIsOfSpend(threads[..n], key, x);
      assert threads[t].row.nonce != threads[n].row.nonce;
    }
  }

  lemma {:induction false} NoncesCounted(threads: seq<Thread>, key: Key)
    requires NoncesDiffer(threads, key)
    ensures |NoncesOf(threads, key)| == Total(PermitsOn(key), threads)
  {
    if threads == [] {
    } else {
      var n := |threads| - 1;
      NoncesCounted(threads[..n], key);
      if MinedUnder(threads[n], key) {
        LastIsNew(threads, key);
      }
    }
  }

  lemma {:induction false} Pigeonhole(xs: set<nat>, n: nat)
    requires forall x :: x in xs ==> x < n
    ensures |xs| <= n
  {
    if n == 0 {
      assert xs == {};
    } else {
      Pigeonhole(xs - {n - 1}, n - 1);
    }
  }

  /** With more permits than there are nonces, two must share one. */
  lemma TooManyPermits(threads: seq<Thread>, key: Key)
    requires NoncesBelow(threads, key, TWO_48) && NoncesDiffer(threads, key)
    ensures Total(PermitsOn(key), threads) <= TWO_48
  {
    var xs := NoncesOf(threads, key);
    forall x | x in xs ensures x < TWO_48 {
      var t := NonceIsOfSpend(threads, key, x);
    }
    NoncesCounted(threads, key);
    Pigeonhole(xs, TWO_48);
  }

  /**
   The contract's nonce counts the permits mined under a key, and no signed permit is mined twice: in every run, with any rows
   and renewals, approvals, spends in flight, answers and lost receipts, the permits mined under a key were signed for different
   nonces, exactly until there are more of them than a uint48 can number.
   */
  lemma NoPermitIsMinedTwice(env: Env, steps: seq<Step>, key: Key)
    ensures AllowedAt(Reach(env, steps).allow, key).nonce == Total(PermitsOn(key), Reach(env, steps).threads) % TWO_48
    ensures NoncesDiffer(Reach(env, steps).threads, key) <==> Total(PermitsOn(key), Reach(env, steps).threads) <= TWO_48
  {
    RunIsNumbered(env, steps, key);
    if NoncesDiffer(Reach(env, steps).threads, key) {
      TooManyPermits(Reach(env, steps).threads, key);
    }
  }

  // ---- a key with one row ----

  predicate AllTerms(d: Deal, s: State) {
    && (forall i :: 0 <= i < |s.rows| ==> Agrees(d, s.rows[i]))
    && forall t :: 0 <= t < |s.threads| && s.threads[t].key == Some(d.key) ==> Terms(d, s.threads[t].row)
  }

  lemma StepKeepsTerms(env: Env, d: Deal, s: State, e: Step)
    requires Inv(s) && AllTerms(d, s) && NewRowAgrees(env, d, e)
    ensures AllTerms(d, Next(env, s, e))
  {
    var c := NextChanges(env, s, e);
    ChangeKeepsTerms(d, s, c, Next(env, s, e));
  }

  lemma ChangeKeepsTerms(d: Deal, s: State, c: Change, s2: State)
    requires AllTerms(d, s) && Changed(s, c, s2) && (c.Rows? && c.op.Put? ==> Agrees(d, c.op.a))
    ensures AllTerms(d, s2)
  {
    match c
    case Idle =>
    case Rows(op) => RowsStillAgree(d, s.rows, op);
    case Opens(th) =>
      var i :| 0 <= i < |s.rows| && s.rows[i] == th.row;
      assert Agrees(d, s.rows[i]);
    case Moves(_, _) =>
    case Books(t) => RowsStillAgree(d, s.rows, Bump(IdOf(s.threads[t].row), s.threads[t].amount));
  }

  /** No step gives the key another row. */
  predicate OneRow(env: Env, d: Deal, steps: seq<Step>) {
    forall i :: 0 <= i < |steps| ==> NewRowAgrees(env, d, steps[i])
  }

  lemma {:induction false} RunKeepsTerms(env: Env, d: Deal, steps: seq<Step>)
    requires OneRow(env, d, steps)
    ensures AllTerms(d, Reach(env, steps))
  {
    if steps == [] {
    } else {
      var front, e := steps[..|steps| - 1], steps[|steps| - 1];
      assert front + [e] == steps && forall i :: 0 <= i < |front| ==> front[i] == steps[i];
      RunKeepsTerms(env, d, front);
      ReachableBooks(env, front, Id("", "", "", 0));
      ReachSnoc(env, front, e);
      StepKeepsTerms(env, d, Reach(env, front), e);
    }
  }

  /** One row has one nonce. */
  lemma OneNonceAtMost(d: Deal, s: State)
    requires AllTerms(d, s) && NoncesDiffer(s.threads, d.key)
    ensures PermitsMined(d, s) <= 1
  {
    var xs := NoncesOf(s.threads, d.key);
    NoncesCounted(s.threads, d.key);
    if xs != {} {
      var x :| x in xs;
      var t := NonceIsOfSpend(s.threads, d.key, x);
      forall y | y in xs ensures y == x {
        var u := NonceIsOfSpend(s.threads, d.key, y);
        assert s.threads[u].row.nonce == d.id.nonce == s.threads[t].row.nonce;
      }
      assert xs == {x};
    }
  }

  lemma OneMoreAtMost(env: Env, s: State, e: Step, key: Key)
    requires Inv(s) && AllKeyed(s)
    ensures Total(PermitsOn(key), Next(env, s, e).threads) <= Total(PermitsOn(key), s.threads) + 1
  {
    StepMines(env, s, e, key);
    if MinesNone(s, Next(env, s, e), key) {
      SameTotals(PermitsOn(key), s.threads, Next(env, s, e).threads, key);
    } else {
      OneIsCounted(s, e.t, Next(env, s, e), key);
    }
  }

  /** So while a key has one row, however often approved or locked, at most one permit is ever mined under it. */
  lemma {:induction false} PermitIsMinedOnce(env: Env, d: Deal, steps: seq<Step>)
    requires OneRow(env, d, steps)
    ensures PermitsMined(d, Reach(env, steps)) <= 1
  {
    if steps == [] {
    } else {
      var front, e := steps[..|steps| - 1], steps[|steps| - 1];
      assert front + [e] == steps && forall i :: 0 <= i < |front| ==> front[i] == steps[i];
      PermitIsMinedOnce(env, d, front);
      ReachableBooks(env, front, Id("", "", "", 0));
      ReachableKeys(env, front);
      ReachSnoc(env, front, e);
      OneMoreAtMost(env, Reach(env, front), e, d.key);
      NoPermitIsMinedTwice(env, steps, d.key);
      RunKeepsTerms(env, d, steps);
      OneNonceAtMost(d, Reach(env, steps));
    }
  }

  // ---- what pays for the transfers ----

  function Approval(e: Step, key: Key): nat {
    if e.Approve? && e.key == key then e.granted else 0
  }

  /** What the owner approved on a key, in all. */
  function Approved(steps: seq<Step>, key: Key): nat {
    if steps == [] then 0 else Approved(steps[..|steps| - 1], key) + Approval(steps[|steps| - 1], key)
  }

  lemma QuietGrantsNothing(env: Env, s: State, e: Step, key: Key)
    requires Inv(s) && AllKeyed(s) && MinesNone(s, Next(env, s, e), key)
    ensures Grant(env, s, e, key) == Approval(e, key)
  {
    if e.MinePermit? && e.t < |s.threads| && s.threads[e.t].permit == Pending && s.threads[e.t].key == Some(key) {
      if PermitEffect(env, s.allow, s.threads[e.t], e.time).Some? {
        PermitMines(env, s, e.t, e.time, key);
        OneIsNotNone(s, e.t, Next(env, s, e), key);
      }
    }
  }

  lemma OneGrantsItsAmount(env: Env, s: State, e: Step, key: Key)
    requires e.MinePermit? && MinesOne(s, e.t, Next(env, s, e), key)
    ensures Grant(env, s, e, key) == AllowedAt(Next(env, s, e).allow, key).amount
  {
    assert Next(env, s, e).threads[e.t].permit == Mined;
  }

  /** A step grants what it approves and what the permit it mines is for. */
  lemma StepGrants(env: Env, s: State, e: Step, key: Key)
    requires Inv(s) && AllKeyed(s)
    ensures Total(GrantedOn(key), Next(env, s, e).threads) + Approval(e, key) ==
            Total(GrantedOn(key), s.threads) + Grant(env, s, e, key)
  {
    StepMines(env, s, e, key);
    if MinesNone(s, Next(env, s, e), key) {
      SameTotals(GrantedOn(key), s.threads, Next(env, s, e).threads, key);
      QuietGrantsNothing(env, s, e, key);
    } else {
      OneIsCounted(s, e.t, Next(env, s, e), key);
      OneGrantsItsAmount(env, s, e, key);
    }
  }

  lemma {:induction false} GrantsAreApprovalsAndPermits(env: Env, steps: seq<Step>, key: Key)
    ensures Granted(env, steps, key) == Approved(steps, key) + Total(GrantedOn(key), Reach(env, steps).threads)
  {
    if steps == [] {
    } else {
      var front, e := steps[..|steps| - 1], steps[|steps| - 1];
      assert front + [e] == steps;
      GrantsAreApprovalsAndPermits(env, front, key);
      ReachableBooks(env, front, Id("", "", "", 0));
      ReachableKeys(env, front);
      ReachSnoc(env, front, e);
      StepGrants(env, Reach(env, front), e, key);
    }
  }

  /** No approval on the key, and no permit mined under it, is for the amount that stands for an allowance without end. */
  predicate FiniteOn(steps: seq<Step>, threads: seq<Thread>, key: Key) {
    && (forall i :: 0 <= i < |steps| ==> Approval(steps[i], key) < MAX_AMOUNT)
    && forall t :: 0 <= t < |threads| && MinedUnder(threads[t], key) ==> Packed(Allowance(threads[t].row).GetOr(0)) < MAX_AMOUNT
  }

  /** What was mined stays mined. */
  lemma StepKeepsMined(env: Env, s: State, e: Step, key: Key)
    requires Inv(s) && AllKeyed(s)
    ensures |s.threads| <= |Next(env, s, e).threads|
    ensures forall t :: 0 <= t < |s.threads| && MinedUnder(s.threads[t], key) ==>
      MinedUnder(Next(env, s, e).threads[t], key) && Next(env, s, e).threads[t].row == s.threads[t].row
  {
    StepMines(env, s, e, key);
  }

  lemma GrantIsFinite(env: Env, s: State, e: Step, key: Key)
    requires Inv(s) && AllKeyed(s) && Approval(e, key) < MAX_AMOUNT && FiniteOn([], Next(env, s, e).threads, key)
    ensures Grant(env, s, e, key) < MAX_AMOUNT
  {
    StepMines(env, s, e, key);
    if MinesNone(s, Next(env, s, e), key) {
      QuietGrantsNothing(env, s, e, key);
    } else {
      OneGrantsItsAmount(env, s, e, key);
      assert MinedUnder(Next(env, s, e).threads[e.t], key);
    }
  }

  lemma FiniteBefore(env: Env, s: State, e: Step, front: seq<Step>, key: Key)
    requires Inv(s) && AllKeyed(s) && FiniteOn(front + [e], Next(env, s, e).threads, key)
    ensures FiniteOn(front, s.threads, key) && Grant(env, s, e, key) < MAX_AMOUNT
  {
    assert forall i :: 0 <= i < |front| ==> (front + [e])[i] == front[i];
    assert (front + [e])[|front|] == e;
    StepKeepsMined(env, s, e, key);
    GrantIsFinite(env, s, e, key);
  }

  lemma {:induction false} GrantsAreFinite(env: Env, steps: seq<Step>, key: Key)
    requires FiniteOn(steps, Reach(env, steps).threads, key)
    ensures FiniteGrants(env, steps, key)
  {
    if steps == [] {
    } else {
      var front, e := steps[..|steps| - 1], steps[|steps| - 1];
      assert front + [e] == steps;
      ReachableBooks(env, front, Id("", "", "", 0));
      ReachableKeys(env, front);
      ReachSnoc(env, front, e);
      FiniteBefore(env, Reach(env, front), e, front, key);
      GrantsAreFinite(env, front, key);
    }
  }

  /**
   What is drawn and left on a key is paid for by the owner's approvals and by permits, each for its own row and counted once:
   in every run of finite grants, as long as a uint48 can number the permits.
   */
  lemma DrawnWithinPermits(env: Env, steps: seq<Step>, key: Key)
    requires FiniteOn(steps, Reach(env, steps).threads, key) && Total(PermitsOn(key), Reach(env, steps).threads) <= TWO_48
    ensures Drawn(Reach(env, steps), key) + Left(Reach(env, steps), key) <=
            Approved(steps, key) + Total(GrantedOn(key), Reach(env, steps).threads)
    ensures NoncesDiffer(Reach(env, steps).threads, key)
  {
    GrantsAreFinite(env, steps, key);
    DrawnWithinGrants(env, steps, key);
    GrantsAreApprovalsAndPermits(env, steps, key);
    NoPermitIsMinedTwice(env, steps, key);
  }

  /** A step that gives the key no other row, and no approval. */
  predicate Keeps(env: Env, d: Deal, e: Step) {
    NewRowAgrees(env, d, e) && (e.Approve? ==> e.key != d.key)
  }

  lemma {:induction false} NothingApproved(env: Env, d: Deal, steps: seq<Step>)
    requires forall i :: 0 <= i < |steps| ==> Keeps(env, d, steps[i])
    ensures Approved(steps, d.key) == 0
  {
    if steps == [] {
    } else {
      NothingApproved(env, d, steps[..|steps| - 1]);
    }
  }

  lemma {:induction false} PermitsOfOneRow(d: Deal, threads: seq<Thread>)
    requires d.Valid() && forall t :: 0 <= t < |threads| && threads[t].key == Some(d.key) ==> Terms(d, threads[t].row)
    ensures Total(GrantedOn(d.key), threads) == Total(PermitsOn(d.key), threads) * d.amount
  {
    if threads == [] {
    } else {
      var n := |threads| - 1;
      PermitsOfOneRow(d, threads[..n]);
      PackedExactly(d.amount);
      assert (Total(PermitsOn(d.key), threads[..n]) + 1) * d.amount == Total(PermitsOn(d.key), threads[..n]) * d.amount + d.amount;
    }
  }

  lemma RowIsFinite(d: Deal, s: State, steps: seq<Step>)
    requires d.Valid() && AllTerms(d, s) && (PermitsMined(d, s) == 0 || d.amount < MAX_AMOUNT)
    requires forall i :: 0 <= i < |steps| ==> Approval(steps[i], d.key) == 0
    ensures FiniteOn(steps, s.threads, d.key)
  {
    PackedExactly(d.amount);
    forall t | 0 <= t < |s.threads| && MinedUnder(s.threads[t], d.key)
      ensures Packed(Allowance(s.threads[t].row).GetOr(0)) < MAX_AMOUNT
    {
      TotalUpdate(PermitsOn(d.key), s.threads, t, s.threads[t]);
    }
  }

  /**
   For a key with one row and no approval that leaves one permit: nothing is drawn before it is mined, and then no more than
   its amount, if that is finite. So moving more on chain takes a grant beyond the permit, or a permit without end.
   */
  lemma FinitePermitCapsDrawing(env: Env, d: Deal, steps: seq<Step>)
    requires d.Valid() && forall i :: 0 <= i < |steps| ==> Keeps(env, d, steps[i])
    ensures var s := Reach(env, steps);
      && (PermitsMined(d, s) == 0 ==> Drawn(s, d.key) + Left(s, d.key) == 0)
      && (d.amount < MAX_AMOUNT ==> Drawn(s, d.key) + Left(s, d.key) <= d.amount)
  {
    var s := Reach(env, steps);
    PermitIsMinedOnce(env, d, steps);
    RunKeepsTerms(env, d, steps);
    if PermitsMined(d, s) == 0 || d.amount < MAX_AMOUNT {
      RowIsFinite(d, s, steps);
      DrawnWithinPermits(env, steps, d.key);
      NothingApproved(env, d, steps);
      PermitsOfOneRow(d, s.threads);
    }
  }
}
