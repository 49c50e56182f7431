/**
 The bounds on overspending are reached: a run that spends the recorded amount once per spend in flight, and one that moves
 it once per spend, one at a time, while every receipt is lost. In both the owner grants the amount on chain anew for each
 spend, as it must unless an allowance is without end.
 */
module LedgerOverspend {
  import opened Authorize
  import opened Bytes
  import opened Contract
  import opened Ledger
  import opened LedgerBooks
  import opened Spender
  import opened Store
  import opened StoreHistory
  import opened Text
  import opened Wrappers

  function Copies(th: Thread, n: nat): (threads: seq<Thread>)
    ensures |threads| == n && forall t :: 0 <= t < n ==> threads[t] == th
  {
    seq(n, _ => th)
  }

  function Completed(th: Thread): Thread {
    th.(pc := Done(Success), transfer := Mined)
  }

  /** `n` spends look at the same row before any of them finishes. */
  lemma {:induction false} AllLookFirst(env: Env, s: State, th: Thread, n: nat) returns (steps: seq<Step>)
    requires s.threads == [] && Opened(s.rows, th.agent, th.amount, th.now, th.seller) == Some(th)
    ensures From(env, s, steps) == s.(threads := Copies(th, n))
  {
    if n == 0 {
      steps := [];
    } else {
      var front := AllLookFirst(env, s, th, n - 1);
      var e := Begin(th.agent, th.amount, th.now, th.seller);
      steps := front + [e];
      Extend(env, s, front, e);
      assert Copies(th, n - 1) + [th] == Copies(th, n);
    }
  }

  /** The owner's approval that lets a spend through, and the node's true answer after it. */
  function Approval(th: Thread): Step
    requires th.key.Some?
  {
    Approve(th.key.value, th.amount, (if th.now < 0 then 0 else th.now) + 1, 0)
  }

  function TrueAnswer(s: State, t: nat, th: Thread): Step
    requires th.key.Some?
  {
    Do(t, ReadAllowance(Some(AllowedAt(s.allow, th.key.value))))
  }

  lemma IsGranted(env: Env, s: State, t: nat, th: Thread)
    requires t < |s.threads| && s.threads[t] == th && th.pc == Checked && th.key.Some? && th.row.expiration > th.now
    ensures var granted := Next(env, s, Approval(th)); var ready := Next(env, granted, TrueAnswer(granted, t, th));
      && granted == s.(allow := granted.allow)
      && ready == granted.(threads := s.threads[t := th.(pc := Ready)])
      && AllowedAt(ready.allow, th.key.value).amount == th.amount
  {
  }

  lemma GetsReady(env: Env, s: State, t: nat, th: Thread) returns (steps: seq<Step>)
    requires t < |s.threads| && s.threads[t] == th && th.pc == Checked && th.key.Some? && th.row.expiration > th.now
    ensures var after := From(env, s, steps);
      && after.rows == s.rows && after.threads == s.threads[t := th.(pc := Ready)]
      && AllowedAt(after.allow, th.key.value).amount == th.amount
  {
    IsGranted(env, s, t, th);
    var e1 := Approval(th);
    var e2 := TrueAnswer(Next(env, s, e1), t, th);
    steps := [] + [e1] + [e2];
    Extend(env, s, [], e1);
    Extend(env, s, [] + [e1], e2);
  }

  lemma IsSent(env: Env, s: State, t: nat, th: Thread)
    requires t < |s.threads| && s.threads[t] == th && th.pc == Ready && TransferCalldata(th).Some?
    ensures Next(env, s, Do(t, SendTransfer(true, true))) ==
            s.(threads := s.threads[t := th.(pc := TransferWait, transfer := Pending)])
  {
  }

  lemma IsMined(env: Env, s: State, t: nat, th: Thread)
    requires t < |s.threads| && s.threads[t] == th && th.transfer == Pending && th.key.Some?
    requires AllowedAt(s.allow, th.key.value).amount == th.amount <= MAX_AMOUNT
    ensures var after := Next(env, s, MineTransfer(t, 0, true));
      after.rows == s.rows && after.threads == s.threads[t := th.(transfer := Mined)]
  {
  }

  lemma IsHeard(env: Env, s: State, t: nat, th: Thread)
    requires t < |s.threads| && s.threads[t] == th && th.pc == TransferWait && th.transfer == Mined
    ensures Next(env, s, Do(t, TransferReceipt)) == s.(threads := s.threads[t := th.(pc := Paid)])
  {
  }

  lemma GetsPaid(env: Env, s: State, t: nat, th: Thread) returns (steps: seq<Step>)
    requires t < |s.threads| && s.threads[t] == th && th.pc == Ready && th.key.Some? && TransferCalldata(th).Some?
    requires AllowedAt(s.allow, th.key.value).amount == th.amount <= MAX_AMOUNT
    ensures var after := From(env, s, steps);
      after.rows == s.rows && after.threads == s.threads[t := th.(pc := Paid, transfer := Mined)]
  {
    var e3, e4, e5 := Do(t, SendTransfer(true, true)), MineTransfer(t, 0, true), Do(t, TransferReceipt);
    IsSent(env, s, t, th);
    var s3 := Next(env, s, e3);
    IsMined(env, s3, t, th.(pc := TransferWait, transfer := Pending));
    var s4 := Next(env, s3, e4);
    IsHeard(env, s4, t, th.(pc := TransferWait, transfer := Mined));
    steps := ThreeSteps(env, s, e3, e4, e5);
  }

  lemma ThreeSteps(env: Env, s: State, a: Step, b: Step, c: Step) returns (steps: seq<Step>)
    ensures From(env, s, steps) == Next(env, Next(env, Next(env, s, a), b), c)
  {
    steps := [] + [a] + [b] + [c];
    Extend(env, s, [], a);
    Extend(env, s, [] + [a], b);
    Extend(env, s, [] + [a] + [b], c);
  }

  lemma IsBooked(env: Env, s: State, t: nat, th: Thread)
    requires t < |s.threads| && s.threads[t] == th && th.pc == Paid && Lookup(s.rows, BumpId(th)).Some?
    ensures Next(env, s, Book(t)).threads == s.threads[t := th.(pc := Done(Success))]
  {
  }

  /** One of the spends, covered by a fresh approval of the owner, runs to its end. */
  lemma RunsToItsEnd(env: Env, s: State, t: nat, th: Thread) returns (steps: seq<Step>)
    requires Inv(s) && t < |s.threads| && s.threads[t] == th
    requires th.pc == Checked && th.transfer == Unsent && th.key.Some? && TransferCalldata(th).Some?
    requires th.amount <= MAX_AMOUNT && th.row.expiration > th.now
    ensures From(env, s, steps).threads == s.threads[t := Completed(th)]
  {
    BumpFindsItsRow(s, t);
    var first := GetsReady(env, s, t, th);
    var ready := From(env, s, first);
    var second := GetsPaid(env, ready, t, th.(pc := Ready));
    var paid := From(env, ready, second);
    IsBooked(env, paid, t, th.(pc := Paid, transfer := Mined));
    steps := Booking(env, s, first, second, t);
  }

  lemma Booking(env: Env, s: State, first: seq<Step>, second: seq<Step>, t: nat) returns (steps: seq<Step>)
    ensures From(env, s, steps) == Next(env, From(env, From(env, s, first), second), Book(t))
  {
    Chain(env, s, first, second);
    steps := first + second + [Book(t)];
    Extend(env, s, first + second, Book(t));
  }

  lemma CopiesMeet(a: Thread, b: Thread, n: nat, k: nat)
    requires 0 < k <= n
    ensures (Copies(a, k - 1) + Copies(b, n - k + 1))[k - 1 := a] == Copies(a, k) + Copies(b, n - k)
    ensures (Copies(a, k - 1) + Copies(b, n - k + 1))[k - 1] == b
  {
  }

  lemma NextRunsToItsEnd(env: Env, s: State, th: Thread, n: nat, k: nat) returns (steps: seq<Step>)
    requires Inv(s) && 0 < k <= n && s.threads == Copies(Completed(th), k - 1) + Copies(th, n - k + 1)
    requires th.pc == Checked && th.transfer == Unsent && th.key.Some? && TransferCalldata(th).Some?
    requires th.amount <= MAX_AMOUNT && th.row.expiration > th.now
    ensures From(env, s, steps).threads == Copies(Completed(th), k) + Copies(th, n - k)
  {
    steps := RunsToItsEnd(env, s, k - 1, th);
    CopiesMeet(Completed(th), th, n, k);
  }

  lemma {:induction false} AllRunToTheirEnd(env: Env, s: State, th: Thread, n: nat, k: nat) returns (steps: seq<Step>)
    requires Inv(s) && s.threads == Copies(th, n) && k <= n
    requires th.pc == Checked && th.transfer == Unsent && th.key.Some? && TransferCalldata(th).Some?
    requires th.amount <= MAX_AMOUNT && th.row.expiration > th.now && (forall id :: Balanced(s, id))
    ensures From(env, s, steps).threads == Copies(Completed(th), k) + Copies(th, n - k)
  {
    if k == 0 {
      steps := [];
    } else {
      var front := AllRunToTheirEnd(env, s, th, n, k - 1);
      RunKeepsAllBooks(env, s, front);
      var more := NextRunsToItsEnd(env, From(env, s, front), th, n, k);
      Chain(env, s, front, more);
      steps := front + more;
    }
  }

  lemma {:induction false} CompletedTotal(th: Thread, n: nat)
    ensures Total(BookedOn(IdOf(th.row)), Copies(Completed(th), n)) == n * th.amount
  {
    if n == 0 {
    } else {
      CompletedTotal(th, n - 1);
      assert Copies(Completed(th), n)[..n - 1] == Copies(Completed(th), n - 1);
      assert n * th.amount == (n - 1) * th.amount + th.amount;
    }
  }

  /** A state in which a spend for the whole of an untouched row can begin and pay. */
  predicate Offers(s: State, agent: string, now: int64, seller: string) {
    && s.threads == [] && IsHexAddress(seller)
    && Pick(s.rows, ForAgent(agent, now)).Ok?
    && var row := Pick(s.rows, ForAgent(agent, now)).value;
      WellAddressed(row) && Allowance(row).Some? && 0 < Allowance(row).value && SpentOf(row) == 0
  }

  function WholeSpend(s: State, agent: string, now: int64, seller: string): Thread
    requires Offers(s, agent, now, seller)
  {
    var row := Pick(s.rows, ForAgent(agent, now)).value;
    Thread(row, KeyIfAny(row), agent, seller, Allowance(row).value, now, Checked, Unsent, Unsent)
  }

  lemma OfferIsOpen(env: Env, before: seq<Step>, agent: string, now: int64, seller: string)
    requires Offers(Reach(env, before), agent, now, seller)
    ensures var s := Reach(env, before); var th := WholeSpend(s, agent, now, seller);
      && Inv(s) && (forall id :: Balanced(s, id))
      && Opened(s.rows, agent, th.amount, now, seller) == Some(th)
      && Sound(th) && th.key.Some? && TransferCalldata(th).Some? && th.row.expiration > th.now
      && Lookup(s.rows, IdOf(th.row)) == Some(th.row)
  {
    var s := Reach(env, before);
    forall id ensures Inv(s) && Balanced(s, id) {
      ReachableBooks(env, before, id);
    }
    ReachableBooks(env, before, Id("", "", "", 0));
    var th := WholeSpend(s, agent, now, seller);
    OpenedIsSound(s.rows, agent, th.amount, now, seller);
    RowIsFound(s.rows, th.row);
  }

  /**
   From any reachable state without spends that offers an untouched row, and for every `n`, a run with `n` spends ends with
   `n` times the row's amount spent: each spend saw the whole allowance, and the owner granted it anew for each.
   */
  lemma OverspendIsReached(env: Env, before: seq<Step>, agent: string, now: int64, seller: string, n: nat) returns (steps: seq<Step>)
    requires Offers(Reach(env, before), agent, now, seller)
    ensures var row := WholeSpend(Reach(env, before), agent, now, seller).row; var after := Reach(env, before + steps);
      && |after.threads| == n
      && Lookup(after.rows, IdOf(row)).Some?
      && SpentOf(Lookup(after.rows, IdOf(row)).value) == n * Allowance(row).value
  {
    var s := Reach(env, before);
    var th := WholeSpend(s, agent, now, seller);
    OfferIsOpen(env, before, agent, now, seller);
    steps := AllSpend(env, s, th, n);
    Chain(env, INITIAL, before, steps);
    RunKeepsAllBooks(env, s, steps);
    StillListed(env, s, steps, IdOf(th.row));
    SpentByAll(From(env, s, steps), th, n);
  }

  lemma SpentByAll(s: State, th: Thread, n: nat)
    requires Balanced(s, IdOf(th.row)) && s.threads == Copies(Completed(th), n) && Lookup(s.rows, IdOf(th.row)).Some?
    ensures SpentOf(Lookup(s.rows, IdOf(th.row)).value) == n * th.amount
  {
    CompletedTotal(th, n);
    PrintedIsNotBlank(n * th.amount);
  }

  lemma AllSpend(env: Env, s: State, th: Thread, n: nat) returns (steps: seq<Step>)
    requires Inv(s) && s.threads == [] && Opened(s.rows, th.agent, th.amount, th.now, th.seller) == Some(th)
    requires (forall id :: Balanced(s, id)) && th.key.Some? && TransferCalldata(th).Some?
    requires th.amount <= MAX_AMOUNT && th.row.expiration > th.now
    ensures From(env, s, steps).threads == Copies(Completed(th), n)
  {
    var front := AllLookFirst(env, s, th, n);
    RunKeepsAllBooks(env, s, front);
    var mid := From(env, s, front);
    var more := AllRunToTheirEnd(env, mid, th, n, n);
    Chain(env, s, front, more);
    steps := front + more;
    assert Copies(Completed(th), n) + Copies(th, 0) == Copies(Completed(th), n);
  }

  // ---- spends one at a time, every receipt lost ----

  /** In no state along the run is more than one spend on the row in flight. */
  predicate OneAtATime(env: Env, s: State, steps: seq<Step>, id: Id) {
    Total(CountOn(id), From(env, s, steps).threads) <= 1 && (steps != [] ==> OneAtATime(env, s, steps[..|steps| - 1], id))
  }

  lemma Grow(env: Env, s: State, steps: seq<Step>, e: Step, id: Id) returns (more: seq<Step>)
    requires OneAtATime(env, s, steps, id)
    requires Total(CountOn(id), Next(env, From(env, s, steps), e).threads) <= 1
    ensures more == steps + [e] && OneAtATime(env, s, more, id) && From(env, s, more) == Next(env, From(env, s, steps), e)
  {
    more := steps + [e];
    Extend(env, s, steps, e);
    assert more[..|steps|] == steps;
  }

  function LostTrack(th: Thread): Thread {
    th.(pc := Done(TransferUnknown), transfer := Mined)
  }

  lemma {:induction false} NoneCounted(th: Thread, n: nat)
    requires th.pc.Done?
    ensures Total(CountOn(IdOf(th.row)), Copies(th, n)) == 0
    ensures Total(MovedOn(IdOf(th.row)), Copies(th, n)) == n * if th.transfer == Mined then th.amount else 0
  {
    if n == 0 {
    } else {
      NoneCounted(th, n - 1);
      assert Copies(th, n)[..n - 1] == Copies(th, n - 1);
      var w := if th.transfer == Mined then th.amount else 0;
      assert n * w == (n - 1) * w + w;
    }
  }

  lemma LastCounts(id: Id, threads: seq<Thread>, th: Thread)
    requires Total(CountOn(id), threads) == 0
    ensures Total(CountOn(id), threads + [th]) <= 1
  {
    TotalAppend(CountOn(id), threads, th);
  }

  /** The last spend moves on by one step, which leaves the rows alone. */
  lemma LastMoves(env: Env, s: State, steps: seq<Step>, e: Step, threads: seq<Thread>, th: Thread, id: Id) returns (more: seq<Step>)
    requires OneAtATime(env, s, steps, id) && Total(CountOn(id), threads) == 0
    requires Next(env, From(env, s, steps), e).threads == threads + [th]
    ensures OneAtATime(env, s, more, id) && From(env, s, more) == Next(env, From(env, s, steps), e)
  {
    LastCounts(id, threads, th);
    more := Grow(env, s, steps, e, id);
  }

  lemma IsLost(env: Env, s: State, t: nat, th: Thread)
    requires t < |s.threads| && s.threads[t] == th && th.pc == TransferWait
    ensures Next(env, s, Do(t, LoseTransfer)) == s.(threads := s.threads[t := th.(pc := Done(TransferUnknown))])
  {
  }

  /** A spend that has begun is let through. */
  lemma IsGrantedInTurn(env: Env, s: State, steps: seq<Step>, th: Thread, now: State, threads: seq<Thread>) returns (more: seq<Step>)
    requires now == From(env, s, steps) && OneAtATime(env, s, steps, IdOf(th.row)) && Total(CountOn(IdOf(th.row)), threads) == 0
    requires now.threads == threads + [th] && th.pc == Checked && th.key.Some? && th.row.expiration > th.now
    ensures OneAtATime(env, s, more, IdOf(th.row))
    ensures var ready := From(env, s, more);
      && ready.rows == now.rows && ready.threads == threads + [th.(pc := Ready)]
      && AllowedAt(ready.allow, th.key.value).amount == th.amount
  {
    var id, t := IdOf(th.row), |threads|;
    IsGranted(env, now, t, th);
    more := LastMoves(env, s, steps, Approval(th), threads, th, id);
    var granted := Next(env, now, Approval(th));
    assert now.threads[t := th.(pc := Ready)] == threads + [th.(pc := Ready)];
    more := LastMoves(env, s, more, TrueAnswer(granted, t, th), threads, th.(pc := Ready), id);
  }

  /** A spend begins and is let through. */
  lemma BeginsAndIsGranted(env: Env, s: State, steps: seq<Step>, th: Thread, now: State) returns (more: seq<Step>)
    requires now == From(env, s, steps) && OneAtATime(env, s, steps, IdOf(th.row)) && Total(CountOn(IdOf(th.row)), now.threads) == 0
    requires Opened(now.rows, th.agent, th.amount, th.now, th.seller) == Some(th) && th.key.Some? && th.row.expiration > th.now
    ensures OneAtATime(env, s, more, IdOf(th.row))
    ensures var ready := From(env, s, more);
      && ready.rows == now.rows && ready.threads == now.threads + [th.(pc := Ready)]
      && AllowedAt(ready.allow, th.key.value).amount == th.amount
  {
    more := LastMoves(env, s, steps, Begin(th.agent, th.amount, th.now, th.seller), now.threads, th, IdOf(th.row));
    more := IsGrantedInTurn(env, s, more, th, now.(threads := now.threads + [th]), now.threads);
  }

  /** Its transfer is mined, and it never learns. */
  lemma PaysAndLosesTrack(env: Env, s: State, steps: seq<Step>, th: Thread, now: State, threads: seq<Thread>) returns (more: seq<Step>)
    requires now == From(env, s, steps) && OneAtATime(env, s, steps, IdOf(th.row)) && Total(CountOn(IdOf(th.row)), threads) == 0
    requires now.threads == threads + [th] && th.pc == Ready && th.key.Some? && TransferCalldata(th).Some?
    requires AllowedAt(now.allow, th.key.value).amount == th.amount <= MAX_AMOUNT
    ensures OneAtATime(env, s, more, IdOf(th.row))
    ensures From(env, s, more).rows == now.rows && From(env, s, more).threads == threads + [LostTrack(th)]
  {
    var id, t := IdOf(th.row), |threads|;
    var sent := th.(pc := TransferWait, transfer := Pending);
    IsSent(env, now, t, th);
    assert now.threads[t := sent] == threads + [sent];
    more := LastMoves(env, s, steps, Do(t, SendTransfer(true, true)), threads, sent, id);
    var s1 := now.(threads := threads + [sent]);
    IsMined(env, s1, t, sent);
    var mined := sent.(transfer := Mined);
    assert s1.threads[t := mined] == threads + [mined];
    more := LastMoves(env, s, more, MineTransfer(t, 0, true), threads, mined, id);
    var s2 := Next(env, s1, MineTransfer(t, 0, true));
    IsLost(env, s2, t, mined);
    assert s2.threads[t := LostTrack(th)] == threads + [LostTrack(th)];
    more := LastMoves(env, s, more, Do(t, LoseTransfer), threads, LostTrack(th), id);
  }

  lemma {:induction false} AllLoseTrack(env: Env, s: State, th: Thread, n: nat) returns (steps: seq<Step>)
    requires s.threads == [] && Opened(s.rows, th.agent, th.amount, th.now, th.seller) == Some(th)
    requires th.key.Some? && TransferCalldata(th).Some? && th.amount <= MAX_AMOUNT && th.row.expiration > th.now
    ensures OneAtATime(env, s, steps, IdOf(th.row))
    ensures From(env, s, steps).rows == s.rows && From(env, s, steps).threads == Copies(LostTrack(th), n)
  {
    if n == 0 {
      steps := [];
    } else {
      steps := AllLoseTrack(env, s, th, n - 1);
      var now := From(env, s, steps);
      NoneCounted(LostTrack(th), n - 1);
      steps := BeginsAndIsGranted(env, s, steps, th, now);
      steps := PaysAndLosesTrack(env, s, steps, th.(pc := Ready), From(env, s, steps), now.threads);
      assert Copies(LostTrack(th), n - 1) + [LostTrack(th)] == Copies(LostTrack(th), n);
    }
  }

  /**
   One spend at a time does not bound what is moved when receipts are lost: for every `n`, a run moves `n` times the row's
   amount while its counter stays at zero.
   */
  lemma LostReceiptsMoveUncounted(env: Env, before: seq<Step>, agent: string, now: int64, seller: string, n: nat)
    returns (steps: seq<Step>)
    requires Offers(Reach(env, before), agent, now, seller)
    ensures var s := Reach(env, before); var row := WholeSpend(s, agent, now, seller).row; var after := Reach(env, before + steps);
      && OneAtATime(env, s, steps, IdOf(row))
      && Lookup(after.rows, IdOf(row)) == Some(row) && SpentOf(row) == 0
      && Total(MovedOn(IdOf(row)), after.threads) == n * Allowance(row).value
  {
    var s := Reach(env, before);
    var th := WholeSpend(s, agent, now, seller);
    OfferIsOpen(env, before, agent, now, seller);
    steps := AllLoseTrack(env, s, th, n);
    Chain(env, INITIAL, before, steps);
    NoneCounted(LostTrack(th), n);
  }
}
