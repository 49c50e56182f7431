/** Waiting for a receipt: polling until it is there, the node fails, the window closes, or the caller gives up. */
module Rpc {
  import opened Wrappers

  const DEFAULT_INTERVAL: nat := 2_000_000_000   // nanoseconds

  datatype Answer<+R> = Found(receipt: R) | NotFound | Failed

  /** What poll `i` meets: the caller may be gone before it, or during the pause after it; `clock` is read after it. */
  datatype Network<+R> = Network(
    start: int,
    goneBefore: nat -> bool,
    answer: nat -> Answer<R>,
    clock: nat -> int,
    goneDuring: nat -> bool)

  datatype WaitError = Cancelled | RpcError | ReceiptTimeout

  function Interval(poll: int): (d: int)
    ensures d > 0
  {
    if poll <= 0 then DEFAULT_INTERVAL else poll
  }

  /** The clock is not behind the pauses slept through so far. */
  ghost predicate Ticking<R>(net: Network<R>, poll: int) {
    forall i: nat :: net.clock(i) >= net.start + i * Interval(poll)
  }

  /** Poll `i` finds nothing and the wait goes on. */
  predicate GoesOn<R(==)>(net: Network<R>, timeout: int, i: nat) {
    && !net.goneBefore(i) && net.answer(i) == NotFound
    && net.clock(i) <= net.start + timeout && !net.goneDuring(i)
  }

  /** How the wait ends at poll `k`. */
  predicate EndsAt<R(==)>(net: Network<R>, timeout: int, k: nat, r: Result<R, WaitError>) {
    match r
    case Ok(receipt) => !net.goneBefore(k) && net.answer(k) == Found(receipt)
    case Err(RpcError) => !net.goneBefore(k) && net.answer(k) == Failed
    case Err(ReceiptTimeout) => !net.goneBefore(k) && net.answer(k) == NotFound && net.clock(k) > net.start + timeout
    case Err(Cancelled) =>
      net.goneBefore(k) || (net.answer(k) == NotFound && net.clock(k) <= net.start + timeout && net.goneDuring(k))
  }

  lemma {:induction false} PollsAreSpaced(i: nat, interval: int, span: int)
    requires interval > 0 && i * interval <= span
    ensures i <= span
  {
    if i == 0 {
    } else {
      assert i * interval == (i - 1) * interval + interval;
      PollsAreSpaced(i - 1, interval, span - 1);
    }
  }

  /** Poll `k` decides the wait: it is the first that does not go on. */
  ghost predicate Decides<R>(net: Network<R>, timeout: int, k: nat, r: Result<R, WaitError>) {
    EndsAt(net, timeout, k, r) && forall i: nat :: i < k ==> GoesOn(net, timeout, i)
  }

  /** The deciding poll comes at the latest one interval after the window has passed. */
  method WaitForReceipt<R(==)>(net: Network<R>, timeout: int, poll: int) returns (r: Result<R, WaitError>)
    requires Ticking(net, poll)
    ensures exists k: nat :: Decides(net, timeout, k, r) && (k > 0 ==> (k - 1) * Interval(poll) <= timeout)
  {
    var deadline := net.start + timeout;
    var i: nat := 0;
    while true
      invariant forall j: nat :: j < i ==> GoesOn(net, timeout, j)
      decreases timeout + 1 - i
    {
      if i > 0 {
        assert GoesOn(net, timeout, i - 1) && net.clock(i - 1) >= net.start + (i - 1) * Interval(poll);
      }
      if net.goneBefore(i) {
        assert Decides(net, timeout, i, Err(Cancelled));
        return Err(Cancelled);
      }
      match net.answer(i) {
        case Found(receipt) =>
          assert Decides(net, timeout, i, Ok(receipt));
          return Ok(receipt);
        case Failed =>
          assert Decides(net, timeout, i, Err(RpcError));
          return Err(RpcError);
        case NotFound =>
      }
      if net.clock(i) > deadline {
        assert Decides(net, timeout, i, Err(ReceiptTimeout));
        return Err(ReceiptTimeout);
      }
      if net.goneDuring(i) {
        assert Decides(net, timeout, i, Err(Cancelled));
        return Err(Cancelled);
      }
      assert net.clock(i) >= net.start + i * Interval(poll);
      PollsAreSpaced(i, Interval(poll), timeout);
      i := i + 1;
    }
  }

  lemma Stops<R>(net: Network<R>, timeout: int, k: nat, r: Result<R, WaitError>)
    requires EndsAt(net, timeout, k, r)
    ensures !GoesOn(net, timeout, k)
  {
  }

  /** Only one result can be reported: the poll that decides is determined, and so is what it decides. */
  lemma OutcomeIsDetermined<R>(net: Network<R>, timeout: int, k: nat, r: Result<R, WaitError>, k1: nat, r1: Result<R, WaitError>)
    requires Decides(net, timeout, k, r) && Decides(net, timeout, k1, r1)
    ensures k == k1 && r == r1
  {
    Stops(net, timeout, k, r);
    Stops(net, timeout, k1, r1);
  }
}
