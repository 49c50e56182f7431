/** `EnsureGas` as one call of the funder. */
module GasFunderCalls {
  import opened GasFunder
  import opened Runs
  import opened Text
  import opened Wrappers

  /** What the network answers to one call. */
  datatype Answers = Answers(
    firstRead: Option<nat>,
    secondRead: Option<nat>,
    funderRead: Option<nat>,
    nonce: Option<nat>,
    accepted: bool,
    reported: bool,
    mined: Option<bool>,
    receiptArrives: bool)

  datatype FundError = BadAddress | ChainRequired | NoBalance | NoFunderBalance | FunderUnderfunded | NotSent | NoReceipt | FundingReverted

  /** What `EnsureGas` reports: whether it funded, and the agent balance behind the decision. */
  datatype FundResult = FundResult(funded: bool, balance: nat)

  /** The agent is found to have gas, at the first look or under the lock. */
  predicate FoundSolvent(cfg: Config, w: Answers) {
    w.firstRead.Some? && (Enough(cfg, w.firstRead) || Enough(cfg, w.secondRead))
  }

  /** Everything a funding needs: a short agent, a funder with more than the top-up, and a transaction that goes through. */
  predicate GoesThrough(cfg: Config, w: Answers) {
    && w.firstRead.Some? && !FoundSolvent(cfg, w)
    && w.funderRead.Some? && w.funderRead.value > cfg.topUp
    && w.nonce.Some? && w.accepted && w.reported && w.mined == Some(true) && w.receiptArrives
  }

  /** A call adds at most one transaction: for its agent, under the nonce it read. */
  predicate AddsAtMostOne(before: seq<Tx>, after: seq<Tx>, agent: Address, nonce: Option<nat>) {
    after == before || (nonce.Some? && exists verdict :: after == before + [Tx(nonce.value, agent, verdict)])
  }

  class RealGasFunder {
    const cfg: Config
    var txs: seq<Tx>
    ghost var holder: Option<nat>
    ghost var callers: seq<Caller>
    ghost var burnt: map<Address, nat>

    constructor (cfg: Config)
      ensures this.cfg == cfg && Now() == INITIAL
    {
      this.cfg := cfg;
      txs, holder, callers, burnt := [], None, [], map[];
    }

    ghost function Now(): State
      reads this
    {
      State(txs, holder, callers, burnt)
    }

    ghost method Act(c: nat, act: Act, steps: seq<Step>, from: State) returns (more: seq<Step>)
      requires c < |callers| && Now() == From(cfg, from, steps) && !act.Send?
      modifies this`holder, this`callers
      ensures more == steps + [Do(c, act)] && Now() == From(cfg, from, more) == Acted(cfg, old(Now()), c, act)
    {
      more := steps + [Do(c, act)];
      Extend(cfg, from, steps, Do(c, act));
      var s := Acted(cfg, Now(), c, act);
      holder, callers := s.holder, s.callers;
    }

    /** The broadcast, and the chain's verdict if it comes. */
    method SendFunding(agent: Address, ghost c: nat, w: Answers, ghost steps: seq<Step>, ghost from: State)
      returns (verdict: Option<Verdict>, ghost more: seq<Step>)
      requires w.nonce.Some? && c < |callers| && callers[c] == Caller(agent, HasNonce(w.nonce.value)) && Now() == From(cfg, from, steps)
      modifies this
      ensures Now() == From(cfg, from, more) && |callers| == |old(callers)|
      ensures verdict.Some? ==>
        callers[c].pc == Waiting(|old(txs)|) && txs == old(txs) + [Tx(w.nonce.value, agent, verdict.value)]
      ensures AddsAtMostOne(old(txs), txs, agent, w.nonce)
      ensures verdict.None? ==> callers[c].pc == Done(Trouble) && holder == None
      ensures verdict.Some? <==> w.accepted && w.reported
      ensures verdict == Some(Mined) <==> w.accepted && w.reported && w.mined == Some(true)
    {
      ghost var send := Do(c, Send(w.accepted, w.reported));
      more := steps + [send];
      Extend(cfg, from, steps, send);
      ghost var s := Next(cfg, Now(), send);
      var i := |txs|;
      if w.accepted {
        txs := txs + [Tx(w.nonce.value, agent, Pending)];
      }
      holder, callers := s.holder, s.callers;
      if !w.accepted || !w.reported {
        return None, more;
      }
      verdict := Some(Pending);
      if w.mined.Some? {
        Extend(cfg, from, more, Mine(i, w.mined.value));
        more := more + [Mine(i, w.mined.value)];
        verdict := Some(if w.mined.value then Mined else Failed);
        txs := txs[i := txs[i].(verdict := verdict.value)];
      }
    }

    /** Under the lock, up to the nonce: the reads again, and what stops a funding. */
    method CheckAgain(agent: Address, ghost c: nat, w: Answers, ghost steps: seq<Step>, ghost from: State)
      returns (stop: Option<Result<FundResult, FundError>>, ghost more: seq<Step>)
      requires c < |callers| && callers[c] == Caller(agent, Locked) && Now() == From(cfg, from, steps)
      modifies this`holder, this`callers
      ensures Now() == From(cfg, from, more) && |callers| == |old(callers)|
      ensures stop.None? ==> w.nonce.Some? && callers[c] == Caller(agent, HasNonce(w.nonce.value))
      ensures stop.Some? ==> holder == None && callers[c].pc == Done(
        match stop.value
        case Ok(_) => NotNeeded
        case Err(FunderUnderfunded) => Underfunded
        case Err(_) => Trouble)
      ensures stop.Some? && stop.value.Ok? ==> !stop.value.value.funded && stop.value.value.balance >= cfg.minBalance
      ensures stop.Some? && stop.value.Ok? <==> Enough(cfg, w.secondRead)
      ensures stop.None? <==>
        !Enough(cfg, w.secondRead) && w.funderRead.Some? && w.funderRead.value > cfg.topUp && w.nonce.Some?
    {
      more := Act(c, SecondRead(w.secondRead), steps, from);
      if w.secondRead.Some? && w.secondRead.value >= cfg.minBalance {
        return Some(Ok(FundResult(false, w.secondRead.value))), more;
      }
      more := Act(c, FunderRead(w.funderRead), more, from);
      if w.funderRead.None? {
        return Some(Err(NoFunderBalance)), more;
      }
      if w.funderRead.value <= cfg.topUp {
        return Some(Err(FunderUnderfunded)), more;
      }
      more := Act(c, FetchNonce(w.nonce), more, from);
      stop := if w.nonce.Some? then None else Some(Err(NotSent));
    }

    /** The part of a call under the lock. */
    method FundLocked(agent: Address, ghost c: nat, balance: nat, w: Answers, ghost steps: seq<Step>, ghost from: State)
      returns (r: Result<FundResult, FundError>, ghost more: seq<Step>)
      requires c < |callers| && callers[c] == Caller(agent, Locked) && Now() == From(cfg, from, steps)
      modifies this
      ensures Now() == From(cfg, from, more) && |callers| == |old(callers)|
      ensures callers[c].pc.Done? && holder == None
      ensures r.Ok? && !r.value.funded ==> r.value.balance >= cfg.minBalance && txs == old(txs)
      ensures r.Ok? <==> callers[c].pc in {Done(NotNeeded), Done(Funded)}
      ensures r.Ok? ==> (r.value.funded <==> callers[c].pc == Done(Funded))
      ensures w.firstRead.Some? && !Enough(cfg, w.firstRead) ==>
        && (r.Ok? && !r.value.funded <==> Enough(cfg, w.secondRead))
        && (r.Ok? && r.value.funded <==> GoesThrough(cfg, w))
      ensures r.Ok? && r.value.funded ==> w.nonce.Some? && txs == old(txs) + [Tx(w.nonce.value, agent, Mined)]
      ensures AddsAtMostOne(old(txs), txs, agent, w.nonce)
      ensures r.Err? && r.error !in {NotSent, NoReceipt, FundingReverted} ==> txs == old(txs)
    {
      var stop;
      stop, more := CheckAgain(agent, c, w, steps, from);
      if stop.Some? {
        return stop.value, more;
      }
      var verdict;
      verdict, more := SendFunding(agent, c, w, more, from);
      if verdict.None? {
        return Err(NotSent), more;
      }
      if verdict.value == Pending || !w.receiptArrives {
        more := Act(c, LoseReceipt, more, from);
        return Err(NoReceipt), more;
      }
      more := Act(c, Receipt, more, from);
      r := if verdict.value == Mined then Ok(FundResult(true, balance)) else Err(FundingReverted);
    }

    /** One call with the lock free: a run of the machine, ending with the lock free again. */
    method EnsureGas(agentAddress: string, chainId: int, w: Answers) returns (r: Result<FundResult, FundError>, ghost steps: seq<Step>)
      requires Exclusive(Now()) && holder == None
      modifies this
      ensures Now() == From(cfg, old(Now()), steps) && Exclusive(Now()) && holder == None
      ensures old(Sequenced(cfg, Now())) && (w.nonce.Some? ==> w.nonce.value == cfg.base + |old(txs)|) ==> Sequenced(cfg, Now())
      ensures r.Ok? ==> IsHexAddress(agentAddress)
      ensures r.Ok? && r.value.funded ==>
        w.nonce.Some? && txs == old(txs) + [Tx(w.nonce.value, HexToAddress(agentAddress), Mined)]
      ensures if IsHexAddress(agentAddress) then AddsAtMostOne(old(txs), txs, HexToAddress(agentAddress), w.nonce) else txs == old(txs)
      ensures r.Ok? && !r.value.funded ==> r.value.balance >= cfg.minBalance && txs == old(txs)
      ensures r.Err? && r.error !in {NotSent, NoReceipt, FundingReverted} ==> txs == old(txs)
      ensures IsHexAddress(agentAddress) && chainId > 0 ==>
        && (r.Ok? && !r.value.funded <==> FoundSolvent(cfg, w))
        && (r.Ok? && r.value.funded <==> GoesThrough(cfg, w))
      ensures !IsHexAddress(agentAddress) || chainId <= 0 ==> r.Err? && Now() == old(Now())
    {
      ghost var start := Now();
      steps := [];
      if !IsHexAddress(agentAddress) {
        return Err(BadAddress), steps;
      }
      if chainId <= 0 {
        return Err(ChainRequired), steps;
      }
      var agent := HexToAddress(agentAddress);
      r, steps := Call(agent, w);
      RunKeepsLock(cfg, start, steps);
    }

    /** A new caller. */
    ghost method Enter(agent: Address) returns (c: nat, steps: seq<Step>)
      modifies this`callers
      ensures c == |old(callers)| && callers == old(callers) + [Caller(agent, Entered)]
      ensures Now() == From(cfg, old(Now()), steps)
    {
      c := |callers|;
      steps := [] + [Step.Call(agent)];
      Extend(cfg, Now(), [], Step.Call(agent));
      callers := callers + [Caller(agent, Entered)];
    }

    method Call(agent: Address, w: Answers) returns (r: Result<FundResult, FundError>, ghost steps: seq<Step>)
      requires holder == None
      modifies this
      ensures Now() == From(cfg, old(Now()), steps) && |callers| == |old(callers)| + 1 && callers[|old(callers)|].pc.Done?
      ensures holder == None
      ensures r.Ok? && r.value.funded ==> w.nonce.Some? && txs == old(txs) + [Tx(w.nonce.value, agent, Mined)]
      ensures AddsAtMostOne(old(txs), txs, agent, w.nonce)
      ensures r.Ok? && !r.value.funded ==> r.value.balance >= cfg.minBalance && txs == old(txs)
      ensures r.Err? && r.error !in {NotSent, NoReceipt, FundingReverted} ==> txs == old(txs)
      ensures (r.Ok? && !r.value.funded <==> FoundSolvent(cfg, w)) && (r.Ok? && r.value.funded <==> GoesThrough(cfg, w))
    {
      ghost var start := Now();
      ghost var c;
      c, steps := Enter(agent);
      steps := Act(c, FirstRead(w.firstRead), steps, start);
      if w.firstRead.None? {
        return Err(NoBalance), steps;
      }
      if w.firstRead.value >= cfg.minBalance {
        return Ok(FundResult(false, w.firstRead.value)), steps;
      }
      steps := Act(c, TakeLock, steps, start);
      r, steps := FundLocked(agent, c, w.firstRead.value, w, steps, start);
    }
  }

  lemma RunKeepsLock(cfg: Config, s: State, steps: seq<Step>)
    requires Exclusive(s)
    ensures Exclusive(From(cfg, s, steps))
  {
    var inv := (t: State, done: seq<Step>) => Exclusive(t);
    forall t, k | 0 <= k < |steps| && inv(t, steps[..k]) ensures inv(Next(cfg, t, steps[k]), steps[..k + 1]) {
      NextKeepsLock(cfg, t, steps[k]);
    }
    RunKeeps((t, e) => Next(cfg, t, e), s, steps, inv);
  }
}
