/**
 How often the funder tops up one agent: in any run at most as often as the agent's shortfall and the gas it spends take, and
 once more for each of two faults. A bound that is reached.
 */
module GasFunding {
  import opened GasFunder
  import opened Text
  import opened Wrappers

  // ---- the two faults ----

  /** A second read, wrong or failed, that lets a caller go on although the agent has enough. */
  predicate Misread(cfg: Config, s: State, e: Step, agent: Address) {
    && e.Do? && e.c < |s.callers| && s.callers[e.c] == Caller(agent, Locked)
    && e.act.SecondRead? && !Enough(cfg, e.act.balance) && Balance(cfg, s, agent) >= cfg.minBalance
  }

  /** A caller that leaves while its funding is pending: the wait times out, or the send is reported as failed. */
  predicate Strays(s: State, e: Step, agent: Address) {
    && e.Do? && e.c < |s.callers|
    && match e.act
       case LoseReceipt => IsAwaited(s, e.c, agent)
       case Send(accepted, reported) => accepted && !reported && s.callers[e.c].agent == agent && s.callers[e.c].pc.HasNonce?
       case _ => false
  }

  /** The caller waits for a funding of the agent that is still pending. */
  predicate IsAwaited(s: State, c: nat, agent: Address)
    requires c < |s.callers|
  {
    var pc := s.callers[c].pc;
    pc.Waiting? && pc.tx < |s.txs| && s.txs[pc.tx].agent == agent && s.txs[pc.tx].verdict == Pending
  }

  function One(b: bool): nat {
    if b then 1 else 0
  }

  function Misreads(cfg: Config, steps: seq<Step>, agent: Address): nat {
    if steps == [] then 0
    else
      var n := |steps| - 1;
      Misreads(cfg, steps[..n], agent) + One(Misread(cfg, Reach(cfg, steps[..n]), steps[n], agent))
  }

  function Strayed(cfg: Config, steps: seq<Step>, agent: Address): nat {
    if steps == [] then 0
    else
      var n := |steps| - 1;
      Strayed(cfg, steps[..n], agent) + One(Strays(Reach(cfg, steps[..n]), steps[n], agent))
  }

  // ---- counting fundings ----

  lemma {:induction false} CountUpdate(txs: seq<Tx>, i: nat, now: Verdict, agent: Address, v: Verdict)
    requires i < |txs|
    ensures Count(txs[i := txs[i].(verdict := now)], agent, v) + One(txs[i].agent == agent && txs[i].verdict == v) ==
            Count(txs, agent, v) + One(txs[i].agent == agent && now == v)
  {
    var n := |txs| - 1;
    var after := txs[i := txs[i].(verdict := now)];
    if i < n {
      assert after[..n] == txs[..n][i := txs[i].(verdict := now)];
      CountUpdate(txs[..n], i, now, agent, v);
    } else {
      assert after[..n] == txs[..n];
    }
  }

  lemma CountAppend(txs: seq<Tx>, tx: Tx, agent: Address, v: Verdict)
    ensures Count(txs + [tx], agent, v) == Count(txs, agent, v) + One(tx.agent == agent && tx.verdict == v)
  {
    assert (txs + [tx])[..|txs|] == txs;
  }

  /** Division rounding up. */
  function CeilDiv(n: nat, d: nat): nat
    requires d > 0
  {
    (n + d - 1) / d
  }

  /** How many top-ups it takes an agent that spends so much gas not to be short. */
  function Needed(cfg: Config, agent: Address, gas: nat): nat
    requires cfg.Valid()
  {
    var goal := cfg.minBalance + gas;
    if cfg.start(agent) >= goal then 0 else CeilDiv(goal - cfg.start(agent), cfg.topUp)
  }

  lemma Multiples(a: nat, b: nat, d: nat)
    requires a >= b
    ensures a * d >= b * d
  {
  }

  lemma CeilDivExactly(k: nat, n: nat, d: nat)
    requires d > 0
    ensures k * d < n <==> k < CeilDiv(n, d)
    ensures n > 0 ==> CeilDiv(n, d) * d < n + d
  {
    var q, r := CeilDiv(n, d), (n + d - 1) % d;
    assert n + d - 1 == q * d + r;
    if k < q {
      Multiples(q, k + 1, d);
      assert (k + 1) * d == k * d + d;
    } else {
      Multiples(k, q, d);
    }
  }

  lemma NeededExactly(cfg: Config, agent: Address, gas: nat, k: nat)
    requires cfg.Valid()
    ensures cfg.start(agent) + k * cfg.topUp < cfg.minBalance + gas <==> k < Needed(cfg, agent, gas)
  {
    if cfg.start(agent) < cfg.minBalance + gas {
      CeilDivExactly(k, cfg.minBalance + gas - cfg.start(agent), cfg.topUp);
    } else {
      Multiples(k, 0, cfg.topUp);
    }
  }

  /** The agent is short exactly while it got fewer top-ups than its shortfall and its gas take. */
  lemma ShortExactly(cfg: Config, s: State, agent: Address)
    requires cfg.Valid()
    ensures Balance(cfg, s, agent) < cfg.minBalance <==> Tally(s.txs, agent) < Needed(cfg, agent, Burnt(s, agent))
  {
    NeededExactly(cfg, agent, Burnt(s, agent), Tally(s.txs, agent));
  }

  lemma NeededGrows(cfg: Config, agent: Address, gas: nat, more: nat)
    requires cfg.Valid() && gas <= more
    ensures Needed(cfg, agent, gas) <= Needed(cfg, agent, more)
  {
    if Needed(cfg, agent, gas) > 0 {
      var k := Needed(cfg, agent, gas) - 1;
      NeededExactly(cfg, agent, gas, k);
      NeededExactly(cfg, agent, more, k);
    }
  }

  // ---- the bound ----

  /** The lock is held by a caller of the agent that is about to fund it. */
  predicate Going(s: State, agent: Address) {
    && s.holder.Some? && s.holder.value < |s.callers| && s.callers[s.holder.value].agent == agent
    && var pc := s.callers[s.holder.value].pc; pc.Clear? || pc.Solvent? || pc.HasNonce?
  }

  predicate Awaited(s: State, agent: Address) {
    s.holder.Some? && s.holder.value < |s.callers| && IsAwaited(s, s.holder.value, agent)
  }

  /** With `m` misreads and `r` strays so far. */
  predicate Within(s: State, agent: Address, needed: nat, m: nat, r: nat) {
    && Tally(s.txs, agent) + Count(s.txs, agent, Pending) + One(Going(s, agent)) <= needed + m + r
    && Count(s.txs, agent, Pending) <= r + One(Awaited(s, agent))
  }

  lemma SecondReadIsWithin(cfg: Config, s: State, c: nat, read: Option<nat>, agent: Address, needed: nat, m: nat, r: nat)
    requires cfg.Valid() && Exclusive(s) && c < |s.callers| && needed == Needed(cfg, agent, Burnt(s, agent))
    requires Within(s, agent, needed, m, r)
    ensures Within(Acted(cfg, s, c, SecondRead(read)), agent, needed, m + One(Misread(cfg, s, Do(c, SecondRead(read)), agent)), r)
  {
    ShortExactly(cfg, s, agent);
  }

  /** The funding is taken up, and its caller waits for it or leaves. */
  lemma TakenUpIsWithin(s: State, c: nat, tx: Tx, s2: State, agent: Address, needed: nat, m: nat, r: nat)
    requires s.holder == Some(c) && c < |s.callers| && s.callers[c].agent == tx.agent && s.callers[c].pc.HasNonce?
    requires tx.verdict == Pending && s2.txs == s.txs + [tx] && Within(s, agent, needed, m, r)
    requires s2.holder == None || (s2.holder == Some(c) && c < |s2.callers| && s2.callers[c].pc == Waiting(|s.txs|))
    ensures Within(s2, agent, needed, m, r + One(s2.holder == None && tx.agent == agent))
  {
    CountAppend(s.txs, tx, agent, Mined);
    CountAppend(s.txs, tx, agent, Pending);
  }

  lemma SendIsWithin(cfg: Config, s: State, c: nat, act: Act, agent: Address, needed: nat, m: nat, r: nat)
    requires Exclusive(s) && c < |s.callers| && act.Send? && Within(s, agent, needed, m, r)
    ensures Within(Acted(cfg, s, c, act), agent, needed, m, r + One(Strays(s, Do(c, act), agent)))
  {
    if s.callers[c].pc.HasNonce? {
      if act.accepted {
        var s2 := Acted(cfg, s, c, act);
        assert s2.txs == s.txs + [Tx(s.callers[c].pc.nonce, s.callers[c].agent, Pending)];
        TakenUpIsWithin(s, c, s2.txs[|s.txs|], s2, agent, needed, m, r);
      }
    }
  }

  lemma OtherActIsWithin(cfg: Config, s: State, c: nat, act: Act, agent: Address, needed: nat, m: nat, r: nat)
    requires Exclusive(s) && c < |s.callers| && !act.Send? && !act.SecondRead? && Within(s, agent, needed, m, r)
    ensures Within(Acted(cfg, s, c, act), agent, needed, m, r + One(Strays(s, Do(c, act), agent)))
  {
  }

  lemma MineIsWithin(cfg: Config, s: State, i: nat, ok: bool, agent: Address, needed: nat, m: nat, r: nat)
    requires Exclusive(s) && i < |s.txs| && s.txs[i].verdict == Pending && Within(s, agent, needed, m, r)
    ensures Within(Next(cfg, s, Mine(i, ok)), agent, needed, m, r)
  {
    CountUpdate(s.txs, i, if ok then Mined else Failed, agent, Mined);
    CountUpdate(s.txs, i, if ok then Mined else Failed, agent, Pending);
  }

  lemma ActIsWithin(cfg: Config, s: State, c: nat, act: Act, agent: Address, needed: nat, m: nat, r: nat)
    requires cfg.Valid() && Exclusive(s) && c < |s.callers| && needed == Needed(cfg, agent, Burnt(s, agent))
    requires Within(s, agent, needed, m, r)
    ensures Acted(cfg, s, c, act).burnt == s.burnt
    ensures Within(Acted(cfg, s, c, act), agent, needed,
                   m + One(Misread(cfg, s, Do(c, act), agent)), r + One(Strays(s, Do(c, act), agent)))
  {
    if act.Send? {
      SendIsWithin(cfg, s, c, act, agent, needed, m, r);
    } else if act.SecondRead? {
      SecondReadIsWithin(cfg, s, c, act.balance, agent, needed, m, r);
    } else {
      OtherActIsWithin(cfg, s, c, act, agent, needed, m, r);
    }
  }

  lemma NextIsWithin(cfg: Config, s: State, e: Step, agent: Address, m: nat, r: nat)
    requires cfg.Valid() && Exclusive(s) && Within(s, agent, Needed(cfg, agent, Burnt(s, agent)), m, r)
    ensures Within(Next(cfg, s, e), agent, Needed(cfg, agent, Burnt(Next(cfg, s, e), agent)),
                   m + One(Misread(cfg, s, e, agent)), r + One(Strays(s, e, agent)))
  {
    var needed := Needed(cfg, agent, Burnt(s, agent));
    match e
    case Call(_) =>
    case Do(c, act) =>
      if c < |s.callers| {
        ActIsWithin(cfg, s, c, act, agent, needed, m, r);
      }
    case Mine(i, ok) =>
      if i < |s.txs| && s.txs[i].verdict == Pending {
        MineIsWithin(cfg, s, i, ok, agent, needed, m, r);
      }
    case Burn(_, _) =>
      NeededGrows(cfg, agent, Burnt(s, agent), Burnt(Next(cfg, s, e), agent));
  }

  lemma {:induction false} RunIsWithin(cfg: Config, steps: seq<Step>, agent: Address)
    requires cfg.Valid()
    ensures var s := Reach(cfg, steps);
      Within(s, agent, Needed(cfg, agent, Burnt(s, agent)), Misreads(cfg, steps, agent), Strayed(cfg, steps, agent))
  {
    if steps == [] {
    } else {
      var front, e := steps[..|steps| - 1], steps[|steps| - 1];
      assert front + [e] == steps;
      RunIsWithin(cfg, front, agent);
      ReachableLock(cfg, front);
      Extend(cfg, INITIAL, front, e);
      NextIsWithin(cfg, Reach(cfg, front), e, agent, Misreads(cfg, front, agent), Strayed(cfg, front, agent));
    }
  }

  // ---- what the agent has ----

  predicate Affords(cfg: Config, s: State, agent: Address) {
    Burnt(s, agent) <= cfg.start(agent) + Tally(s.txs, agent) * cfg.topUp
  }

  lemma TallyGrows(cfg: Config, s: State, e: Step, agent: Address)
    ensures Tally(Next(cfg, s, e).txs, agent) >= Tally(s.txs, agent)
    ensures !e.Burn? ==> Next(cfg, s, e).burnt == s.burnt
  {
    match e
    case Do(c, act) =>
      if c < |s.callers| && act.Send? && s.callers[c].pc.HasNonce? {
        CountAppend(s.txs, Tx(s.callers[c].pc.nonce, s.callers[c].agent, Pending), agent, Mined);
      }
    case Mine(i, ok) =>
      if i < |s.txs| && s.txs[i].verdict == Pending {
        CountUpdate(s.txs, i, if ok then Mined else Failed, agent, Mined);
      }
    case _ =>
  }

  lemma BurnAffords(cfg: Config, s: State, a: Address, gas: nat, agent: Address)
    requires Affords(cfg, s, agent)
    ensures Affords(cfg, Next(cfg, s, Burn(a, gas)), agent)
  {
  }

  lemma NextAffords(cfg: Config, s: State, e: Step, agent: Address)
    requires Affords(cfg, s, agent)
    ensures Affords(cfg, Next(cfg, s, e), agent)
  {
    if e.Burn? {
      BurnAffords(cfg, s, e.agent, e.gas, agent);
    } else {
      TallyGrows(cfg, s, e, agent);
      Multiples(Tally(Next(cfg, s, e).txs, agent), Tally(s.txs, agent), cfg.topUp);
    }
  }

  /** No agent spends gas it does not have. */
  lemma {:induction false} RunAffords(cfg: Config, steps: seq<Step>, agent: Address)
    ensures Affords(cfg, Reach(cfg, steps), agent)
  {
    if steps == [] {
    } else {
      var front, e := steps[..|steps| - 1], steps[|steps| - 1];
      assert front + [e] == steps;
      RunAffords(cfg, front, agent);
      Extend(cfg, INITIAL, front, e);
      NextAffords(cfg, Reach(cfg, front), e, agent);
    }
  }

  lemma NeededBounds(cfg: Config, agent: Address, gas: nat)
    requires cfg.Valid()
    ensures if cfg.start(agent) >= cfg.minBalance + gas then Needed(cfg, agent, gas) == 0
            else cfg.start(agent) + Needed(cfg, agent, gas) * cfg.topUp < cfg.minBalance + gas + cfg.topUp
  {
    if cfg.start(agent) < cfg.minBalance + gas {
      CeilDivExactly(0, cfg.minBalance + gas - cfg.start(agent), cfg.topUp);
    }
  }

  lemma TopUpsAddUp(k: nat, needed: nat, faults: nat, topUp: nat)
    requires k <= needed + faults
    ensures k * topUp <= needed * topUp + faults * topUp
    ensures (faults + 1) * topUp == faults * topUp + topUp
  {
    Multiples(needed + faults, k, topUp);
    assert (needed + faults) * topUp == needed * topUp + faults * topUp;
  }

  lemma BalanceIsBounded(start: nat, min: nat, gas: nat, topUp: nat, needed: nat, k: nat, faults: nat, balance: nat)
    requires k <= needed + faults && balance + gas == start + k * topUp
    requires if start >= min + gas then needed == 0 else start + needed * topUp < min + gas + topUp
    ensures start >= min + gas ==> balance <= start - gas + faults * topUp
    ensures start < min + gas ==> balance < min + (faults + 1) * topUp
  {
    TopUpsAddUp(k, needed, faults, topUp);
  }

  lemma BalanceAddsUp(cfg: Config, s: State, agent: Address)
    requires Affords(cfg, s, agent)
    ensures Balance(cfg, s, agent) + Burnt(s, agent) == cfg.start(agent) + Tally(s.txs, agent) * cfg.topUp
  {
  }

  /**
   So many faults allow so many fundings. The balance is the start and the fundings less the gas spent. Without faults it stays
   below minBalance + topUp, and is what is left of the start if that was enough.
   */
  predicate FundedWithin(cfg: Config, s: State, agent: Address, faults: nat)
    requires cfg.Valid()
  {
    var start, gas, balance := cfg.start(agent), Burnt(s, agent), Balance(cfg, s, agent);
    && Tally(s.txs, agent) + Count(s.txs, agent, Pending) <= Needed(cfg, agent, gas) + faults
    && balance + gas == start + Tally(s.txs, agent) * cfg.topUp
    && (start >= cfg.minBalance + gas ==> balance <= start - gas + faults * cfg.topUp)
    && (start < cfg.minBalance + gas ==> balance < cfg.minBalance + (faults + 1) * cfg.topUp)
  }

  lemma StateIsBounded(cfg: Config, s: State, agent: Address, m: nat, r: nat)
    requires cfg.Valid() && Affords(cfg, s, agent) && Within(s, agent, Needed(cfg, agent, Burnt(s, agent)), m, r)
    ensures FundedWithin(cfg, s, agent, m + r)
  {
    var gas, k, balance := Burnt(s, agent), Tally(s.txs, agent), Balance(cfg, s, agent);
    var needed := Needed(cfg, agent, gas);
    BalanceAddsUp(cfg, s, agent);
    NeededBounds(cfg, agent, gas);
    BalanceIsBounded(cfg.start(agent), cfg.minBalance, gas, cfg.topUp, needed, k, m + r, balance);
  }

  /**
   In any run, whatever is read, sent, reported, lost or spent, an agent is funded, mined and pending taken together, at most
   ceil((minBalance + gas - start) / topUp) times for the gas it spent, and once more for each misread and each stray.
   */
  lemma FundingIsBounded(cfg: Config, steps: seq<Step>, agent: Address)
    requires cfg.Valid()
    ensures FundedWithin(cfg, Reach(cfg, steps), agent, Misreads(cfg, steps, agent) + Strayed(cfg, steps, agent))
  {
    RunIsWithin(cfg, steps, agent);
    RunAffords(cfg, steps, agent);
    StateIsBounded(cfg, Reach(cfg, steps), agent, Misreads(cfg, steps, agent), Strayed(cfg, steps, agent));
  }

  // ---- the bound is reached ----

  /** A read of an agent's balance tells the truth or fails. */
  predicate Candid(cfg: Config, s: State, e: Step) {
    e.Do? && e.c < |s.callers| && (e.act.FirstRead? || e.act.SecondRead?) ==>
      e.act.balance in {None, Some(Balance(cfg, s, s.callers[e.c].agent))}
  }

  predicate CandidRun(cfg: Config, steps: seq<Step>) {
    steps != [] ==>
      var n := |steps| - 1;
      CandidRun(cfg, steps[..n]) && Candid(cfg, Reach(cfg, steps[..n]), steps[n])
  }

  lemma CountersGrow(cfg: Config, agent: Address, steps: seq<Step>, e: Step, more: seq<Step>)
    requires more == steps + [e]
    ensures Misreads(cfg, more, agent) == Misreads(cfg, steps, agent) + One(Misread(cfg, Reach(cfg, steps), e, agent))
    ensures Strayed(cfg, more, agent) == Strayed(cfg, steps, agent) + One(Strays(Reach(cfg, steps), e, agent))
    ensures CandidRun(cfg, more) <==> CandidRun(cfg, steps) && Candid(cfg, Reach(cfg, steps), e)
  {
    assert more != [] && more[..|more| - 1] == steps && more[|more| - 1] == e;
  }

  lemma Grow(cfg: Config, agent: Address, steps: seq<Step>, s: State, e: Step) returns (more: seq<Step>)
    requires Reach(cfg, steps) == s && CandidRun(cfg, steps) && Candid(cfg, s, e)
    ensures Reach(cfg, more) == Next(cfg, s, e) && CandidRun(cfg, more)
    ensures Misreads(cfg, more, agent) == Misreads(cfg, steps, agent) + One(Misread(cfg, s, e, agent))
    ensures Strayed(cfg, more, agent) == Strayed(cfg, steps, agent) + One(Strays(s, e, agent))
  {
    more := steps + [e];
    Extend(cfg, INITIAL, steps, e);
    CountersGrow(cfg, agent, steps, e, more);
  }

  /** A run so far: where it ends, and its faults; no read lies. */
  predicate Shape(cfg: Config, agent: Address, steps: seq<Step>, s: State, m: nat, r: nat) {
    && Reach(cfg, steps) == s && Misreads(cfg, steps, agent) == m && Strayed(cfg, steps, agent) == r
    && CandidRun(cfg, steps)
  }

  /** A step that is no fault. */
  lemma Goes(cfg: Config, agent: Address, steps: seq<Step>, s: State, m: nat, r: nat, e: Step)
    returns (more: seq<Step>)
    requires Shape(cfg, agent, steps, s, m, r) && Candid(cfg, s, e) && !Misread(cfg, s, e, agent) && !Strays(s, e, agent)
    ensures Shape(cfg, agent, more, Next(cfg, s, e), m, r)
  {
    more := Grow(cfg, agent, steps, s, e);
  }

  predicate ReadsBalance(e: Step) {
    e.Do? && (e.act.FirstRead? || e.act.SecondRead?)
  }

  /** Nor is any step that reads no balance, unless it strays. */
  lemma GoesOn(cfg: Config, agent: Address, steps: seq<Step>, s: State, m: nat, r: nat, e: Step) returns (more: seq<Step>)
    requires Shape(cfg, agent, steps, s, m, r) && !ReadsBalance(e) && !Strays(s, e, agent)
    ensures Shape(cfg, agent, more, Next(cfg, s, e), m, r)
  {
    more := Goes(cfg, agent, steps, s, m, r, e);
  }

  /** A second read that finds the agent short, or fails; it is a fault if the agent has enough. */
  lemma ReadsAgain(cfg: Config, agent: Address, before: seq<Step>, s: State, m: nat, r: nat, c: nat, read: Option<nat>, m2: nat)
    returns (steps: seq<Step>)
    requires Shape(cfg, agent, before, s, m, r) && !Enough(cfg, read) && read in {None, Some(Balance(cfg, s, agent))}
    requires c < |s.callers| && s.callers[c] == Caller(agent, Locked)
    requires m2 == m + One(Balance(cfg, s, agent) >= cfg.minBalance)
    ensures Shape(cfg, agent, steps, Next(cfg, s, Do(c, SecondRead(read))), m2, r)
  {
    steps := Grow(cfg, agent, before, s, Do(c, SecondRead(read)));
  }

  lemma SameBalance(cfg: Config, s: State, s2: State, agent: Address)
    requires s2.txs == s.txs && s2.burnt == s.burnt
    ensures Balance(cfg, s2, agent) == Balance(cfg, s, agent)
  {
  }

  /** Caller `c` is about to broadcast a funding, with the lock held. */
  function Loaded(cfg: Config, s: State, c: nat, agent: Address): State
    requires c < |s.callers|
  {
    State(s.txs, Some(c), s.callers[c := Caller(agent, HasNonce(cfg.base + |s.txs|))], s.burnt)
  }

  lemma ChecksPass(cfg: Config, s: State, c: nat, agent: Address, read: Option<nat>)
    requires s.holder == None && c < |s.callers| && s.callers[c] == Caller(agent, WantsLock) && !Enough(cfg, read)
    ensures var s1 := Next(cfg, s, Do(c, TakeLock));
      var s2 := Next(cfg, s1, Do(c, SecondRead(read)));
      var s3 := Next(cfg, s2, Do(c, FunderRead(Some(cfg.topUp + 1))));
      && s1 == State(s.txs, Some(c), s.callers[c := Caller(agent, Locked)], s.burnt)
      && s2 == State(s.txs, Some(c), s.callers[c := Caller(agent, Clear)], s.burnt)
      && s3 == State(s.txs, Some(c), s.callers[c := Caller(agent, Solvent)], s.burnt)
      && Next(cfg, s3, Do(c, FetchNonce(Some(cfg.base + |s.txs|)))) == Loaded(cfg, s, c, agent)
  {
  }

  /** A waiting caller gets as far as its nonce; its second read is a fault if the agent has enough. */
  lemma Loads(cfg: Config, agent: Address, before: seq<Step>, s: State, m: nat, r: nat, c: nat, read: Option<nat>, m2: nat)
    returns (steps: seq<Step>)
    requires Shape(cfg, agent, before, s, m, r) && !Enough(cfg, read) && read in {None, Some(Balance(cfg, s, agent))}
    requires s.holder == None && c < |s.callers| && s.callers[c] == Caller(agent, WantsLock)
    requires m2 == m + One(Balance(cfg, s, agent) >= cfg.minBalance)
    ensures Shape(cfg, agent, steps, Loaded(cfg, s, c, agent), m2, r)
  {
    ChecksPass(cfg, s, c, agent, read);
    steps := GoesOn(cfg, agent, before, s, m, r, Do(c, TakeLock));
    var s1 := State(s.txs, Some(c), s.callers[c := Caller(agent, Locked)], s.burnt);
    SameBalance(cfg, s, s1, agent);
    steps := ReadsAgain(cfg, agent, steps, s1, m, r, c, read, m2);
    var s2 := State(s.txs, Some(c), s.callers[c := Caller(agent, Clear)], s.burnt);
    steps := GoesOn(cfg, agent, steps, s2, m2, r, Do(c, FunderRead(Some(cfg.topUp + 1))));
    var s3 := State(s.txs, Some(c), s.callers[c := Caller(agent, Solvent)], s.burnt);
    steps := GoesOn(cfg, agent, steps, s3, m2, r, Do(c, FetchNonce(Some(cfg.base + |s.txs|))));
  }

  /** The funding goes through and its caller hears of it. */
  lemma Lands(cfg: Config, s: State, c: nat, agent: Address)
    requires c < |s.callers| && s.callers[c].agent == agent
    ensures var n := |s.txs|; var tx := Tx(cfg.base + n, agent, Pending);
      var s1 := Next(cfg, Loaded(cfg, s, c, agent), Do(c, Send(true, true)));
      var s2 := Next(cfg, s1, Mine(n, true));
      && s1 == State(s.txs + [tx], Some(c), s.callers[c := Caller(agent, Waiting(n))], s.burnt)
      && s2 == State(s.txs + [tx.(verdict := Mined)], Some(c), s.callers[c := Caller(agent, Waiting(n))], s.burnt)
      && Next(cfg, s2, Do(c, Receipt)) == State(s.txs + [tx.(verdict := Mined)], None, s.callers[c := Caller(agent, Done(Funded))], s.burnt)
  {
    var n := |s.txs|;
    var tx := Tx(cfg.base + n, agent, Pending);
    assert (s.txs + [tx])[n := tx.(verdict := Mined)] == s.txs + [tx.(verdict := Mined)];
  }

  /** The wait times out with the funding pending. */
  lemma Leaves(cfg: Config, s: State, c: nat, agent: Address)
    requires c < |s.callers| && s.callers[c].agent == agent
    ensures var n := |s.txs|; var tx := Tx(cfg.base + n, agent, Pending);
      var s1 := Next(cfg, Loaded(cfg, s, c, agent), Do(c, Send(true, true)));
      && s1 == State(s.txs + [tx], Some(c), s.callers[c := Caller(agent, Waiting(n))], s.burnt)
      && Strays(s1, Do(c, LoseReceipt), agent)
      && Next(cfg, s1, Do(c, LoseReceipt)) == State(s.txs + [tx], None, s.callers[c := Caller(agent, Done(Trouble))], s.burnt)
  {
  }

  /** `k` fundings mined, `p` pending and `b` gas spent, with the callers from `from` to `n` still waiting for the lock. */
  predicate Stage(s: State, agent: Address, from: nat, n: nat, k: nat, p: nat, b: nat) {
    && s.holder == None && |s.callers| == n && Tally(s.txs, agent) == k && Count(s.txs, agent, Pending) == p && Burnt(s, agent) == b
    && forall c :: from <= c < n ==> s.callers[c] == Caller(agent, WantsLock)
  }

  lemma FundsOnce(cfg: Config, agent: Address, before: seq<Step>, s: State, m: nat, r: nat, c: nat, n: nat, k: nat,
                  p: nat, b: nat, read: Option<nat>)
    returns (steps: seq<Step>, s2: State)
    requires Shape(cfg, agent, before, s, m, r) && Stage(s, agent, c, n, k, p, b) && c < n
    requires !Enough(cfg, read) && read in {None, Some(Balance(cfg, s, agent))}
    ensures Shape(cfg, agent, steps, s2, m + One(Balance(cfg, s, agent) >= cfg.minBalance), r)
    ensures Stage(s2, agent, c + 1, n, k + 1, p, b)
  {
    var i, m2 := |s.txs|, m + One(Balance(cfg, s, agent) >= cfg.minBalance);
    var tx := Tx(cfg.base + i, agent, Pending);
    Lands(cfg, s, c, agent);
    steps := Loads(cfg, agent, before, s, m, r, c, read, m2);
    steps := GoesOn(cfg, agent, steps, Loaded(cfg, s, c, agent), m2, r, Do(c, Send(true, true)));
    var s1 := State(s.txs + [tx], Some(c), s.callers[c := Caller(agent, Waiting(i))], s.burnt);
    steps := GoesOn(cfg, agent, steps, s1, m2, r, Mine(i, true));
    steps := GoesOn(cfg, agent, steps, s1.(txs := s.txs + [tx.(verdict := Mined)]), m2, r, Do(c, Receipt));
    s2 := State(s.txs + [tx.(verdict := Mined)], None, s.callers[c := Caller(agent, Done(Funded))], s.burnt);
    CountAppend(s.txs, tx.(verdict := Mined), agent, Mined);
    CountAppend(s.txs, tx.(verdict := Mined), agent, Pending);
  }

  lemma StraysOnce(cfg: Config, agent: Address, before: seq<Step>, s: State, r: nat, c: nat, n: nat, b: nat)
    returns (steps: seq<Step>, s2: State)
    requires Shape(cfg, agent, before, s, 0, r) && Stage(s, agent, c, n, 0, r, b) && c < n
    requires Balance(cfg, s, agent) < cfg.minBalance
    ensures Shape(cfg, agent, steps, s2, 0, r + 1) && Stage(s2, agent, c + 1, n, 0, r + 1, b)
  {
    var i := |s.txs|;
    var tx := Tx(cfg.base + i, agent, Pending);
    Leaves(cfg, s, c, agent);
    steps := Loads(cfg, agent, before, s, 0, r, c, Some(Balance(cfg, s, agent)), 0);
    steps := GoesOn(cfg, agent, steps, Loaded(cfg, s, c, agent), 0, r, Do(c, Send(true, true)));
    var s1 := State(s.txs + [tx], Some(c), s.callers[c := Caller(agent, Waiting(i))], s.burnt);
    steps := Grow(cfg, agent, steps, s1, Do(c, LoseReceipt));
    s2 := State(s.txs + [tx], None, s.callers[c := Caller(agent, Done(Trouble))], s.burnt);
    CountAppend(s.txs, tx, agent, Mined);
    CountAppend(s.txs, tx, agent, Pending);
  }

  /** How much of `gas` is spent after `k` fundings by an agent that spends what it has as soon as it can. */
  function SpentBy(cfg: Config, agent: Address, gas: nat, k: nat): nat {
    var got := cfg.start(agent) + k * cfg.topUp;
    if got < gas then got else gas
  }

  /** Such an agent is short exactly while the fundings needed for all its gas are not there yet. */
  lemma ShortWhile(cfg: Config, s: State, agent: Address, gas: nat)
    requires cfg.Valid() && Burnt(s, agent) == SpentBy(cfg, agent, gas, Tally(s.txs, agent))
    ensures Balance(cfg, s, agent) < cfg.minBalance <==> Tally(s.txs, agent) < Needed(cfg, agent, gas)
  {
    NeededExactly(cfg, agent, gas, Tally(s.txs, agent));
  }

  lemma SpendsOn(cfg: Config, agent: Address, before: seq<Step>, s: State, m: nat, r: nat, c: nat, n: nat, k: nat, p: nat,
                 b: nat, gas: nat)
    returns (steps: seq<Step>, s2: State)
    requires Shape(cfg, agent, before, s, m, r) && Stage(s, agent, c, n, k, p, b) && b <= SpentBy(cfg, agent, gas, k)
    ensures Shape(cfg, agent, steps, s2, m, r) && Stage(s2, agent, c, n, k, p, SpentBy(cfg, agent, gas, k)) && s2.txs == s.txs
  {
    var e := Burn(agent, SpentBy(cfg, agent, gas, k) - b);
    steps := GoesOn(cfg, agent, before, s, m, r, e);
    s2 := Next(cfg, s, e);
  }

  lemma NeededIsPositive(cfg: Config, agent: Address, gas: nat)
    requires cfg.Valid() && cfg.start(agent) < cfg.minBalance + gas
    ensures Needed(cfg, agent, gas) > 0
  {
    NeededExactly(cfg, agent, gas, 0);
  }

  lemma QueuesOnce(cfg: Config, agent: Address, before: seq<Step>, s0: State, n: nat, b: nat) returns (steps: seq<Step>, s: State)
    requires Shape(cfg, agent, before, s0, 0, 0) && Stage(s0, agent, 0, n, 0, 0, b) && s0.txs == []
    requires Balance(cfg, s0, agent) < cfg.minBalance
    ensures Shape(cfg, agent, steps, s, 0, 0) && Stage(s, agent, 0, n + 1, 0, 0, b) && s.txs == []
  {
    steps := GoesOn(cfg, agent, before, s0, 0, 0, Call(agent));
    var s1 := s0.(callers := s0.callers + [Caller(agent, Entered)]);
    var look := Do(n, FirstRead(Some(Balance(cfg, s0, agent))));
    SameBalance(cfg, s0, s1, agent);
    steps := Goes(cfg, agent, steps, s1, 0, 0, look);
    s := s0.(callers := s0.callers + [Caller(agent, WantsLock)]);
    assert Next(cfg, s1, look) == s;
  }

  /** All callers look while the agent is short, and queue for the lock. */
  lemma {:induction false} AllQueue(cfg: Config, agent: Address, gas: nat, n: nat) returns (steps: seq<Step>, s: State)
    requires cfg.Valid() && cfg.start(agent) < cfg.minBalance + gas
    ensures Shape(cfg, agent, steps, s, 0, 0) && Stage(s, agent, 0, n, 0, 0, SpentBy(cfg, agent, gas, 0)) && s.txs == []
  {
    if n == 0 {
      steps, s := SpendsOn(cfg, agent, [], INITIAL, 0, 0, 0, 0, 0, 0, 0, gas);
    } else {
      var s0;
      steps, s0 := AllQueue(cfg, agent, gas, n - 1);
      NeededIsPositive(cfg, agent, gas);
      ShortWhile(cfg, s0, agent, gas);
      steps, s := QueuesOnce(cfg, agent, steps, s0, n - 1, SpentBy(cfg, agent, gas, 0));
    }
  }

  /** Then `r` of them stray. */
  lemma {:induction false} SomeStray(cfg: Config, agent: Address, gas: nat, n: nat, r: nat) returns (steps: seq<Step>, s: State)
    requires cfg.Valid() && cfg.start(agent) < cfg.minBalance + gas && r <= n
    ensures Shape(cfg, agent, steps, s, 0, r) && Stage(s, agent, r, n, 0, r, SpentBy(cfg, agent, gas, 0))
  {
    if r == 0 {
      steps, s := AllQueue(cfg, agent, gas, n);
    } else {
      steps, s := SomeStray(cfg, agent, gas, n, r - 1);
      NeededIsPositive(cfg, agent, gas);
      ShortWhile(cfg, s, agent, gas);
      steps, s := StraysOnce(cfg, agent, steps, s, r - 1, r - 1, n, SpentBy(cfg, agent, gas, 0));
    }
  }

  /** The next `k` fund the agent, which spends on; a second read has to fail only once the agent has enough. */
  lemma {:induction false} SomeFund(cfg: Config, agent: Address, gas: nat, n: nat, r: nat, k: nat) returns (steps: seq<Step>, s: State)
    requires cfg.Valid() && cfg.start(agent) < cfg.minBalance + gas && r + k <= n
    ensures var needed := Needed(cfg, agent, gas);
      && Shape(cfg, agent, steps, s, if k <= needed then 0 else k - needed, r)
      && Stage(s, agent, r + k, n, k, r, SpentBy(cfg, agent, gas, k))
  {
    if k == 0 {
      steps, s := SomeStray(cfg, agent, gas, n, r);
    } else {
      steps, s := SomeFund(cfg, agent, gas, n, r, k - 1);
      ShortWhile(cfg, s, agent, gas);
      var balance, b, needed := Balance(cfg, s, agent), SpentBy(cfg, agent, gas, k - 1), Needed(cfg, agent, gas);
      var read := if balance < cfg.minBalance then Some(balance) else None;
      steps, s := FundsOnce(cfg, agent, steps, s, if k - 1 <= needed then 0 else k - 1 - needed, r, r + k - 1, n, k - 1, r, b, read);
      Multiples(k, k - 1, cfg.topUp);
      steps, s := SpendsOn(cfg, agent, steps, s, if k <= needed then 0 else k - needed, r, r + k, n, k, r, b, gas);
    }
  }

  lemma {:induction false} SomePending(txs: seq<Tx>, agent: Address) returns (i: nat)
    requires Count(txs, agent, Pending) > 0
    ensures i < |txs| && txs[i].agent == agent && txs[i].verdict == Pending
  {
    var n := |txs| - 1;
    if txs[n].agent == agent && txs[n].verdict == Pending {
      i := n;
    } else {
      i := SomePending(txs[..n], agent);
    }
  }

  /** In the end what strayed is mined too. */
  lemma {:induction false} AllLand(cfg: Config, agent: Address, before: seq<Step>, s: State, m: nat, r: nat, k: nat, p: nat)
    returns (steps: seq<Step>)
    requires Shape(cfg, agent, before, s, m, r) && Tally(s.txs, agent) == k && Count(s.txs, agent, Pending) == p
    ensures Misreads(cfg, steps, agent) == m && Strayed(cfg, steps, agent) == r && CandidRun(cfg, steps)
    ensures Tally(Reach(cfg, steps).txs, agent) == k + p && Burnt(Reach(cfg, steps), agent) == Burnt(s, agent)
    decreases p
  {
    if p == 0 {
      steps := before;
    } else {
      var i := SomePending(s.txs, agent);
      CountUpdate(s.txs, i, Mined, agent, Mined);
      CountUpdate(s.txs, i, Mined, agent, Pending);
      steps := GoesOn(cfg, agent, before, s, m, r, Mine(i, true));
      steps := AllLand(cfg, agent, steps, Next(cfg, s, Mine(i, true)), m, r, k + 1, p - 1);
    }
  }

  /**
   The bound is exact: for any gas that leaves the agent short and any numbers of misreads and strays there is a run with just
   these, in which no read lies, that funds the agent as often as its shortfall and its gas take and once more for each fault.
   So failed second reads alone, or waits that time out alone, fund an agent without end.
   */
  lemma BoundIsReached(cfg: Config, agent: Address, gas: nat, m: nat, r: nat) returns (steps: seq<Step>)
    requires cfg.Valid() && cfg.start(agent) < cfg.minBalance + gas
    ensures CandidRun(cfg, steps) && Misreads(cfg, steps, agent) == m && Strayed(cfg, steps, agent) == r
    ensures Burnt(Reach(cfg, steps), agent) == gas
    ensures Tally(Reach(cfg, steps).txs, agent) == Needed(cfg, agent, gas) + m + r
  {
    var k := Needed(cfg, agent, gas) + m;
    var s;
    steps, s := SomeFund(cfg, agent, gas, r + k, r, k);
    NeededExactly(cfg, agent, gas, k);
    assert SpentBy(cfg, agent, gas, k) == gas;
    steps := AllLand(cfg, agent, steps, s, m, r, k, r);
  }
}
