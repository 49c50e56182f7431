/**
 The gas funder: any number of callers topping up agent accounts from one hot wallet. A caller looks at the balance,
 takes the lock, looks again, and holds the lock from fetching the wallet's nonce until the receipt.
 */
module GasFunder {
  import opened Runs
  import opened Text
  import opened Wrappers

  /** `start` gives each account's balance before any funding. */
  datatype Config = Config(minBalance: nat, topUp: nat, base: nat, start: Address -> nat) {
    predicate Valid() {
      minBalance > 0 && topUp > 0
    }
  }

  datatype Verdict = Pending | Mined | Failed

  /** A funding transaction the network took up. */
  datatype Tx = Tx(nonce: nat, agent: Address, verdict: Verdict)

  datatype Outcome = NotNeeded | Funded | Underfunded | Trouble

  datatype Pc =
    | Entered | WantsLock | Locked | Clear | Solvent | HasNonce(nonce: nat) | Waiting(tx: nat) | Done(outcome: Outcome)
  {
    /** Between taking and releasing the lock. */
    predicate Inside() {
      !Entered? && !WantsLock? && !Done?
    }
  }

  datatype Caller = Caller(agent: Address, pc: Pc)

  /** `burnt` is the gas each account has spent. */
  datatype State = State(txs: seq<Tx>, holder: Option<nat>, callers: seq<Caller>, burnt: map<Address, nat>)

  /** A read gives a value, right or wrong, or fails. */
  datatype Act =
    | FirstRead(balance: Option<nat>)
    | TakeLock
    | SecondRead(balance: Option<nat>)
    | FunderRead(balance: Option<nat>)
    | FetchNonce(nonce: Option<nat>)
    | Send(accepted: bool, reported: bool)
    | Receipt
    | LoseReceipt

  datatype Step = Call(agent: Address) | Do(c: nat, act: Act) | Mine(i: nat, ok: bool) | Burn(agent: Address, gas: nat)

  const INITIAL := State([], None, [], map[])

  /** How many of an agent's fundings have the given verdict. */
  function Count(txs: seq<Tx>, agent: Address, verdict: Verdict): nat {
    if txs == [] then 0
    else
      var n := |txs| - 1;
      Count(txs[..n], agent, verdict) + if txs[n].agent == agent && txs[n].verdict == verdict then 1 else 0
  }

  function Tally(txs: seq<Tx>, agent: Address): nat {
    Count(txs, agent, Mined)
  }

  function Burnt(s: State, agent: Address): nat {
    if agent in s.burnt then s.burnt[agent] else 0
  }

  /** The balance of an agent that is funded and spends gas. */
  function Balance(cfg: Config, s: State, agent: Address): nat {
    var got := cfg.start(agent) + Tally(s.txs, agent) * cfg.topUp;
    if got < Burnt(s, agent) then 0 else got - Burnt(s, agent)
  }

  /** A read that shows enough gas. */
  predicate Enough(cfg: Config, read: Option<nat>) {
    read.Some? && read.value >= cfg.minBalance
  }

  function At(s: State, c: nat, pc: Pc): State
    requires c < |s.callers|
  {
    s.(callers := s.callers[c := s.callers[c].(pc := pc)])
  }

  /** Returns, releasing the lock. */
  function Leave(s: State, c: nat, outcome: Outcome): State
    requires c < |s.callers|
  {
    At(s, c, Done(outcome)).(holder := None)
  }

  function Acted(cfg: Config, s: State, c: nat, act: Act): State
    requires c < |s.callers|
  {
    var pc := s.callers[c].pc;
    match act
    case FirstRead(balance) =>
      if pc != Entered then s
      else if balance.None? then At(s, c, Done(Trouble))
      else if balance.value >= cfg.minBalance then At(s, c, Done(NotNeeded))
      else At(s, c, WantsLock)
    case TakeLock =>
      if pc == WantsLock && s.holder.None? then At(s, c, Locked).(holder := Some(c)) else s
    case SecondRead(balance) =>
      if pc != Locked then s
      else if balance.Some? && balance.value >= cfg.minBalance then Leave(s, c, NotNeeded)
      else At(s, c, Clear)
    case FunderRead(balance) =>
      if pc != Clear then s
      else if balance.None? then Leave(s, c, Trouble)
      else if balance.value <= cfg.topUp then Leave(s, c, Underfunded)
      else At(s, c, Solvent)
    case FetchNonce(nonce) =>
      if pc != Solvent then s
      else if nonce.Some? then At(s, c, HasNonce(nonce.value))
      else Leave(s, c, Trouble)
    case Send(accepted, reported) =>
      if !pc.HasNonce? then s
      else
        var sent := if accepted then s.(txs := s.txs + [Tx(pc.nonce, s.callers[c].agent, Pending)]) else s;
        if accepted && reported then At(sent, c, Waiting(|s.txs|)) else Leave(sent, c, Trouble)
    case Receipt =>
      if !pc.Waiting? || pc.tx >= |s.txs| || s.txs[pc.tx].verdict == Pending then s
      else Leave(s, c, if s.txs[pc.tx].verdict == Mined then Funded else Trouble)
    case LoseReceipt =>
      if pc.Waiting? then Leave(s, c, Trouble) else s
  }

  function Next(cfg: Config, s: State, e: Step): State {
    match e
    case Call(agent) => s.(callers := s.callers + [Caller(agent, Entered)])
    case Do(c, act) => if c < |s.callers| then Acted(cfg, s, c, act) else s
    case Mine(i, ok) =>
      if i < |s.txs| && s.txs[i].verdict == Pending then
        s.(txs := s.txs[i := s.txs[i].(verdict := if ok then Mined else Failed)])
      else s
    case Burn(agent, gas) =>
      if gas <= Balance(cfg, s, agent) then s.(burnt := s.burnt[agent := Burnt(s, agent) + gas]) else s
  }

  function From(cfg: Config, s: State, steps: seq<Step>): State {
    Run((t, e) => Next(cfg, t, e), s, steps)
  }

  function Reach(cfg: Config, steps: seq<Step>): State {
    From(cfg, INITIAL, steps)
  }

  lemma Extend(cfg: Config, s: State, steps: seq<Step>, e: Step)
    ensures From(cfg, s, steps + [e]) == Next(cfg, From(cfg, s, steps), e)
  {
    RunSnoc((t, e) => Next(cfg, t, e), s, steps, e);
  }

  // ---- the lock and the nonce ----

  predicate Exclusive(s: State) {
    && (s.holder.Some? ==> s.holder.value < |s.callers|)
    && forall c: nat :: c < |s.callers| ==> (s.callers[c].pc.Inside() <==> s.holder == Some(c))
  }

  predicate Sequenced(cfg: Config, s: State) {
    && (forall i :: 0 <= i < |s.txs| ==> s.txs[i].nonce == cfg.base + i)
    && forall c :: 0 <= c < |s.callers| && s.callers[c].pc.HasNonce? ==> s.callers[c].pc.nonce == cfg.base + |s.txs|
  }

  /** A nonce that is read is the wallet's pending one: all it ever sent, which takes a dedicated key. */
  predicate PendingNonce(cfg: Config, s: State, e: Step) {
    e.Do? && e.act.FetchNonce? && e.act.nonce.Some? ==> e.act.nonce.value == cfg.base + |s.txs|
  }

  predicate PendingNonces(cfg: Config, steps: seq<Step>) {
    forall i :: 0 <= i < |steps| ==> PendingNonce(cfg, Reach(cfg, steps[..i]), steps[i])
  }

  lemma ActedKeepsLock(cfg: Config, s: State, c: nat, act: Act)
    requires Exclusive(s) && c < |s.callers|
    ensures Exclusive(Acted(cfg, s, c, act))
    ensures Sequenced(cfg, s) && PendingNonce(cfg, s, Do(c, act)) ==> Sequenced(cfg, Acted(cfg, s, c, act))
  {
  }

  lemma NextKeepsLock(cfg: Config, s: State, e: Step)
    requires Exclusive(s)
    ensures Exclusive(Next(cfg, s, e))
    ensures Sequenced(cfg, s) && PendingNonce(cfg, s, e) ==> Sequenced(cfg, Next(cfg, s, e))
  {
    match e
    case Call(_) =>
    case Do(c, act) => if c < |s.callers| { ActedKeepsLock(cfg, s, c, act); }
    case Mine(_, _) =>
    case Burn(_, _) =>
  }

  lemma ReachableLock(cfg: Config, steps: seq<Step>)
    ensures Exclusive(Reach(cfg, steps))
  {
    var inv := (s: State, done: seq<Step>) => Exclusive(s);
    forall s, k | 0 <= k < |steps| && inv(s, steps[..k]) ensures inv(Next(cfg, s, steps[k]), steps[..k + 1]) {
      NextKeepsLock(cfg, s, steps[k]);
    }
    RunKeeps((s, e) => Next(cfg, s, e), INITIAL, steps, inv);
  }

  lemma {:induction false} ReachableNonces(cfg: Config, steps: seq<Step>)
    requires PendingNonces(cfg, steps)
    ensures Sequenced(cfg, Reach(cfg, steps))
  {
    if steps == [] {
    } else {
      var front, e := steps[..|steps| - 1], steps[|steps| - 1];
      forall i | 0 <= i < |front| ensures PendingNonce(cfg, Reach(cfg, front[..i]), front[i]) {
        assert front[..i] == steps[..i] && front[i] == steps[i];
      }
      assert front + [e] == steps;
      ReachableNonces(cfg, front);
      ReachableLock(cfg, front);
      Extend(cfg, INITIAL, front, e);
      NextKeepsLock(cfg, Reach(cfg, front), e);
    }
  }

  /** In any interleaving, whatever is read, misreported or lost, at most one caller is between lock and unlock. */
  lemma LockIsExclusive(cfg: Config, steps: seq<Step>, c: nat, d: nat)
    requires c < d < |Reach(cfg, steps).callers|
    ensures !(Reach(cfg, steps).callers[c].pc.Inside() && Reach(cfg, steps).callers[d].pc.Inside())
  {
    ReachableLock(cfg, steps);
  }

  /**
   When the nonces read are the wallet's pending ones, the transactions taken up carry strictly increasing nonces without a
   gap, in any interleaving of callers, with any balances read, sends misreported and receipts lost.
   */
  lemma FundingIsSerialized(cfg: Config, steps: seq<Step>)
    requires PendingNonces(cfg, steps)
    ensures var txs := Reach(cfg, steps).txs;
      && (forall i :: 0 <= i < |txs| ==> txs[i].nonce == cfg.base + i)
      && (forall i, j :: 0 <= i < j < |txs| ==> txs[i].nonce < txs[j].nonce)
  {
    ReachableNonces(cfg, steps);
  }
}
