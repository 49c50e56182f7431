/** Only authorizations their owners signed are ever broadcast. */
module LedgerSignatures {
  import opened Authorize
  import opened Bytes
  import opened Events
  import opened Ledger
  import opened LedgerBooks
  import opened Permit2
  import opened Runs
  import opened Signatures
  import opened Store
  import opened StoreHistory
  import opened Text
  import opened TypedData

  ghost predicate Genuine(crypto: Crypto, r: Authorization) {
    Signed(r) ==> Authentic(crypto, r)
  }

  ghost predicate AllGenuine(crypto: Crypto, rows: seq<Authorization>) {
    forall i :: 0 <= i < |rows| ==> Genuine(crypto, rows[i])
  }

  /** A spend works from a signed row, and broadcasts a permit only if the row encodes. */
  ghost predicate GenuineThread(crypto: Crypto, th: Thread) {
    Authentic(crypto, th.row) && (th.permit != Unsent ==> PermitCalldata(th.row).Some?)
  }

  ghost predicate GenuineState(crypto: Crypto, s: State) {
    AllGenuine(crypto, s.rows) && forall t :: 0 <= t < |s.threads| ==> GenuineThread(crypto, s.threads[t])
  }

  /** What is signed does not include the counters and flags of a row. */
  lemma GenuineFields(crypto: Crypto, r: Authorization, spent: string, locked: bool, created: int64)
    requires Genuine(crypto, r)
    ensures Genuine(crypto, r.(spentAtoms := spent, onchainLocked := locked, createdAtUnix := created))
  {
    var q := r.(spentAtoms := spent, onchainLocked := locked, createdAtUnix := created);
    if Signed(r) {
      var m :| Describes(r, m) && SignedBy(crypto, HexToAddress(r.owner), m, SigOnchain(r.signatureHex).value);
      assert Describes(q, m);
    }
  }

  lemma ApplyKeepsGenuine(crypto: Crypto, rows: seq<Authorization>, op: Op)
    requires AllGenuine(crypto, rows) && (op.Put? ==> Genuine(crypto, op.a))
    ensures AllGenuine(crypto, Apply(rows, op))
  {
    var after := Apply(rows, op);
    forall i | 0 <= i < |after| ensures Genuine(crypto, after[i]) {
      var from := if op.Put? && (i == |rows| || after[i] != rows[i]) then op.a else rows[i];
      assert after[i] == from.(spentAtoms := after[i].spentAtoms, onchainLocked := after[i].onchainLocked,
                               createdAtUnix := after[i].createdAtUnix);
      GenuineFields(crypto, from, after[i].spentAtoms, after[i].onchainLocked, after[i].createdAtUnix);
    }
  }

  lemma ObservedIsUnsigned(crypto: Crypto, ours: string -> bool, l: Log)
    requires LogOp(ours, l).Some? && LogOp(ours, l).value.Put?
    ensures Genuine(crypto, LogOp(ours, l).value.a)
  {
  }

  lemma RowsStayGenuine(env: Env, s: State, e: Step)
    requires AllGenuine(env.crypto, s.rows) && Inv(s)
    ensures AllGenuine(env.crypto, Next(env, s, e).rows)
  {
    var c := NextChanges(env, s, e);
    match c
    case Rows(op) =>
      if op.Put? {
        NewRowIsGenuine(env, e);
      }
      ApplyKeepsGenuine(env.crypto, s.rows, op);
    case Books(t) => ApplyKeepsGenuine(env.crypto, s.rows, Bump(IdOf(s.threads[t].row), s.threads[t].amount));
    case _ =>
  }

  lemma NewRowIsGenuine(env: Env, e: Step)
    requires RowOp(env, e).Some? && RowOp(env, e).value.Put?
    ensures Genuine(env.crypto, RowOp(env, e).value.a)
  {
    if e.Verify? {
      VerifiedIsAuthentic(env.crypto, e.claim);
    } else {
      ObservedIsUnsigned(env.crypto, env.ours, e.log);
    }
  }

  lemma ChangeKeepsGenuine(crypto: Crypto, s: State, c: Change, s2: State)
    requires GenuineState(crypto, s) && Changed(s, c, s2)
    ensures forall t :: 0 <= t < |s2.threads| ==> GenuineThread(crypto, s2.threads[t])
  {
    match c
    case Opens(th) =>
      var i :| 0 <= i < |s.rows| && s.rows[i] == th.row;
      assert Genuine(crypto, s.rows[i]);
    case Moves(t, after) =>
      assert GenuineThread(crypto, s.threads[t]);
    case Books(t) =>
      assert GenuineThread(crypto, s.threads[t]);
    case _ =>
  }

  lemma ReachableIsGenuine(env: Env, steps: seq<Step>)
    ensures Inv(Reach(env, steps)) && GenuineState(env.crypto, Reach(env, steps))
  {
    var any := Id("", "", "", 0);
    var inv := (s: State, done: seq<Step>) => Inv(s) && Balanced(s, any) && GenuineState(env.crypto, s);
    forall s, k | 0 <= k < |steps| && inv(s, steps[..k]) ensures inv(Next(env, s, steps[k]), steps[..k + 1]) {
      NextKeepsBooks(env, s, steps[k], any);
      RowsStayGenuine(env, s, steps[k]);
      var c := NextChanges(env, s, steps[k]);
      ChangeKeepsGenuine(env.crypto, s, c, Next(env, s, steps[k]));
    }
    RunKeeps((s, e) => Next(env, s, e), INITIAL, steps, inv);
  }

  /**
   In every interleaving of submissions, observed logs and spends, the calldata of each permit ever broadcast is 388
   bytes that decode to a message and a signature by which the message's owner signed it.
   */
  lemma OnlySignedPermitsAreSent(env: Env, steps: seq<Step>, t: nat)
    requires t < |Reach(env, steps).threads| && Reach(env, steps).threads[t].permit != Unsent
    ensures var data := PermitCalldata(Reach(env, steps).threads[t].row);
      && data.Some? && |data.value| == 388
      && var call := DecodePermitCall(data.value);
      && call.Some? && call.value.0 < TWO_160
      && SignedBy(env.crypto, call.value.0, call.value.1, call.value.2)
  {
    ReachableIsGenuine(env, steps);
    var r := Reach(env, steps).threads[t].row;
    PermitCallRoundTrip(RowArgs(r).value);
    SentPermitWasSigned(env.crypto, r);
  }

  /** Every signed row in the store was signed by its owner, for the fields it holds. */
  lemma OnlySignedRowsAreKept(env: Env, steps: seq<Step>, i: nat)
    requires i < |Reach(env, steps).rows| && Signed(Reach(env, steps).rows[i])
    ensures Authentic(env.crypto, Reach(env, steps).rows[i])
  {
    ReachableIsGenuine(env, steps);
    assert Genuine(env.crypto, Reach(env, steps).rows[i]);
  }
}
