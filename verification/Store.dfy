/** The authorization store: rows of cached Permit2 authorizations, kept in insertion order. */
module Store {
  import opened Bytes
  import opened Text
  import opened Wrappers

  datatype Authorization = Authorization(
    owner: string,
    agent: string,
    token: string,
    amountAtoms: string,
    expiration: int64,
    nonce: int64,
    signatureHex: string,
    spentAtoms: string,
    revoked: bool,
    onchainLocked: bool,
    createdAtUnix: int64)

  /** The identity of a row, with its addresses folded to one case. */
  datatype Id = Id(owner: string, agent: string, token: string, nonce: int)

  datatype StoreError = NoAuthorization | MissingSignature | BadAddAtoms | Crash

  function MakeId(owner: string, agent: string, token: string, nonce: int): Id {
    Id(Fold(owner), Fold(agent), Fold(token), nonce)
  }

  function IdOf(a: Authorization): Id {
    MakeId(a.owner, a.agent, a.token, a.nonce)
  }

  predicate OnTriple(a: Authorization, owner: string, agent: string, token: string) {
    EqualFold(a.owner, owner) && EqualFold(a.agent, agent) && EqualFold(a.token, token)
  }

  function OrZero(s: string): string {
    if TrimSpace(s) == "" then "0" else s
  }

  function SpentOf(a: Authorization): int {
    ParseInt(OrZero(a.spentAtoms)).GetOr(0)
  }

  // ---- what each operation does to the rows ----

  function IndexOf(rows: seq<Authorization>, id: Id): (i: nat)
    ensures i <= |rows|
    ensures i < |rows| ==> IdOf(rows[i]) == id
    ensures forall j :: 0 <= j < i ==> IdOf(rows[j]) != id
  {
    if rows == [] || IdOf(rows[0]) == id then 0 else 1 + IndexOf(rows[1..], id)
  }

  function Lookup(rows: seq<Authorization>, id: Id): Option<Authorization> {
    var i := IndexOf(rows, id);
    if i < |rows| then Some(rows[i]) else None
  }

  /** What an upsert leaves in a row: the new fields, except the spend already counted and a missing creation time. */
  function Merge(existing: Option<Authorization>, a: Authorization): Authorization {
    match existing
    case Some(r) =>
      a.(spentAtoms := OrZero(r.spentAtoms),
      createdAtUnix := if a.createdAtUnix == 0 then r.createdAtUnix else a.createdAtUnix)
    case None => if a.spentAtoms == "" then a.(spentAtoms := "0") else a
  }

  function UpsertRows(rows: seq<Authorization>, a: Authorization): seq<Authorization> {
    var i := IndexOf(rows, IdOf(a));
    if i < |rows| then rows[i := Merge(Some(rows[i]), a)] else rows + [Merge(None, a)]
  }

  function Locked(a: Authorization, owner: string, agent: string, token: string): Authorization {
    if OnTriple(a, owner, agent, token) then a.(onchainLocked := true) else a
  }

  function LockRows(rows: seq<Authorization>, owner: string, agent: string, token: string): (r: seq<Authorization>)
    ensures |r| == |rows|
  {
    seq(|rows|, i requires 0 <= i < |rows| => Locked(rows[i], owner, agent, token))
  }

  function Bumped(a: Authorization, add: int): Authorization {
    a.(spentAtoms := PrintInt(SpentOf(a) + add))
  }

  function BumpRows(rows: seq<Authorization>, id: Id, add: int): seq<Authorization> {
    var i := IndexOf(rows, id);
    if i < |rows| then rows[i := Bumped(rows[i], add)] else rows
  }

  // ---- selection ----

  /** The two selections the wallet makes: a signed row for a spender, or any row for an owner's transfer. */
  datatype Query = ForAgent(agent: string, now: int64) | ForOwner(owner: string, token: string, now: int64) {
    predicate Wants(r: Authorization) {
      match this
      case ForAgent(agent, now) => EqualFold(r.agent, agent) && r.expiration > now
      case ForOwner(owner, token, now) => EqualFold(r.owner, owner) && EqualFold(r.token, token) && r.expiration > now
    }

    predicate Candidate(r: Authorization) {
      !r.revoked && !r.onchainLocked && Wants(r)
    }

    /** Fit to be returned: `ForAgent` insists on a signature. */
    predicate Usable(r: Authorization) {
      ForAgent? ==> Signed(r)
    }
  }

  predicate Signed(r: Authorization) {
    TrimSpace(r.signatureHex) != ""
  }

  function Candidates(rows: seq<Authorization>, q: Query): seq<Authorization> {
    if rows == [] then []
    else
      var rest := Candidates(rows[..|rows| - 1], q);
      var last := rows[|rows| - 1];
      if q.Candidate(last) then rest + [last] else rest
  }

  function Insert(x: Authorization, s: seq<Authorization>): seq<Authorization> {
    if s == [] || x.createdAtUnix >= s[0].createdAtUnix then [x] + s else [s[0]] + Insert(x, s[1..])
  }

  /** `sort.SliceStable` by descending creation time; `SortIsStable` says it is that sort. */
  function SortNewest(s: seq<Authorization>): seq<Authorization> {
    if s == [] then [] else Insert(s[0], SortNewest(s[1..]))
  }

  function FirstUsable(s: seq<Authorization>, q: Query): Option<Authorization> {
    if s == [] then None else if q.Usable(s[0]) then Some(s[0]) else FirstUsable(s[1..], q)
  }

  function Pick(rows: seq<Authorization>, q: Query): Result<Authorization, StoreError> {
    var found := Candidates(rows, q);
    if found == [] then Err(NoAuthorization)
    else
      match FirstUsable(SortNewest(found), q)
      case Some(r) => Ok(r)
      case None => Err(MissingSignature)
  }

  /** The in-memory store. Its lock makes each method one atomic step, so the methods run to completion here. */
  class MemoryStore {
    var rows: seq<Authorization>

    constructor ()
      ensures rows == []
    {
      rows := [];
    }

    method Upsert(a: Authorization) returns (existed: bool)
      modifies this
      ensures rows == UpsertRows(old(rows), a)
      ensures existed <==> Lookup(old(rows), IdOf(a)).Some?
    {
      var i := 0;
      while i < |rows|
        invariant 0 <= i <= |rows|
        invariant rows == old(rows)
        invariant forall j :: 0 <= j < i ==> IdOf(rows[j]) != IdOf(a)
      {
        if IdOf(rows[i]) == IdOf(a) {
          var merged := a.(spentAtoms := OrZero(rows[i].spentAtoms));
          if a.createdAtUnix == 0 {
            merged := merged.(createdAtUnix := rows[i].createdAtUnix);
          }
          rows := rows[i := merged];
          return true;
        }
        i := i + 1;
      }
      rows := rows + [if a.spentAtoms == "" then a.(spentAtoms := "0") else a];
      return false;
    }

    method PickActive(q: Query) returns (r: Result<Authorization, StoreError>)
      ensures r == Pick(rows, q)
    {
      var found := [];
      for i := 0 to |rows|
        invariant found == Candidates(rows[..i], q)
      {
        assert rows[..i + 1][..i] == rows[..i];
        if q.Candidate(rows[i]) {
          found := found + [rows[i]];
        }
      }
      assert rows[..|rows|] == rows;
      if found == [] {
        return Err(NoAuthorization);
      }
      var sorted := SortNewest(found);
      SortKeepsLength(found);
      if q.ForAgent? {
        var i := 0;
        while i < |sorted|
          invariant 0 <= i <= |sorted|
          invariant FirstUsable(sorted, q) == FirstUsable(sorted[i..], q)
        {
          if Signed(sorted[i]) {
            return Ok(sorted[i]);
          }
          assert sorted[i..][1..] == sorted[i + 1..];
          i := i + 1;
        }
        return Err(MissingSignature);
      }
      return Ok(sorted[0]);
    }

    /** On a malformed counter the Go code adds to a nil number and panics, which `Crash` stands for. */
    method BumpSpent(owner: string, agent: string, token: string, nonce: int64, addAtoms: string)
      returns (r: Result<(), StoreError>)
      modifies this
      ensures var add := ParseInt(TrimSpace(addAtoms)); var id := MakeId(owner, agent, token, nonce);
        && rows == (if r.Ok? then BumpRows(old(rows), id, add.GetOr(0)) else old(rows))
        && r == (if add.None? then Err(BadAddAtoms)
                 else if Lookup(old(rows), id).None? then Err(NoAuthorization)
                 else if ParseInt(OrZero(Lookup(old(rows), id).value.spentAtoms)).None? then Err(Crash)
                 else Ok(()))
    {
      var add := ParseInt(TrimSpace(addAtoms));
      if add.None? {
        return Err(BadAddAtoms);
      }
      var id := MakeId(owner, agent, token, nonce);
      var i := 0;
      while i < |rows|
        invariant 0 <= i <= |rows|
        invariant rows == old(rows)
        invariant forall j :: 0 <= j < i ==> IdOf(rows[j]) != id
      {
        if IdOf(rows[i]) == id {
          var cur := ParseInt(OrZero(rows[i].spentAtoms));
          if cur.None? {
            return Err(Crash);
          }
          assert IndexOf(rows, id) == i;
          rows := rows[i := rows[i].(spentAtoms := PrintInt(cur.value + add.value))];
          return Ok(());
        }
        i := i + 1;
      }
      return Err(NoAuthorization);
    }

    method MarkLocked(owner: string, agent: string, token: string)
      modifies this
      ensures rows == LockRows(old(rows), owner, agent, token)
    {
      var i := 0;
      while i < |rows|
        invariant 0 <= i <= |rows| == |old(rows)|
        invariant forall j :: 0 <= j < i ==> rows[j] == Locked(old(rows)[j], owner, agent, token)
        invariant forall j :: i <= j < |rows| ==> rows[j] == old(rows)[j]
      {
        if OnTriple(rows[i], owner, agent, token) {
          rows := rows[i := rows[i].(onchainLocked := true)];
        }
        i := i + 1;
      }
    }
  }

  // ---- the sort ----

  predicate Sorted(s: seq<Authorization>) {
    forall i, j :: 0 <= i < j < |s| ==> s[i].createdAtUnix >= s[j].createdAtUnix
  }

  function WithStamp(s: seq<Authorization>, stamp: int): seq<Authorization> {
    if s == [] then []
    else (if s[0].createdAtUnix == stamp then [s[0]] else []) + WithStamp(s[1..], stamp)
  }

  lemma {:induction false} InsertSorts(x: Authorization, s: seq<Authorization>)
    requires Sorted(s)
    ensures Sorted(Insert(x, s))
    ensures |Insert(x, s)| == |s| + 1
    ensures forall y :: y in Insert(x, s) ==> y == x || y in s
  {
    if s == [] || x.createdAtUnix >= s[0].createdAtUnix {
    } else {
      InsertSorts(x, s[1..]);
      var r := Insert(x, s[1..]);
      forall j | 0 <= j < |r| ensures s[0].createdAtUnix >= r[j].createdAtUnix {
        assert r[j] in r;
      }
    }
  }

  lemma {:induction false} InsertIsStable(x: Authorization, s: seq<Authorization>, c: int)
    ensures WithStamp(Insert(x, s), c) == WithStamp([x] + s, c)
  {
    assert ([x] + s)[1..] == s;
    if s == [] || x.createdAtUnix >= s[0].createdAtUnix {
    } else {
      InsertIsStable(x, s[1..], c);
      assert ([x] + s[1..])[1..] == s[1..];
      assert Insert(x, s)[1..] == Insert(x, s[1..]);
    }
  }

  /** `SortNewest` is a stable sort: newest first, and rows of one time stamp stay in their order. */
  lemma {:induction false} SortIsStable(s: seq<Authorization>)
    ensures Sorted(SortNewest(s))
    ensures forall c :: WithStamp(SortNewest(s), c) == WithStamp(s, c)
  {
    if s == [] {
    } else {
      SortIsStable(s[1..]);
      InsertSorts(s[0], SortNewest(s[1..]));
      forall c ensures WithStamp(SortNewest(s), c) == WithStamp(s, c) {
        InsertIsStable(s[0], SortNewest(s[1..]), c);
        assert ([s[0]] + SortNewest(s[1..]))[1..] == SortNewest(s[1..]);
      }
    }
  }

  lemma {:induction false} SortKeepsLength(s: seq<Authorization>)
    ensures |SortNewest(s)| == |s|
  {
    if s == [] {
    } else {
      SortKeepsLength(s[1..]);
      SortIsStable(s[1..]);
      InsertSorts(s[0], SortNewest(s[1..]));
    }
  }

  // ---- selection, said without the sort ----

  predicate Fit(r: Authorization, q: Query) {
    q.Candidate(r) && q.Usable(r)
  }

  /** `rows[i]` is the newest fit row, the earliest inserted among equals. */
  predicate IsNewest(rows: seq<Authorization>, q: Query, i: nat)
    requires i < |rows|
  {
    && Fit(rows[i], q)
    && forall j :: 0 <= j < |rows| && Fit(rows[j], q) ==>
      rows[j].createdAtUnix < rows[i].createdAtUnix || (rows[j].createdAtUnix == rows[i].createdAtUnix && i <= j)
  }

  lemma {:induction false} FirstUsableInserted(x: Authorization, s: seq<Authorization>, q: Query)
    requires Sorted(s)
    ensures var f := FirstUsable(s, q);
      FirstUsable(Insert(x, s), q) ==
      if q.Usable(x) && (f.None? || x.createdAtUnix >= f.value.createdAtUnix) then Some(x) else f
    ensures FirstUsable(s, q).Some? ==> FirstUsable(s, q).value in s
  {
    if s == [] {
    } else {
      FirstUsableInserted(x, s[1..], q);
      if x.createdAtUnix >= s[0].createdAtUnix {
        assert ([x] + s)[1..] == s;
      } else {
        assert Insert(x, s)[1..] == Insert(x, s[1..]);
      }
    }
  }

  /** The index the sort and scan settle on, found from the front of the candidates. */
  lemma {:induction false} ScanFindsNewest(found: seq<Authorization>, q: Query) returns (i: nat)
    requires forall r :: r in found ==> q.Candidate(r)
    ensures var f := FirstUsable(SortNewest(found), q);
      if f.None? then forall r :: r in found ==> !q.Usable(r)
      else i < |found| && found[i] == f.value && IsNewest(found, q, i)
  {
    i := 0;
    if found != [] {
      var rest := found[1..];
      var k := ScanFindsNewest(rest, q);
      SortIsStable(rest);
      FirstUsableInserted(found[0], SortNewest(rest), q);
      var f, later := FirstUsable(SortNewest(found), q), FirstUsable(SortNewest(rest), q);
      var leads := q.Usable(found[0]) && (later.None? || found[0].createdAtUnix >= later.value.createdAtUnix);
      if f.Some? && !leads {
        i := k + 1;
        assert forall j :: 0 < j < |found| ==> found[j] == rest[j - 1];
      } else if f.Some? {
        forall j | 0 < j < |found| && Fit(found[j], q) ensures found[j].createdAtUnix <= found[0].createdAtUnix {
          assert found[j] == rest[j - 1];
        }
      }
    }
  }

  /** Where the candidates sit among the rows. */
  function Positions(rows: seq<Authorization>, q: Query): (at: seq<nat>)
    ensures |at| == |Candidates(rows, q)|
    ensures forall k :: 0 <= k < |at| ==> at[k] < |rows|
  {
    if rows == [] then []
    else
      var n := |rows| - 1;
      Positions(rows[..n], q) + (if q.Candidate(rows[n]) then [n] else [])
  }

  lemma {:induction false} PositionsHold(rows: seq<Authorization>, q: Query, k: nat)
    requires k < |Positions(rows, q)|
    ensures var i := Positions(rows, q)[k]; rows[i] == Candidates(rows, q)[k] && q.Candidate(rows[i])
    ensures forall l :: k < l < |Positions(rows, q)| ==> Positions(rows, q)[k] < Positions(rows, q)[l]
  {
    var n := |rows| - 1;
    if k < |Positions(rows[..n], q)| {
      PositionsHold(rows[..n], q, k);
    }
  }

  lemma {:induction false} PositionsCover(rows: seq<Authorization>, q: Query, i: nat) returns (k: nat)
    requires i < |rows| && q.Candidate(rows[i])
    ensures k < |Positions(rows, q)| && Positions(rows, q)[k] == i
  {
    var n := |rows| - 1;
    if i < n {
      k := PositionsCover(rows[..n], q, i);
    } else {
      k := |Positions(rows[..n], q)|;
    }
  }

  /** Selection returns the newest fit row; its errors say exactly that no candidate exists or that none is signed. */
  lemma PickSelectsNewest(rows: seq<Authorization>, q: Query)
    ensures Pick(rows, q).Ok? <==> exists i :: 0 <= i < |rows| && Fit(rows[i], q)
    ensures Pick(rows, q).Ok? ==> exists i :: 0 <= i < |rows| && IsNewest(rows, q, i) && Pick(rows, q).value == rows[i]
    ensures Pick(rows, q) == Err(NoAuthorization) <==> forall i :: 0 <= i < |rows| ==> !q.Candidate(rows[i])
    ensures Pick(rows, q) == Err(MissingSignature) <==>
      (exists i :: 0 <= i < |rows| && q.Candidate(rows[i])) && forall i :: 0 <= i < |rows| && q.Candidate(rows[i]) ==> !q.Usable(rows[i])
  {
    var found := Candidates(rows, q);
    var at := Positions(rows, q);
    forall i | 0 <= i < |rows| && q.Candidate(rows[i])
      ensures exists l :: 0 <= l < |at| && at[l] == i && found[l] == rows[i]
    {
      var l := PositionsCover(rows, q, i);
      PositionsHold(rows, q, l);
    }
    forall l | 0 <= l < |at| ensures rows[at[l]] == found[l] && q.Candidate(found[l]) {
      PositionsHold(rows, q, l);
    }
    var k := ScanFindsNewest(found, q);
    if Pick(rows, q).Ok? {
      var i := at[k];
      forall j | 0 <= j < |rows| && Fit(rows[j], q)
        ensures rows[j].createdAtUnix < rows[i].createdAtUnix || (rows[j].createdAtUnix == rows[i].createdAtUnix && i <= j)
      {
        var l :| 0 <= l < |at| && at[l] == j && found[l] == rows[j];
        PositionsHold(rows, q, k);
      }
      assert IsNewest(rows, q, i);
    }
  }
}
