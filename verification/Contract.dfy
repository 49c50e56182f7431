/** The Permit2 AllowanceTransfer contract, as far as the wallet's calls reach it. */
module Contract {
  import opened Bytes
  import opened Permit2
  import opened Text
  import opened TypedData
  import opened Wrappers

  const MAX_AMOUNT: nat := TWO_160 - 1

  datatype Key = Key(owner: Address, token: Address, spender: Address)
  datatype Allowed = Allowed(amount: nat, expiration: nat, nonce: nat)
  type Allowances = map<Key, Allowed>

  function AllowedAt(allow: Allowances, key: Key): Allowed {
    if key in allow then allow[key] else Allowed(0, 0, 0)
  }

  /** `permit`; none means it reverts. A zero expiration stands for the time of the present block. */
  function CallPermit(crypto: Crypto, home: Domain, allow: Allowances, owner: Address, m: PermitMessage, sig: seq<byte>,
                      time: nat): Option<Allowances> {
    var key := Key(owner, m.token, m.spender);
    var was := AllowedAt(allow, key);
    if time > m.sigDeadline || m.amount > MAX_AMOUNT || m.nonce != was.nonce then None
    else if |sig| != 65 || sig[64] < 27 || crypto.recover(crypto.hash(home, m), sig[64 := sig[64] - 27]) != Some(owner) then None
    else Some(allow[key := Allowed(m.amount, if m.expiration == 0 then time % TWO_48 else m.expiration, (was.nonce + 1) % TWO_48)])
  }

  /** `transferFrom`; the largest amount stands for an allowance that is never used up. */
  function CallTransferFrom(allow: Allowances, key: Key, amount: nat, time: nat, tokenOk: bool): Option<Allowances> {
    var was := AllowedAt(allow, key);
    if amount > MAX_AMOUNT || time > was.expiration || !tokenOk then None
    else if was.amount == MAX_AMOUNT then Some(allow)
    else if amount > was.amount then None
    else Some(allow[key := was.(amount := was.amount - amount)])
  }

  /** `approve`, called by the owner. */
  function CallApprove(allow: Allowances, key: Key, amount: nat, expiration: nat, time: nat): Allowances {
    allow[key := Allowed(amount, if expiration == 0 then time else expiration, AllowedAt(allow, key).nonce)]
  }

  /** `lockdown`, called by the owner. */
  function CallLockdown(allow: Allowances, key: Key): Allowances {
    allow[key := AllowedAt(allow, key).(amount := 0)]
  }

  /** A permit that goes through sets its own allowance, uses up the nonce it was signed for, and leaves the others alone. */
  lemma PermitSetsAllowance(crypto: Crypto, home: Domain, allow: Allowances, owner: Address, m: PermitMessage, sig: seq<byte>, time: nat)
    requires CallPermit(crypto, home, allow, owner, m, sig, time).Some?
    ensures var after := CallPermit(crypto, home, allow, owner, m, sig, time).value; var key := Key(owner, m.token, m.spender);
      && AllowedAt(after, key).amount == m.amount
      && AllowedAt(after, key).expiration == (if m.expiration == 0 then time % TWO_48 else m.expiration)
      && m.nonce == AllowedAt(allow, key).nonce && AllowedAt(after, key).nonce == (m.nonce + 1) % TWO_48
      && forall other :: other != key ==> AllowedAt(after, other) == AllowedAt(allow, other)
  {
  }

  /** A transfer takes exactly its amount off a finite allowance, never more than there is. */
  lemma TransferTakesItsAmount(allow: Allowances, key: Key, amount: nat, time: nat, tokenOk: bool)
    requires CallTransferFrom(allow, key, amount, time, tokenOk).Some?
    ensures var after := CallTransferFrom(allow, key, amount, time, tokenOk).value;
      && AllowedAt(after, key).expiration == AllowedAt(allow, key).expiration
      && AllowedAt(after, key).nonce == AllowedAt(allow, key).nonce
      && (AllowedAt(allow, key).amount == MAX_AMOUNT ==> after == allow)
      && (AllowedAt(allow, key).amount != MAX_AMOUNT ==> AllowedAt(after, key).amount + amount == AllowedAt(allow, key).amount)
      && forall other :: other != key ==> AllowedAt(after, other) == AllowedAt(allow, other)
  {
  }
}
