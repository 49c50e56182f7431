# Agent wallet: a verified model

This project models, in Dafny 4.11, a Go toolkit for agent accounts that pay on chain through Uniswap Permit2, and proves
what the toolkit is for. Run `dafny verify dfyconfig.toml` to check all of it.

An *owner* signs a Permit2 `PermitSingle` that lets an *agent* account spend a token up to an amount. The toolkit verifies
and caches that authorization, replays the chain's Permit2 logs into the same cache, and spends from it: it looks at the
cache, sends `permit` if the chain does not cover the spend yet, sends `transferFrom`, waits for the receipt and counts the
amount. A gas funder tops up agents. A second path packs passkey signatures for smart accounts.

## How the model is laid out

| files | what they hold |
|---|---|
| `Wrappers`, `Bytes`, `Text`, `Runs` | results, big-endian and hexadecimal numerals, addresses, runs of a state machine |
| `Store`, `StoreHistory` | the row list and its methods; closed form, refinement of a map, replay of whole histories |
| `Signatures`, `TypedData`, `Permit2`, `Abi`, `Authorize` | signature forms, message bounds, ABI encoding, calldata, the verification pipeline |
| `Events`, `Polling`, `Retries`, `EventLoop`, `Redelivery` | log decoding, windows behind a watermark, ticks that fail and start over, the loop itself, retried delivery into the store |
| `Contract`, `Ledger`, `LedgerBooks`, `LedgerSignatures`, `LedgerUse`, `LedgerAllowance`, `LedgerGrants`, `LedgerPermits`, `LedgerRecord`, `LedgerUnlimited`, `LedgerOverspend`, `Spender` | the contract's side; the concurrent machine of submissions, logs and spends; what all its runs keep; one `Spend` as imperative code |
| `GasFunder`, `GasFunding`, `GasFunderCalls` | the funder as a concurrent machine, how often it funds, and one call as imperative code |
| `P256`, `WebAuthn`, `Passkey`, `SmartAccount` | low-s and verification over an abstract group, client data offsets, the two-layer signature, factory calls |
| `Derive`, `Rpc` | hardened derivation and its paths, the receipt poll |

Concurrent protocols appear twice. A machine (`Ledger.Next`, `GasFunder.Next`) takes one step per effect, so that any number
of calls interleave; the theorems about all runs are proved of it. A class (`Spender`, `RealGasFunder`) then runs one call
from end to end in the order of the source and is proved to be a run of that machine. Whatever the network, the chain or a
clock may answer is a parameter (`Act`, `Answers`, `Fate`, `Weather`, `Network`): allowance, balance and nonce reads carry
whatever value the node gives, right or wrong. What a lemma needs to be true of it, its `requires` says (`Calm`,
`LeavesAlone`, `PendingNonces`, `CaughtUp`, `Ticking`), or its conclusion counts (`Misreads`, `Strayed`).
Hashing, key recovery, BIP-32 and the curve's points are parameters too.

## Where the code does less than its comments say

Each of these is a lemma, with the exact condition where there is one.

- The amount check (authorize.go:39) compares text, not numbers. Signed claims for `"00"` and `" 7"` are accepted, and the
  rows cached for them cannot be spent from (`AmountCheckIsTextual`, `CachedIsSpendable`).
- Spends hold no lock between the check and the bump. With `n` spends in flight the counter can reach `n` times the
  recorded amount and no more (`BoundedOverspend`, `OverspendIsReached`). What is moved on chain can exceed even that, but
  only by transfers whose receipts were lost (`BoundedOverspend`, `LostReceiptsMoveUncounted`). In both runs the owner grants
  the amount on chain again for each spend. While every grant is below 2^160 - 1 that is what it takes: whatever is in flight
  or lost, nothing is drawn beyond what was granted (`DrawnWithinGrants`). In any run the contract's nonce counts the permits
  mined on a key, and no two of them were signed for one nonce, exactly as long as there are at most 2^48
  (`NoPermitIsMinedTwice`); so no row's permit is mined twice. What is drawn is paid for by approvals and by distinct permits
  (`DrawnWithinPermits`), and a key with one row gets one permit (`PermitIsMinedOnce`). That one caps what is drawn exactly
  when its amount is below 2^160 - 1 (`FinitePermitCapsDrawing`, `PermitCapsExactly`): the contract takes that one amount for
  an allowance without end, and then a single permit lets `n` spends draw `n` times as much (`UnlimitedPermitIsNeverUsedUp`,
  for claims as in `SampleIsPermitted`). On a key left to its one finite permit, the counter, the transfers not counted and
  what the contract still allows always make up the amount (`PermitIsConserved`, `RecordTracksChain`).
- A Permit log upserts a row without a signature. The log of the agent's own permit addresses the row the permit was sent
  from, so from then on no spend can begin on it until the owner's signature is submitted again (`OwnLogHitsItsRow`,
  `SignedExactly`, `OwnPermitEndsSpending`). A log delivered again does so again: a submission verified after the first
  delivery is undone by the second, signature and all (`RedeliveryOverrides`, `RedeliveryUnsigns`).
- Reconciling transfers asks for a row that expires after the last 64-bit second. There is none, so every transfer is taken
  for somebody else's (`TransfersAreNeverBooked`).
- A tick's window arithmetic wraps when the watermark plus the window size reaches 2^64, and the saved watermark then goes
  back (`WindowEndMeaning`, `WrappedWindowLosesWatermark`).
- Retried ticks refine one pass, whatever the chain's logs, exactly when the watermark has reached the end of every window
  delivered from (`RetryRefinesOnePass`, `OnePassExactly`). A head that is reported lower than before can leave it short;
  while reported heads do not go back, every completed tick reaches it (`RisingHeadsCatchUp`, `StoreAfterRetries`).
- A Lockdown log is honoured only when all three addresses are topics. One that carries the token and the spender in its
  data, with the owner for its only topic, is dropped (`LockdownInDataIsDropped`); where logs look like that, no row is ever
  locked and a lockdown on chain never stops a spend from beginning (`LockdownNeverStopsASpend`).
- A failed second balance read falls through to funding, and a wait that times out leaves its funding pending. Each such
  fault can fund an agent once more than its shortfall and the gas it spends take, and no more than that (`FundingIsBounded`,
  `BoundIsReached`).
- Low-s normalisation gives a usable number exactly for 0 < s < N. Beyond N the result is not positive, yet `IsLowS`
  accepts it (`LowFormIsUsable`). Packing makes it a word again: 0 for s = N and a large one for s between N and 2^256, both
  rejected as the signature itself is, so that what the wallet accepts is what verifies as given (`PackedVerifiesAsGiven`).
  The parser does not bound the width of r or s. Two wider spellings of any low-s signature, one in each number, do not verify as
  given and are read as that signature (`WideFormsAreAccepted`; `UsableAfterPacking` says which s are read as usable).
- The cached form of a signature allows one spelling that recovery refuses, an upper-case `0X` prefix
  (`CacheAcceptsExactly`); since recovery comes first, no such row is cached.
- Calldata packing cuts numbers wider than 256 bits silently; `Packed` in the round trips stands for what is left.

## Model

| member | source | states |
|---|---|---|
| Store.MemoryStore.Upsert | store.go:83-102 | the new row list, and whether the identity was already present |
| Store.MemoryStore.PickActive | store.go:104-145 | filter, stable sort and scan give the selection of `Pick` |
| Store.MemoryStore.BumpSpent | store.go:147-162 | adds the amount to the one row addressed, or says which error or crash and changes nothing |
| Store.MemoryStore.MarkLocked | store.go:164-174 | locks exactly the rows of the triple |
| Store.SortIsStable | store.go:117 | newest first, equal creation times in their old order |
| Store.PickSelectsNewest | store.go:104-129 | the newest fit row, the earliest inserted among equals; each error says exactly why there is none |
| StoreHistory.StoreRefinesMap | store.go:78-174 | upsert, bump and lock are update, add and bulk update of a finite map |
| StoreHistory.HistoryClosedForm | store.go:83-174 | after any history each row holds its last upsert's fields, its lock, its counted spend and its last creation time |
| StoreHistory.FirstUpsertOrder | store.go:100 | rows sit in the order of their first upserts |
| StoreHistory.ReplayIsNeutral | store.go:52-55 | a second pass over observed events changes nothing, row for row |
| StoreHistory.PrefixAbsorbed | listener.go:188-190 | delivering a prefix and then everything is delivering everything |
| Signatures.DecodeSig65 | eip712.go:319-334 | the recovery form of a submitted signature, copied and rewritten in place |
| Signatures.DecodeSigOnchain | spend.go:268-283 | the on-chain form of a cached signature |
| Signatures.OneSignature | authorize.go:86-99 | what recovery accepts is cached, and sent with the same bytes and v exactly 27 larger |
| Signatures.CacheAcceptsExactly | authorize.go:86-99 | the cached form accepts what recovery accepts and one spelling more |
| Signatures.PresentSignature | eip712.go:234-247 | the signing library's buffer is rewritten in place and printed |
| Signatures.PresentedIsRead | eip712.go:241-245 | a signature the wallet makes is recovered from as made and reaches the chain as presented |
| TypedData.BitsForU64 | eip712.go:290-297 | the loop counts the bits of a number |
| TypedData.BitLenBounds | eip712.go:71-79 | a bit count bounds a number exactly as its power of two does |
| TypedData.BuiltExactly | eip712.go:66-82 | a message is built if and only if its numbers fit uint160 and uint48 and its addresses look like addresses |
| TypedData.BuiltFields | eip712.go:108-117 | the message carries the parameters in their places |
| Permit2.PermitCallRoundTrip | permit2.go:94-128 | permit calldata is 388 bytes and decodes to the owner, the message and the signature packed |
| Permit2.TransferCallRoundTrip | permit2.go:139-160 | transferFrom calldata is 132 bytes and decodes to its four arguments |
| Abi.RoundTrip | permit2.go:124 | any value of any type decodes from wherever its encoding lies |
| Authorize.Authorizer.VerifyAndCache | authorize.go:27-83 | upserts the verified row or reports the first failing check and leaves the store alone |
| Authorize.AcceptedExactly | authorize.go:17-61 | a claim is accepted if and only if its bounds hold and recovery yields the owner |
| Authorize.VerifiedIsAuthentic | authorize.go:53-78 | every cached row's fields were signed by its owner, with the cached signature |
| Authorize.OwnSignatureIsAccepted | authorize.go:53-68 | what the wallet signs for an owner's key is accepted and sent on chain as signed |
| Authorize.SentPermitWasSigned | spend.go:175-193 | permit calldata of such a row decodes to a message its owner signed |
| Authorize.CachedIsSpendable | authorize.go:38-41 | exactly which accepted amounts a spend can read as a positive allowance |
| Authorize.AmountCheckIsTextual | authorize.go:38-41 | accepted claims for a zero amount and for an amount no spend can read |
| Events.PermitEventRoundTrip | listener.go:43-58 | a Permit log gives back every field; 256-bit times and nonces survive exactly below 2^63 |
| Events.LockdownEventRoundTrip | listener.go:61-66 | a Lockdown log gives back its three addresses in their places |
| Events.TransferEventRoundTrip | listener.go:70-81 | a transfer log gives back token, parties and value |
| Events.LockdownInDataIsDropped | listener.go:61-66 | a Lockdown log with token and spender in its data names the same accounts and is dropped, with three topics it is a lock |
| Events.TransfersAreNeverBooked | listener.go:240-248 | no transfer ever finds a row |
| EventLoop.Loop.ApplyPermit2 | listener.go:211-238 | one log does to the store what its operation does |
| EventLoop.Loop.ApplyTransfer | listener.go:240-261 | a transfer is never taken for one of ours |
| EventLoop.Loop.ProcessWindow | listener.go:173-208 | the logs delivered and the watermark saved, for every way a tick can end |
| EventLoop.Loop.Tick | listener.go:150-209 | one tick is one step of the polling machine, and reports whether it completed |
| Polling.WindowEndMeaning | listener.go:173-177 | a window ends at the head or after the maximum, and exactly when the arithmetic wraps |
| Polling.WatermarkGrows | listener.go:156-208 | the watermark never goes back and never returns to 0, whatever heads are reported |
| Polling.WindowsPartition | listener.go:160-208 | the windows of any run are contiguous, disjoint, of bounded size, and cover exactly the blocks from the seed to the watermark |
| Polling.FirstSeedIsFirst | listener.go:160-169 | the seed of a run is the one the first tick able to seed gives |
| Polling.CatchesUp | listener.go:170-177 | how many ticks reach a head that stands still |
| Polling.WrappedWindowLosesWatermark | listener.go:175-176 | a window size near 2^64 resets the watermark |
| Retries.RetryRefinesOnePass | listener.go:150-209 | under any heads, a retried, interrupted delivery equals one pass over the logs from the first watermark or seed, whenever the watermark has reached the end of every window delivered from |
| Retries.RisingHeadsCatchUp | listener.go:150-209 | while reported heads do not go back it has, after every completed tick |
| Redelivery.StoreIsOnePass | listener.go:150-238 | the store is then one application of every Permit2 log since the first watermark or seed |
| Redelivery.OnePassExactly | listener.go:150-238 | it is so for all chains if and only if the watermark has reached the end of every window delivered from |
| Redelivery.StoreAfterRetries | listener.go:150-238 | the store after a completed tick is one application of these logs while heads do not go back |
| Redelivery.RedeliveryOverrides | listener.go:211-238 | what delivering a window again changes of a row that submissions and spends changed in between, and what it keeps |
| Redelivery.RedeliveryUnsigns | listener.go:211-226 | a delivery leaves a row signed if and only if it was and the delivery holds no Permit log of it |
| LedgerBooks.ReachableBooks | spend.go:78-173 | in every reachable state rows are distinct, every spend is sound and every counter balances |
| LedgerBooks.SpendConservation | spend.go:147-162 | a counter is the sum of spends that ended well; value moved on chain is that plus the spends not bumped |
| LedgerBooks.BoundedOverspend | spend.go:89-100 | with at most n spends in flight, spent and in flight, and what was moved but for lost receipts, never exceed n times the recorded amount |
| LedgerOverspend.OverspendIsReached | spend.go:89-160 | for every n a run with n spends in flight, each granted anew by the owner, spends n times the recorded amount |
| LedgerOverspend.LostReceiptsMoveUncounted | spend.go:153-162 | for every n a run of spends one at a time, each granted anew and each losing its receipt, moves n times the amount and counts nothing |
| LedgerGrants.DrawnWithinGrants | spend.go:195-201 | in any run whose grants on a key are below 2^160 - 1, what is drawn and left there never exceeds what was granted |
| LedgerPermits.NoPermitIsMinedTwice | spend.go:130-145 | in any run the contract's nonce counts the permits mined on a key modulo 2^48, and they were signed for different nonces if and only if there are at most 2^48 |
| LedgerPermits.DrawnWithinPermits | spend.go:130-158 | in any run of finite grants what is drawn and left on a key is at most the approvals plus the amounts of distinct permits mined there |
| LedgerPermits.PermitIsMinedOnce | spend.go:130-145 | in any run in which the key has one row, with any approvals and lockdowns, one permit is mined at most |
| LedgerPermits.FinitePermitCapsDrawing | spend.go:130-158 | without approvals either, nothing is drawn before that permit and then at most its amount, if that is below 2^160 - 1 |
| LedgerUnlimited.UnlimitedPermitIsNeverUsedUp | spend.go:130-158 | for every n a run with one mined permit for 2^160 - 1 and no approval draws n times that amount |
| LedgerUnlimited.PermitCapsExactly | spend.go:130-158 | a permit caps what is drawn in all runs with one row and no approval if and only if its amount is below 2^160 - 1 |
| LedgerUse.SignedExactly | store.go:83-102 | in every reachable state a row is signed if and only if its last write was a verified submission |
| LedgerUse.OwnLogHitsItsRow | listener.go:211-226 | the log of a row's own permit addresses that row |
| LedgerUse.LockdownNeverStopsASpend | listener.go:227-234 | where Lockdown logs keep addresses in their data no reachable row is locked, and after a lockdown and its log the same spends begin, though none can transfer |
| LedgerUse.OwnPermitEndsSpending | listener.go:221-225 | after that log, until a submission for the row is verified again, no spend can begin on it |
| Ledger.TransferAsksForItsEffect | spend.go:195-201 | the effect a mined transfer has is what its calldata decodes to |
| Ledger.PermitAsksForItsEffect | spend.go:175-193 | the effect a mined permit has is what its calldata decodes to |
| LedgerSignatures.OnlySignedPermitsAreSent | spend.go:132-145 | every permit ever broadcast decodes to a message its owner signed |
| LedgerSignatures.OnlySignedRowsAreKept | listener.go:221-226 | every signed row in the store was signed by its owner for the fields it holds |
| LedgerAllowance.NoPermitIsAskedAgain | spend.go:130-145 | in a calm run that has mined its permit no spend asks for another, each being covered on chain |
| LedgerRecord.PermitIsConserved | spend.go:130-162 | in any run that gives a key no other row, approval or lockdown, what was drawn and what is left make up the permit's amount once it is mined, and are nothing before |
| LedgerRecord.RecordTracksChain | spend.go:97-162 | in any such run past its permit the contract allows exactly what the record has left, less transfers not counted; 2^160 - 1 stays as it is |
| LedgerRecord.RecordStaysBelowChain | spend.go:97-145 | so it allows at least that, all the record has left when every transfer is counted, and never more than the record of a finite permit |
| LedgerRecord.CalmRecordIsExact | spend.go:97-162 | in a calm run past its permit the record is what the contract allows whenever no spend is under way |
| Spender.Spender.Spend | spend.go:78-173 | one spend is a run of the machine; its refusals in order, exactly when its permit or its transfer fails, and its effect |
| Spender.Spender.EnsureAllowed | spend.go:130-145 | skips the permit when covered, otherwise sends it and waits; exactly when the spend may go on |
| Spender.Spender.Transfer | spend.go:147-158 | exactly when the transfer goes through, and the allowances after it |
| Spender.Spender.BumpRow | spend.go:160-162 | the paid spend's row is bumped by its amount and no other |
| GasFunder.LockIsExclusive | gasfunder.go:99-127 | in any run at most one caller is between lock and unlock |
| GasFunder.FundingIsSerialized | gasfunder.go:129-162 | when the nonces read are the pending ones, transactions carry increasing nonces without a gap |
| GasFunding.FundingIsBounded | gasfunder.go:80-127 | in any run fundings, mined and pending, number at most the shortfall plus the gas spent, rounded up over the top-up, plus one for each second read that wrongly lets a caller on and each caller that leaves its funding pending |
| GasFunding.BoundIsReached | gasfunder.go:101-121 | for any gas that leaves the agent short and any numbers of these faults a run in which no read lies reaches that bound |
| GasFunderCalls.RealGasFunder.EnsureGas | gasfunder.go:80-127 | exactly when it funds and when it finds gas, at most one transaction added, and that it is a run of the machine |
| GasFunderCalls.RealGasFunder.CheckAgain | gasfunder.go:101-112 | exactly when the checks under the lock let a funding through |
| P256.LowSKeepsValidity | p256.go:27-55 | a signature verifies in its low form exactly when it does as given, for every number s |
| P256.UniqueLowForm | p256.go:27-41 | of s and N - s exactly one is low, and both normalize to it |
| P256.LowFormIsUsable | p256.go:30-41 | exactly when the low form can be a signature's s |
| P256.ParsesBothSpellings | p256.go:59-76 | exactly the two spellings of curve points are accepted, and read as those points |
| WebAuthn.OffsetsFindTheChallenge | webauthn.go:80-90 | in client data as browsers write it the offsets are 23 and 1 and lead to the challenge |
| WebAuthn.OffsetsPointAtFields | webauthn.go:80-90 | in any client data the offsets are first occurrences, and each error says which text is missing |
| Passkey.AuthRoundTrip | erc1271.go:56-65 | the inner encoding decodes to its inputs |
| Passkey.WrapperRoundTrip | erc1271.go:68-73 | the wrapper decodes to its inputs |
| Passkey.PasskeySignatureReadsBack | erc1271.go:84-103 | both layers decode to the assertion, the offsets, r and the low s |
| Passkey.SignaturesAreDistinct | erc1271.go:84-103 | equal signatures come from the same owner index, assertion, r and low s |
| Passkey.PackedVerifiesAsGiven | erc1271.go:84-103 | for r and s of 256 bits the wallet accepts what it reads exactly when the signature verifies as given |
| Passkey.PackedAssertionStandsForSigned | erc1271.go:84-103 | end to end for numbers of 256 bits: acceptance as signed, a usable s exactly when the signed one is, the challenge found |
| Passkey.UsableAfterPacking | erc1271.go:84-101 | exactly which numbers s reach the wallet as a usable low s |
| Passkey.WideFormsAreAccepted | webauthn.go:28-41 | two wider spellings of any r and low s are packed and read as that r and s, though neither verifies as given |
| Passkey.DigestBindsBoth | webauthn.go:46-53 | one digest stands for one assertion, unless the hash collides |
| SmartAccount.EOAOwnerBytes | smartaccount.go:24-28 | the filled buffer is the ABI encoding of the address |
| SmartAccount.PasskeyOwnerBytes | smartaccount.go:32-37 | the filled buffer is the ABI encoding of the two coordinates, and exactly when filling it panics |
| SmartAccount.OwnerBytesAreTheKey | smartaccount.go:30-37 | a passkey's owner bytes parse back to its public key |
| SmartAccount.OwnersAreDistinct | smartaccount.go:22-37 | different owners have different bytes |
| SmartAccount.FactoryCallRoundTrip | smartaccount.go:47-63 | factory calldata decodes to its selector, any owner list and the nonce |
| SmartAccount.PredictedIsDeployed | smartaccount.go:44-63 | deployment and prediction agree exactly on equal arguments, and never coincide |
| SmartAccount.AnsweredAddress | smartaccount.go:77-84 | an answered address is read back |
| Derive.DeriveHardened | derive.go:60-99 | the key at the path and the path printed; each error exactly, the first bad index reported |
| Derive.Derive | derive.go:108-113 | the three-level key, exactly when it is derived, and which accounts are refused |
| Derive.DeriveAgent | derive.go:129-131 | the four-level key, and exactly when it is derived |
| Derive.PathRoundTrip | derive.go:76-83 | a printed path parses back to its indices |
| Derive.WalkSum | derive.go:78-84 | a path can be walked in two stages |
| Derive.PathsTellKeysApart | derive.go:108-131 | keys share a path only when their indices agree, so the two schemes never coincide |
| Rpc.WaitForReceipt | rpc.go:91-120 | which poll decides, with what result, and how many polls fit the timeout |
| Rpc.OutcomeIsDetermined | rpc.go:91-120 | only one result can be reported |

## Left out

- SentPermitWasSigned: rows hold neither chain id nor Permit2 address, so the signing domain stays existential.
- StoreIsOnePass: a log query that answers returns the logs of its blocks, fixed once seen; chain reorganisations are outside the model.
- SpendConservation: a receipt that arrives reports what the chain did with the transaction; receipts may be lost, not forged.
- RoundTrip: the encoder and decoder follow the formal specification of the Contract ABI for words, byte strings, tuples and dynamic arrays, the shapes this code packs; the library's own decoder is not modelled, and buffers of 2^256 bytes or more do not exist.
- WaitForReceipt: the clock is taken to be no slower than the pauses slept through.
- RecordTracksChain: stated for a key with one row and no approval or lockdown, with any spends in flight, answers and lost receipts; for any other key `DrawnWithinPermits` is what holds.
- NoPermitIsAskedAgain: takes spends one at a time, truthful answers and arriving receipts besides, as `Calm` spells out.
- ReachableBooks: the steps are those of the wallet, its spends and the owner's `approve` and `lockdown`; a permit, a transfer or a nonce invalidation that other code sends on the key is not.
- FundingIsBounded: an agent's balance changes by fundings and by gas only; what it receives from elsewhere is not a step.
- CallPermit covers owners that are plain accounts; a contract owner's ERC-1271 check inside Permit2 is not modelled.
- Case folding covers ASCII, which is all that addresses contain.
- Absent (nil) numbers and receivers, and the "not configured" errors they give.
- Transaction hashes, the remaining fields of results, error texts, fees and gas limits.
- Crediter ledgers, which run after the counted spend and cannot undo it.
- Curve arithmetic, hashing, key recovery, BIP-32, DER, JSON and base64 parsing are library code and appear as parameters.
- EIP-2612 and EIP-3009 messages repeat the field checks of the Permit2 message.
- Seed loading, the HTTP service, the signer wrapper, key zeroisation and the network client hold no further logic to model.
