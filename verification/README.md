# A verified model of the Secret–Ethereum bridge

The project models the bridge as linked state machines and proves what holds over every run of them.

* **The Secret ledger** (`BridgeToken`, `BridgeSwap`, `Ledger`). The bridge token keeps 128-bit balances, a supply,
  expiring allowances and a numbered transfer history per account; the swap contract keeps a token whitelist and one
  append-only swap log per token. They call each other: `Send` or `SendFrom` on the token leads to `Receive` on the
  swap contract and from there to `Burn` on the token; `MintFromExtChain` on the swap contract leads to `Mint`.
  `TokenContract` and `SwapContract` are the contracts in the source's own imperative form, each handler proved equal
  to the pure function that specifies it; `TokenRules` and `SwapRules` say when each message succeeds and what
  it does in terms of the stored data alone; `TokenRuns`, `Paging`, `LedgerRuns`, `Registration` and `Redeem` prove
  results over runs.
* **Ethereum to Secret** (`MintProtocol`, `ProtocolSafety`, `ProtocolResults`, `ProtocolRules`, `Rounds`, `GivingUp`,
  `DoubleMint`, `Actors`, `PassRules`). A manager, any number of signers and a leader work on shared swap and signature rows; the Secret chain
  executes broadcasts.
  `Actors` holds the workers with their loops, each pass proved to be a run of protocol actions.
* **Secret to Ethereum** (`EthDirection`, `EthWorkers`, `EthRules`, `Keys`). The leader scans swap records by nonce and submits
  payments, signers check submissions, a confirmer settles rows, an event listener delivers events at depth.
* **The whole bridge** (`Accounts`, `Backing`, `Solvency`). The three machines run together: users' transactions,
  workers' actions, broadcasts executed as ledger transactions, approvals against the ledger's own records, and
  wallet payments, in any interleaving. The main result is an exact account: per token, deposits less payments cover
  the supply created since the start up to mints asked by others than the leader and mints by broadcasts the leader
  gave up on. Both of these can happen, and the project says exactly when.

## Assumptions

* The host runs emitted messages depth first and in order inside one transaction, and any failure, a panic included,
  undoes all contracts. Both contracts are built with overflow checks, so an overflowing 32- or 64-bit operation is a
  failure. Gas bounds the number of calls. Contracts other than the bridge's answer any way at all, at every call.
* One worker's visit to one row, from database read to save, is atomic. Keys are unique in the row store.
* Ethereum transactions the workers look at do not change once they are there.
* The Secret chain executes a transaction only at the signing account's current sequence, and then advances it.
* The Ethereum wallet executes each token and nonce at most once and only what some signer approved.
* Each Ethereum token is paired with a bridge token of its own, and manager and signers read the same pairings.
  Contracts do not sign transactions, and the account that signs broadcasts is no contract of the bridge.
* Fees are arbitrary non-negative integers.

## Where the code differs from what one might expect

* `init` stores the last balance listed for an address but counts every entry in the supply, so supply equals the sum
  of balances only if nothing is overwritten (`TokenRuns.InitGap` gives the exact gap and condition).
* The expired-allowance branch writes a zero and then fails, so the host undoes the write.
* The swap contract's token message for a mint names its account `address`, the token expects `recipient`; the model
  takes the intended meaning.
* Minting is open: the swap contract does not look at who sends `MintFromExtChain` (`Solvency.MintIsOpen`). Any account
  can mint a token that is listed and running, with nothing deposited (`Solvency.MintedFromNothing`);
  `Solvency.MintExactly` says exactly when the ledger allows it, `Solvency.UserMintExactly` exactly when the token
  stays backed, and `Solvency.PrudentlyBacked` that it always is while nobody does.
* Identifiers of mints are not remembered (the code that would is commented out), and the leader sends submitted rows
  back to be retried after an earlier failure without looking at their own transactions. One lost reply is enough for
  a second mint, with any number of signers (`DoubleMint.LostReplyMintsTwice`). At most one mint per deposit holds as
  long as the leader gives up only on broadcasts that are rejected or overtaken, and only so long
  (`GivingUp.GiveUpExactly`).
* A reply to a sent broadcast that cannot be read raises an error the leader does not catch; the row stays signed while
  its broadcast is on its way. The model counts that broadcast as given up.
* A `Send` to the swap contract on a token that does not notify it is a plain transfer: the tokens stay with the swap
  contract, nothing is burned and nothing is logged (`Redeem.SendUnnoticed`). A listed token always notifies it
  (`Registration.AlwaysRegistered`).
* The status `RETRY` that a signer assigns after a failure is never saved; here it has no effect.
* A signer compares the minted amount and recipient with the first matching event of the transaction, whichever
  contract emitted it; that the wallet emitted it is the manager's check alone.
* For an ERC-20 swap below the fee the leader fails while encoding a negative amount, before it compares amount and
  fee, so its tracker stays at that record (`EthDirection.ScanAdvances`, `Backing.ScanStuck`).
* An event for a token without a pairing raises an error the manager does not catch, which ends its listener.
* The signers' check of a submission compares amounts and destinations, not the contract called with the token named
  (`EthDirection.CheckMissesCoin`, `Solvency.PaidElsewhere`). A submission pays in the coin it names exactly under the
  condition of `EthDirection.FitsExactly`, which everything the leader builds meets; over runs that pay only such
  submissions the account holds coin by coin (`Solvency.BackedByCoin`). `PaidOut` books a submission under the token
  it names.

## Model

| member | source | states |
|---|---|---|
| TokenContract.Contract.Init | src/contracts/secret/bridge-token/src/contract.rs:25-46 | the loop over initial balances leaves exactly the state of the fold over the list, or fails at its first bad entry |
| TokenContract.Contract.StoreTransfer | src/contracts/secret/bridge-token/src/state.rs:81-109 | numbers the transfer by the next id and appends it for a third-party owner, the sender and the receiver, failing on a full counter or list |
| TokenContract.Contract.PerformTransfer | src/contracts/secret/bridge-token/src/contract.rs:831-857 | debit stored before the credit is read, so that a self-transfer nets to nothing |
| TokenContract.Contract.SpendAllowance | src/contracts/secret/bridge-token/src/contract.rs:601-641 | spends from an unexpired sufficient allowance; on an expired one the zero is written although the call fails |
| TokenContract.Contract.TryBurn | src/contracts/secret/bridge-token/src/contract.rs:190-230 | balance and supply drop by the amount, or an error |
| TokenContract.Contract.TryMint | src/contracts/secret/bridge-token/src/contract.rs:232-286 | only a minter's mint raises supply and balance, within 128 bits each |
| TokenContract.Contract.ChangeAllowance | src/contracts/secret/bridge-token/src/contract.rs:707-775 | saturating increase or decrease; an absent expiration keeps the old one; a failure writes nothing |
| TokenContract.Contract.DropMinters | src/contracts/secret/bridge-token/src/state.rs:271-279 | retaining once per named address equals one filter by all of them |
| TokenContract.WithoutIsFilter | src/contracts/secret/bridge-token/src/state.rs:271-279 | removal keeps every minter not named, as often as it was listed, and none that is named |
| TokenContract.Contract.Handle | src/contracts/secret/bridge-token/src/contract.rs:94-174 | dispatch, status gate and callback of every message |
| TokenContract.Contract.Transact | src/contracts/secret/bridge-token/src/contract.rs:601-623 | under the host a failed message leaves all storage as it was, the expired-allowance write included |
| TokenRules.TransferExactly | src/contracts/secret/bridge-token/src/contract.rs:482-657 | each of the four transfers succeeds if and only if the token runs, the addresses are well formed, a third party holds an unexpired sufficient allowance, the owner has the amount and there is room to record it; else which error it returns |
| TokenRules.StoreExactly | src/contracts/secret/bridge-token/src/state.rs:81-119 | recording a transfer fails only when the counter or the list of somebody mentioned is full |
| TokenRules.NoticeExactly | src/contracts/secret/bridge-token/src/contract.rs:528-576 | a message notifies somebody if and only if it is a send to a registered recipient, and with what contents |
| TokenRules.BurnExactly | src/contracts/secret/bridge-token/src/contract.rs:190-230 | a burn succeeds if and only if a running token's well-formed sender holds the amount, with its exact effect |
| TokenRules.DecreaseExactly | src/contracts/secret/bridge-token/src/contract.rs:742-775 | a decrease takes away the amount or all there is, sets the expiration if given, and touches no other pair |
| TokenRules.IncreaseExactly | src/contracts/secret/bridge-token/src/contract.rs:707-740 | an increase adds the amount or as much as 128 bits hold, sets the expiration if given, and touches no other pair |
| TokenRules.AllowanceAccount | src/contracts/secret/bridge-token/src/contract.rs:601-657 | over any run, spent plus left plus really taken back plus lost to saturation equals granted, per owner and spender |
| TokenRules.AdminExactly | src/contracts/secret/bridge-token/src/contract.rs:384-404 | administrative messages succeed if and only if the admin sends them, and change exactly the role, status or minters named |
| TokenRules.StoppedRefuses | src/contracts/secret/bridge-token/src/contract.rs:94-112 | while stopped, everything but setting the status is refused |
| TokenRules.RegisterExactly | src/contracts/secret/bridge-token/src/contract.rs:578-592 | registering is open to all and concerns the sender alone |
| TokenRules.InitExactly | src/contracts/secret/bridge-token/src/contract.rs:25-82 | when instantiation succeeds, and the whole state it leaves |
| TokenRuns.RunIsReplay | src/contracts/secret/bridge-token/src/contract.rs:94-174 | a run with failures ends exactly where its successful calls alone end |
| TokenRuns.MoveEffect | src/contracts/secret/bridge-token/src/contract.rs:482-510 | a successful transfer of any of four kinds moves the amount between two accounts, records it under the next id and touches nothing else but a spent allowance |
| TokenRuns.OtherEffect | src/contracts/secret/bridge-token/src/contract.rs:190-286 | every other successful message changes balances, their sum and the supply by exactly what it mints or burns, and no history |
| TokenRuns.SupplyConserved | src/contracts/secret/bridge-token/src/contract.rs:831-857 | over every run, supply minus the sum of balances never changes |
| TokenRuns.InitGap | src/contracts/secret/bridge-token/src/contract.rs:33-46 | the gap after init is what later entries overwrite, and is zero if and only if no paying entry is repeated |
| TokenRuns.ReachableBacked | src/contracts/secret/bridge-token/src/contract.rs:33-46 | in every reachable state the balances and the overwritten amounts make up the supply, which is below 2^128 |
| TokenRuns.NoOverflow | src/contracts/secret/bridge-token/src/contract.rs:265-275 | where the supply covers the balances no message takes an overflow or underflow branch |
| TokenRuns.DeadBranches | src/contracts/secret/bridge-token/src/contract.rs:850-853 | from no reachable state does any message hit the recipient overflow, the mint account overflow or the supply underflow |
| TokenRuns.RecordedAt | src/contracts/secret/bridge-token/src/state.rs:102-106 | a stored transfer is appended to each list once per role that account has in it |
| TokenRuns.HistoryIndexed | src/contracts/secret/bridge-token/src/state.rs:81-119 | after any successful calls every list is the index of the transfer log and the counter is its length |
| TokenRuns.HistoryIsIndex | src/contracts/secret/bridge-token/src/state.rs:81-119 | over every run, each account's history is the id-ordered log with each transfer repeated once per mention, ids 1 to the count |
| TokenRuns.BalanceMatchesLog | src/contracts/secret/bridge-token/src/contract.rs:601-657 | every balance is the initial one plus minted minus burned plus received minus sent, self-transfers and third-party transfers included |
| TokenRuns.SupplyMatchesCalls | src/contracts/secret/bridge-token/src/contract.rs:190-286 | the supply is the initial one plus all mints minus all burns |
| TokenRuns.AllowanceStep | src/contracts/secret/bridge-token/src/contract.rs:707-775 | one call changes spent plus remaining by at most the grant, and by no less than it less what is lowered, if nothing saturates |
| TokenRuns.AllowanceBound | src/contracts/secret/bridge-token/src/contract.rs:601-657 | over any run, spent plus still allowed is at most granted, per owner and spender |
| TokenRuns.AllowanceFloor | src/contracts/secret/bridge-token/src/contract.rs:707-775 | while grants fit 128 bits, spent plus still allowed plus lowered is at least granted, so without lowering the bound is exact |
| TokenRuns.NoExpiredSpending | src/contracts/secret/bridge-token/src/contract.rs:615-623 | a successful spend was from an allowance that had not expired |
| Paging.PagesArePrefix | src/contracts/secret/bridge-token/src/state.rs:138-149 | the first pages answer and join up to a prefix of the reversed history |
| Paging.PagesTile | src/contracts/secret/bridge-token/src/state.rs:138-149 | the ceiling count of pages is exactly the reversed history, none of those requests overflows, later answers are empty |
| Paging.PageExactly | src/contracts/secret/bridge-token/src/state.rs:121-150 | when a page fails, how long it is otherwise, and which transfer stands at each place |
| Paging.HistoryFits | src/contracts/secret/bridge-token/src/state.rs:111-119 | no list ever outgrows its 32-bit length |
| Paging.PagesOfRun | src/contracts/secret/bridge-token/src/state.rs:121-150 | after every run, an account's pages join up to the reverse of its index in the transfer log |
| BridgeSwap.AddedLists | src/contracts/secret/secret-swap-contract/src/state.rs:167-186 | adding lists an unlisted token under the entry given, keeps a listed one's entry, and disturbs no other |
| BridgeSwap.RemovedDelists | src/contracts/secret/secret-swap-contract/src/state.rs:188-210 | removing the first match takes the token off an injective list and no other token |
| SwapContract.Contract.Position | src/contracts/secret/secret-swap-contract/src/state.rs:221-227 | finds the first entry of an address, or shows there is none |
| SwapContract.Contract.BurnToken | src/contracts/secret/secret-swap-contract/src/contract.rs:190-250 | checks in source order, logs the swap and asks the sending token for a burn |
| SwapContract.Contract.MintToken | src/contracts/secret/secret-swap-contract/src/contract.rs:102-142 | asks a listed token for a mint and stores nothing |
| SwapContract.Contract.Handle | src/contracts/secret/secret-swap-contract/src/contract.rs:73-100 | all handlers, the whitelist loops included |
| SwapRules.QueryExactly | src/contracts/secret/secret-swap-contract/src/contract.rs:346-359 | every stored swap is answered under its position and nothing else is |
| SwapRules.OwnerExactly | src/contracts/secret/secret-swap-contract/src/contract.rs:144-188 | the owner's messages succeed if and only if the owner sends them well addressed, and do exactly what they name |
| SwapRules.MinimumHolds | src/contracts/secret/secret-swap-contract/src/contract.rs:211-219 | the minimum given when a token is added is the one its swaps are held to |
| LedgerRuns.RunEvolves | src/contracts/secret/secret-swap-contract/src/state.rs:102-129 | over any transactions, whatever other contracts do, each token ends as its own committed calls leave it and every log only grows, numbered by position |
| LedgerRuns.QueryStable | src/contracts/secret/secret-swap-contract/src/contract.rs:346-359 | once a query answers it answers the same forever, across removal and re-adding |
| LedgerRuns.QueryNames | src/contracts/secret/secret-swap-contract/src/contract.rs:346-359 | an answer names the nonce and token asked for and an Ethereum address |
| LedgerRuns.RemovalCloses | src/contracts/secret/secret-swap-contract/src/contract.rs:252-272 | after removal no notice from the token and no mint on it is accepted, and other tokens are listed as before |
| LedgerRuns.LedgerConserves | src/contracts/secret/bridge-token/src/contract.rs:831-857 | conservation of every token through all message chains |
| LedgerRuns.ReachableCovered | src/contracts/secret/bridge-token/src/contract.rs:33-46 | in every reachable ledger each supply covers its balances |
| LedgerRuns.SwapCallOwes | src/contracts/secret/secret-swap-contract/src/contract.rs:224-250 | what a swap handler logs equals the burn it asks of the token that called |
| LedgerRuns.SwapLogAccounting | src/contracts/secret/secret-swap-contract/src/contract.rs:224-250 | over any signed transactions, a token's log grows by exactly what the swap contract burns of it |
| Redeem.BurnPart | src/contracts/secret/bridge-token/src/contract.rs:190-230 | a covered burn by a holder succeeds, with its exact effect |
| Redeem.ReceivePart | src/contracts/secret/secret-swap-contract/src/contract.rs:190-250 | a notice is accepted if and only if the stated conditions hold, and then logs one record |
| Registration.SwapCallRegisters | src/contracts/secret/secret-swap-contract/src/contract.rs:298-320 | whatever the swap contract handles, the one registration it may leave open is the one it asks for next |
| Registration.AlwaysRegistered | src/contracts/secret/secret-swap-contract/src/contract.rs:11-32 | on every ledger reached by signed transactions from an empty whitelist, a listed token runs the code it is listed with and has the swap contract registered under its own code |
| Redeem.SendNotified | src/contracts/secret/bridge-token/src/contract.rs:548-576 | where the token notifies the swap contract, a send succeeds if and only if both accept, know each other's code and gas suffices; the burn never fails after that; payer and supply drop by the amount and one record is logged |
| Redeem.SendUnnoticed | src/contracts/secret/bridge-token/src/contract.rs:528-546 | where it does not, a send succeeds if and only if the token accepts it, and is a plain transfer with nothing burned or logged |
| Redeem.SendToSwap | src/contracts/secret/bridge-token/src/contract.rs:528-576 | when any send to the swap contract succeeds, on any ledger, and which of the two effects it has |
| Redeem.RedeemAtomic | src/contracts/secret/bridge-token/src/contract.rs:548-576 | on every reachable ledger such a transaction redeems exactly the amount, or strands it if the token does not notify the swap contract, or changes nothing, each exactly under its condition |
| Redeem.RedeemedIsAnswered | src/contracts/secret/secret-swap-contract/src/state.rs:102-129 | what was redeemed is answered under the next nonce with payer, amount and destination, at once and forever |
| Keys.DecimalInjective | src/contracts/secret/secret_contract.py:30-31 | decimal notation determines the number |
| Keys.DecimalReads | src/contracts/secret/secret_contract.py:30-31 | decimal notation reads back as the number, without needless zeros |
| Keys.SwapKeyInjective | src/contracts/secret/secret_contract.py:30-31 | the row key determines nonce and token |
| Keys.SwapKeyIsNoHash | src/leader/eth/eth_confirmationer.py:12-13 | no such key is a 0x hash |
| ProtocolSafety.NextOk | src/leader/secret20/manager.py:65-89 | every action of every worker and of the chain keeps the invariant of rows, signatures and broadcasts |
| ProtocolSafety.RunOk | src/leader/secret20/manager.py:65-89 | the invariant holds in every reachable state |
| ProtocolResults.ThresholdSafety | src/leader/secret20/manager.py:77-88 | a signed, submitted or confirmed row always has enough signatures of different signers over its current transaction and sequence, however often it was retried |
| ProtocolResults.LeaderNeverShort | src/leader/secret20/leader.py:101-105 | the leader's branch for missing signatures is never taken |
| ProtocolResults.BroadcastsAuthorized | src/leader/secret20/leader.py:107-115 | everything ever broadcast carried enough signatures over exactly that transaction and sequence |
| ProtocolResults.AtMostOneMint | src/leader/secret20/leader.py:145-182 | mints of a deposit are the executed broadcasts given up on plus at most one |
| ProtocolResults.ConfirmedMintsDeposit | src/leader/secret20/leader.py:154-160 | a confirmed row was minted, with the amount, recipient and token of a deposit in its own Ethereum transaction |
| ProtocolResults.SignedMatchesChain | src/signer/secret20/signer.py:97-147 | with a threshold above zero no row gets past signing unless it agrees with the event signers look up |
| ProtocolResults.ValidationFollowsChain | src/leader/secret20/leader.py:154-182 | a truthful look confirms exactly the executed broadcast, fails exactly the rejected one and else waits or retries |
| ProtocolResults.SettledForever | src/leader/eth/eth_confirmationer.py:50-65 | a confirmed or failed row never changes again |
| ProtocolResults.DirectionsApart | src/leader/secret20/leader.py:78-94 | workers of one direction leave the other direction's rows alone, and rows from Secret are only submitted, confirmed or failed |
| ProtocolResults.FirstResultWins | src/leader/eth/eth_confirmationer.py:50-65 | after any results a submitted row has its first result and every other row is untouched |
| ProtocolResults.SequencesConsecutive | src/leader/secret20/manager.py:121-127 | between two reads of the chain's sequence, events and retries get consecutive numbers, none skipped, none twice, none for a duplicate event |
| ProtocolRules.FirstLogExactly | src/util/web3.py:35-60 | signers take the first native event, or else the very first |
| ProtocolRules.VerifyExactly | src/signer/secret20/signer.py:97-147 | a signer accepts a row if and only if that event names its amount and recipient and the row records the amount; when it raises and when it refuses |
| ProtocolRules.SignExactly | src/signer/secret20/signer.py:64-95 | when a visit signs the row, fails it, or changes nothing |
| ProtocolRules.EventExactly | src/leader/secret20/manager.py:129-170 | which events become rows, with which contents, and that all others leave everything as it was |
| ProtocolRules.MarkExactly | src/leader/secret20/manager.py:80-88 | a row is marked signed if and only if it is unsigned with as many stored signatures as the threshold |
| ProtocolRules.RetryExactly | src/leader/secret20/manager.py:121-127 | a retried row starts over without its signatures and with everybody else's |
| ProtocolRules.BroadcastExactly | src/leader/secret20/leader.py:99-120 | what goes out and what is saved, for each way a broadcast can end |
| ProtocolRules.SetRetryExactly | src/leader/secret20/leader.py:23-25 | sending back touches that row and its broadcast only |
| ProtocolRules.ValidateExactly | src/leader/secret20/leader.py:145-182 | what a look does to the row, its broadcast and the counter, which is read back exactly when the row fails or is sent back |
| Rounds.RoundMints | src/signer/secret20/signer.py:41-95 | whatever the threshold, an open row under the chain's sequence can be signed, broadcast and executed |
| GivingUp.CarefulMintsOnce | src/leader/secret20/leader.py:89-93 | giving up only on rejected or overtaken broadcasts makes every deposit mint at most once |
| GivingUp.CarelessMintsTwice | src/leader/secret20/leader.py:162-173 | giving up on any other broadcast leaves a careful run that mints its deposit twice, whatever the threshold |
| GivingUp.GiveUpExactly | src/leader/secret20/leader.py:89-93 | giving up on a broadcast is harmless in every careful continuation if and only if it is rejected or overtaken at that moment |
| DoubleMint.LostReplyMintsTwice | src/leader/secret20/leader.py:162-173 | for any paired deposit and any threshold, one missing reply yields two mints |
| Actors.Database.DeleteSignatures | src/leader/secret20/manager.py:122-123 | the deletion loop removes exactly one row's signatures |
| Actors.SecretManager.Retry | src/leader/secret20/manager.py:121-127 | the retry action: signatures gone, row unsigned under the next sequence |
| Actors.SecretManager.Scan | src/leader/secret20/manager.py:76-89 | one turn of the loop is a run of retry and mark actions |
| Actors.SecretManager.Handle | src/leader/secret20/manager.py:129-170 | an event makes one row and takes one number, or has no effect; it raises exactly for an unpaired coin |
| Actors.Secret20Signer.ValidateAndSign | src/signer/secret20/signer.py:64-95 | the sign action, and whether the signer goes on |
| Actors.Secret20Signer.Scan | src/signer/secret20/signer.py:41-62 | one turn is a run of sign actions up to the first failure |
| Actors.Secret20Leader.CreateAndBroadcast | src/leader/secret20/leader.py:99-120 | the broadcast action, true if and only if the row is submitted, and raising exactly if the reply to a sent broadcast cannot be read |
| Actors.Secret20Leader.ScanSigned | src/leader/secret20/leader.py:77-87 | the first pass with its `failed_prev` flag is a run of broadcast and retry actions, up to an error nobody catches |
| Actors.Secret20Leader.BroadcastValidation | src/leader/secret20/leader.py:145-182 | the validation action, and whether later rows are looked at |
| Actors.Secret20Leader.ScanSubmitted | src/leader/secret20/leader.py:88-94 | the second pass is a run of validation and retry actions |
| Actors.FailedPassOnlyRetries | src/leader/secret20/leader.py:81-84 | after a failure nothing more is broadcast in the pass |
| PassRules.FirstPassExactly | src/leader/secret20/leader.py:77-87 | from the rows alone: which rows the first pass visits, that it broadcasts one if and only if all before became submitted, and that the others end `RETRY` |
| PassRules.SecondPassExactly | src/leader/secret20/leader.py:88-94 | from the rows alone: the second pass visits exactly the submitted rows, looks at one if and only if all before ended submitted or confirmed, and the others end `RETRY` unseen |
| PassRules.SignerPassExactly | src/signer/secret20/signer.py:41-62 | from rows and signatures alone: a turn goes in order and stops exactly after the first row that waited for a signature and did not get it |
| PassRules.ManagerTurn | src/leader/secret20/manager.py:76-89 | after a turn no listed row waits to be retried or to be marked |
| EthDirection.LeaderAndSignerAgree | src/leader/eth/leader.py:113-186 | the leader submits if and only if the amount exceeds the fee, and what it submits passes the signers' check and pays in the coin it names |
| EthDirection.AssetIsNamed | src/signer/eth/impl.py:86-92 | exactly when a submission pays in the coin it names |
| EthDirection.FitsExactly | src/signer/eth/impl.py:86-92 | a submission takes from the wallet what signers read, in the coin it names and no other, if and only if it has the stated form |
| EthDirection.CheckMissesCoin | src/signer/eth/impl.py:145-162 | for every record worth more than the fee and every contract, a submission that pays in that contract's token passes the check under ether |
| EthDirection.ValidatedPaysBurned | src/signer/eth/impl.py:145-162 | whatever validates pays and charges together exactly the burned amount, to the account asked for |
| EthDirection.ScanKeepsComplete | src/leader/eth/leader.py:92-104 | a visit, cut short anywhere, leaves a row for every nonce the tracker has passed |
| EthDirection.ScanAdvances | src/leader/eth/leader.py:154-202 | an undisturbed visit passes its record except an ERC-20 amount below the fee |
| EthRules.BuildExactly | src/leader/eth/leader.py:113-186 | when the leader raises, turns down or submits, and what a submission takes from the wallet |
| EthRules.VisitExactly | src/leader/eth/leader.py:92-202 | the row a visit saves, submitted if and only if the amount exceeds the fee and it was sent, and how far it gets if cut short |
| EthRules.VisitNothing | src/leader/eth/leader.py:92-111 | a visit without a record, or one that raises, changes no row and passes nothing |
| EthRules.WithdrawSettles | src/leader/eth/eth_confirmationer.py:50-65 | from record to end: the first event for it confirms or fails a submitted record, and an unsubmitted one stays failed |
| EthRules.FirstResultExactly | src/leader/eth/eth_confirmationer.py:23-40 | the result that counts is the earliest that names the row's nonce and token |
| EthRules.NotedExactly | src/leader/eth/eth_confirmationer.py:57-65 | the confirmer notes a nonce if and only if its event settles a row |
| EthWorkers.EtherLeader.ScanToken | src/leader/eth/leader.py:92-108 | the loop body is the scan step, at every point where it may be cut short |
| EthWorkers.EtherLeader.Scan | src/leader/eth/leader.py:88-111 | the loop over tokens is the scan steps in order up to the first visit that raises, and a failing query does not end it |
| EthRules.ScannedStops | src/leader/eth/leader.py:88-111 | nothing after the first visit that raises is carried out |
| EthWorkers.EthSigner.DecodeInPlace | src/signer/eth/impl.py:86-92 | overwrites destination and amount with those of the call, or raises |
| EthWorkers.EthSigner.Sign | src/signer/eth/impl.py:78-113 | approves exactly what validates and is not done yet; every look at a record moves the tracker |
| EthWorkers.EthConfirmer.SetTxResult | src/leader/eth/eth_confirmationer.py:50-65 | settles a submitted row and notes its nonce, and ignores all else |
| EthWorkers.EthConfirmer.Feed | src/leader/eth/eth_confirmationer.py:23-40 | a list of events has the effect of its results in order |
| EthWorkers.ReplayNotesNothing | src/leader/eth/eth_confirmationer.py:50-65 | replaying any list of results a second time changes neither rows nor trackers |
| EthWorkers.EthEventListener.ConfirmationHandler | src/contracts/ethereum/event_listener.py:80-87 | removing by value while walking a copy delivers exactly the deep events in order and keeps the others in order |
| EthWorkers.DeliveryConserves | src/contracts/ethereum/event_listener.py:65-87 | over any turns, events fed are events delivered plus events pending, with multiplicity |
| EthWorkers.DeliveredAtDepth | src/contracts/ethereum/event_listener.py:80-87 | nothing is delivered before its depth and nothing that is deep enough stays |
| Accounts.LiveBelowDeposits | src/leader/secret20/manager.py:129-160 | broadcasts not given up on mint no more of a token than was deposited for it |
| Accounts.PaidWithin | src/signer/eth/impl.py:115-143 | payments with distinct tokens and nonces stay within any bound per nonce |
| Backing.MintLands | src/contracts/secret/secret-swap-contract/src/contract.rs:102-142 | executing a broadcast on the ledger is one mint of its amount to its recipient and nothing else |
| Backing.NextOk | src/leader/secret20/manager.py:129-160 | every action of the whole bridge keeps the books, the logs, the approvals and the protocol invariant |
| Backing.PaidBelowLog | src/signer/eth/impl.py:145-162 | what was paid by submissions naming a token is at most what the swap log records for it |
| Backing.Backed | src/contracts/secret/secret-swap-contract/src/contract.rs:190-250 | in every reachable state, deposits less payments and fees cover supply less initial supply, less mints by others, less mints by broadcasts given up on |
| Backing.FullyBacked | src/signer/eth/impl.py:145-162 | without such mints, deposits less payments cover all supply and all holdings created since the start |
| Solvency.SlackExactly | src/leader/secret20/manager.py:129-160 | the exact account: slack is unminted deposits plus unpaid swaps plus other burns, each never negative, less mints by others and by given-up broadcasts |
| Solvency.MintIsOpen | src/contracts/secret/secret-swap-contract/src/contract.rs:102-142 | a mint through the swap contract has the same result whoever asks |
| Solvency.MintExactly | src/contracts/secret/secret-swap-contract/src/contract.rs:102-142 | it succeeds if and only if gas suffices and the ledger allows it, with its exact effect |
| Solvency.TxSlack | src/contracts/secret/bridge-token/src/contract.rs:190-286 | a user's transaction changes the slack by exactly what it burns less what it mints |
| Solvency.UserMintExactly | src/contracts/secret/secret-swap-contract/src/contract.rs:102-142 | anybody's mint leaves the token backed if and only if the slack covers what the ledger lets it mint |
| Solvency.MintedFromNothing | src/contracts/secret/secret-swap-contract/src/contract.rs:102-142 | one transaction of anybody mints with nothing deposited, leaving the token short by the amount |
| Solvency.PrudentlyBacked | src/leader/secret20/leader.py:89-93 | over every run in which others mint nothing and the leader gives up only on dead broadcasts, the token is fully backed |
| Solvency.ExecuteExactly | src/contracts/secret/secret-swap-contract/src/contract.rs:102-142 | a broadcast in turn is executed if and only if the ledger allows its mint, and then mints its amount to its recipient |
| Solvency.AnswerExactly | src/leader/eth/leader.py:92-101 | the leader gets the record under its next nonce if and only if there is one |
| Solvency.RecordIsPaid | src/signer/eth/impl.py:115-143 | what the leader submits for an unpaid record is approved and paid, amount and fee making up the burned amount, and nothing under that nonce is paid again |
| Solvency.BackedByCoin | src/signer/eth/impl.py:115-143 | coin by coin, over runs whose payments fit, deposits of that coin less what left the wallet in it cover the supply up to the stated mints |
| Solvency.PaidElsewhere | src/signer/eth/impl.py:86-92 | a submission that does not fit is approved and paid, and takes another coin without that coin's token noticing |
| Backing.ScanStuck | src/leader/eth/leader.py:132-152 | a record below its fee stops the leader at that token for as long as fees stay above it, whatever else happens |
| Backing.TrackersComplete | src/leader/eth/leader.py:88-111 | against the ledger's own answers, every nonce up to a tracker has its row, whatever visits were cut short |
| Backing.LeaderIsApproved | src/leader/eth/leader.py:154-186 | what the leader submits for the ledger's answer is approved by every signer, at once and after anything else has happened |

## Left out

- Viewing keys, balance and allowance queries, name, symbol and decimals checks, response padding: easy or cryptographic.
- Serialization, storage prefixes, address canonicalization: replaced by datatypes, maps and the `Malformed` case.
- Ethereum address parsing: a text either names an account or is garbage. Spellings that one parser accepts and
  another refuses, such as a repeated `0x`, are not told apart.
- Signing, RLP transactions, key stores, the command-line clients and web3: their outcomes are parameters.
- The wallet and ERC-20 contracts on Ethereum: an environment with the assumptions above; the wallet's own rule for
  nonces, its owners and its requirement are not modelled.
- Price and gas oracles and float fees; gas as the chains meter it.
- A crash or an unforeseen exception inside a visit to a row, except between handling a record and saving the tracker
  in the Ethereum leader, and after a broadcast whose reply cannot be read.
- What a call other than a token transfer does when the wallet executes it: it is taken to move no coin.
- TokenContract.Contract.Handle: leaves out the two viewing-key messages and the padding of responses.
- Reading rows from stale query results: a visit acts on the row as it is.
- `last_processed`, `catch_up` and block ranges: events are handled in any order, any number of times, or never.
- The leader's unused `_catch_up`, the example receiver, the stored `Mint` records nothing writes.
- Liveness: nothing says that a deposit is minted eventually.
- Chain reorganizations past the confirmation depth.
- Callbacks registered twice for one event name, which `Callbacks.__setitem__` does not support.
- The query of a swap contract by other contracts, and the lists its other queries return.
- EthDirection.LeaderAndSignerAgree: fees are integers; on the main network the source computes them with floats.
- Backing.Backed: books payments under the token a submission names; Solvency.BackedByCoin is the account by coin.
- An initial token given to the swap contract at instantiation: the same as adding it in the next transaction.
