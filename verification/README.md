# A verified model of the mitum-currency ledger

mitum-currency keeps accounts, balances and currency designs on a mitum block chain and indexes the
chain for its API. This project models the parts of it that decide about money, and the index that
reports it, and proves what they promise:

- the block engine of `currency/`: operations are checked against a snapshot, processed as deltas, and
  the collected fees are paid out when the block is closed;
- weighted multi-key accounts, fee policies and the 64-bit rounding of `MulFloat64`;
- the digest of `digest/`: re-digesting and rolling back, crash recovery, latest-per-key queries and
  cursor pagination.

Run `dafny verify dfyconfig.toml`.

## How it is put together

`Ledgers` describes a block as a state machine: a snapshot (`Env`), the updates so far (`Block`), one
step per locked method (`StepPreProcess`, `StepProcess`), and closing. Every property of blocks and
chains is proved about that machine, for every interleaving of steps of any operations
(`BlockInvariants`, `Closing`, `NewAccounts`, `Order`, `Authority`, `Refusals`), and then by induction
over chains (`Chains`: a genesis block, then any number of blocks; a chain holds the events of its
blocks).

`Charges`, `Statements` and `Acceptance` say what all this comes to without the machinery: what items
cost and bring, every balance and record after a block, and when an operation passes its checks, told
from the operations, the fee policies and the saved ledger alone.

The classes follow the program: `CurrencyPool` and `Statepool` (`Pools`), the five processors
(`Processors`) and `OperationProcessor` (`OperationProcessors`) update their fields step by step.
`OperationProcessor.Abs()` reads an object as a `Block`, and every method is proved to be exactly one
step of the machine. `BlockRuns` drives the object through whole blocks, so whatever holds of every run
of the machine holds of the object.

The digest is layered the same way: `DigestStore` and `DigestRuns` describe the index as the list of
database calls that build it, `DigestSession` holds the classes (`Store`, `Database`, `BlockSession`)
that make those calls. `LedgerIndex`, `AccountIndex`, `PoolRefresh` and `OperationIndex` join both
halves: they compare what is read from the index, or loaded into the currency pool, with the ledger of
the chain.

| file | program part |
|---|---|
| Prelude.dfy | sums over finite sets |
| Big.dfy, Feeer.dfy | big.go, feeer.go |
| Keys.dfy | keys.go, address.go |
| StateKeys.dfy | state.go, currency.go, doc_account.go |
| Facts.dfy | the facts and items of operations, and their IsValid |
| AmountState.dfy | amount_state.go and merging in the state pool |
| Ledger.dfy, Effects.dfy, BlockInvariants.dfy, Closing.dfy, NewAccounts.dfy, Order.dfy, Authority.dfy, Refusals.dfy | blocks as a state machine and what holds of them |
| Charges.dfy, Statement.dfy, Acceptance.dfy | the same told from operations and policies alone |
| Chain.dfy, GenesisCurrencies.dfy | chains, genesis |
| Pools.dfy, ItemFees.dfy, Processors.dfy, OperationProcessor.dfy, BlockRun.dfy | the engine as written, step by step |
| Offsets.dfy, OperationPages.dfy | offsets, filters and pages of database.go and handler_operation.go |
| DigestDocs.dfy, DigestStore.dfy, DigestRuns.dfy, DigestSession.dfy | block_session.go, database.go, digest.go, process_digester.go |
| Balances.dfy, Currencies.dfy | the latest-per-key loops |
| LedgerIndex.dfy, AccountIndex.dfy, PoolRefresh.dfy, OperationIndex.dfy | the index against the chain |

## What is assumed

- The state pool of the node software (`Statepool`): `Get` answers from the snapshot, never from the
  updates of the block, and snapshot states carry neither delta nor fee (they are stored without them);
  `Set` merges every state into the updates, a key written for the first time starting from the cleared
  incoming state. Accounts and designs are replaced by the last write.
- mitum validates operations before it proposes them (`Op.IsValid`), which includes that the signers of
  one operation are distinct, processes an operation once, after it was pre-processed, and saves a block
  only if `Close` succeeds.
- The hash is an arbitrary fixed function of bytes, and so are the tests for valid public keys and
  hashes. Only where state keys of different kinds meet it is assumed that a printed hash contains no
  colon (`PlainHashes`).
- The fees of genesis currencies are paid to the genesis account, as cmds/init_node.go:151-171 sets them up.
- Database calls succeed and are atomic. Two conditions on one field of a query are both applied.

## What the model shows about the code

- A `RatioFeeer` does not always stay between its minimum and maximum: ratio 0 ignores a positive
  minimum, and ratio 1 charges the amount itself. `RatioFeeRange` gives the exact condition.
- A refused operation does not always leave the block as it was. A creation refused because a new
  address is already claimed has used up its sender (`RefusedCreationBlocksSender`), since the sender is
  recorded before the addresses are looked at; `RefusalTrace` says that this is the only such case, and
  `ContestedAddress` and `TwoAccountsReached` give a chain on which it happens.
- Digesting an old block again leaves the stored marker one block behind what the index holds, because
  `SetLastBlock` ignores heights that are not new (`DigestResult`). A restart then only repeats work.
- A node that digests in order recovers from a crash after any database call: restart and catch up give
  the full index (`RestartRestores`). For any other run `RestartMeaning` says exactly when they do.
- `cleanByHeight` deletes before it lowers the marker. Catching up starts with the last digested block, so
  its very first call makes the marker wrong for a moment; a crash there is harmless, because the next
  start begins with the same block. For an older block digested again a crash at this point loses the
  blocks between it and the last one for good, exactly if they have documents (`CrashWhileCleaning`).
- Taken alone, `digestFollowup` would leave a gap if an old block had been digested again before it in the
  same process (`FollowUpMeaning`, `FollowUpGap`). No caller does that: it runs once, at start-up, before
  anything else is digested (cmds/process_digester.go:89-134, cmds/run_node.go:39-40).

## Model

| member | source | states |
|---|---|---|
| Big.HalfEvenNear | currency/big.go:142-146 | rounds to the nearest multiple, and halfway between two to the even one |
| Big.MulFloat64Exact | currency/big.go:141-149 | a product of less than 64 bits is truncated toward zero and not otherwise rounded, for negative amounts too |
| Big.MulFloat64Error | currency/big.go:141-149 | for every amount, negative ones included, the product is within 1 + abs(a)·x·2^-62 of the exact a·x, both roundings and the truncation included |
| Big.MulFloat64Monotone | currency/big.go:141-149 | a larger amount never gives a smaller product |
| Big.Round64Error | currency/big.go:142-146 | rounding to a 64-bit mantissa errs by at most one part in 2^64 |
| Feeers.RatioFeeRange | currency/feeer.go:168-208 | the fee lies between minimum and maximum if and only if ratio 0 comes with minimum 0 and ratio 1 with an amount in range |
| Feeers.RatioFeeIsProduct | currency/feeer.go:177-184 | between the shortcuts the fee is amount times ratio within the error of the product: above it only where the minimum is charged, below it only at the maximum |
| Feeers.RatioFeeWithinAmount | currency/feeer.go:168-194 | beyond the minimum no more than the amount is charged, up to rounding |
| Feeers.PlainFees | currency/feeer.go:68-178 | nothing, the fixed amount, and the fees of a ratio of 0 or 1 and of the amount 0 |
| Feeers.RatioOneIgnoresMinimum | currency/feeer.go:168-186 | a valid policy with ratio 1 that charges less than its minimum |
| Feeers.RatioFeeMonotone | currency/feeer.go:168-186 | a larger amount never costs less, with the exact exception of ratio 1 and amount 0 |
| Feeers.FeeNonNegative | currency/feeer.go:68-211 | a valid policy never charges a negative fee, and charges nothing without a receiver |
| AccountKeys.BytesLessMeaning | currency/keys.go:115-117 | public keys are ordered by the first byte in which they differ, a proper prefix first |
| AccountKeys.UintRoundTrip | currency/keys.go:67-69 | weights and thresholds are eight bytes, least significant first, that give every 64-bit number back |
| AccountKeys.SortInPlace | currency/keys.go:115-118 | the in-place sort by public key bytes: sorted, a permutation, and one fixed result for distinct keys |
| AccountKeys.KeysBytes | currency/keys.go:112-126 | sorts the keys in place and returns the bytes whose hash is independent of their order |
| AccountKeys.HashOrderFree | currency/keys.go:108-126 | any two arrangements of distinct keys give the same bytes, hash and address |
| AccountKeys.EncodeExact | currency/keys.go:67-126 | for public keys of the same lengths the bytes are the same only for the same keys, weights and threshold |
| AccountKeys.AddressFixesKeys | currency/keys.go:108-126 | short of a hash collision, valid keys with public keys of one length have the same address exactly if they compare equal |
| AccountKeys.SortedUnique | currency/keys.go:115-118 | distinct keys have one sorted arrangement only |
| AccountKeys.Equal | currency/keys.go:192-215 | keys that compare equal have the same threshold and elements; for distinct public keys, as in all valid keys, also the converse; both slices are only permuted |
| AccountKeys.KeysEqualMeaning | currency/keys.go:192-215 | comparing sorted keys decides equality of thresholds and key sets |
| AccountKeys.IsValid | currency/keys.go:128-171 | accepts exactly a valid hash, 1 to 10 distinct valid public keys with weights and threshold in 1..100, enough weight, and the hash of the keys |
| AccountKeys.CheckThreshold | currency/keys.go:217-232 | accepts exactly if all signers are registered and their weights reach the threshold |
| AccountKeys.ThresholdMeaning | currency/keys.go:217-232 | for distinct signers acceptance depends on the set of signers alone |
| AccountKeys.MoreSignersPass | currency/keys.go:217-232 | adding registered signers never invalidates a sufficient signature |
| AccountKeys.AllKeysPass | currency/keys.go:128-171 | whoever signs with all keys of valid keys is accepted |
| AccountKeys.UnsignedFails | currency/keys.go:128-232 | without signatures no valid keys are satisfied |
| AccountKeys.WeightsFit | currency/keys.go:128-232 | the weights of any different signers of valid keys add up to at most 1000, so the sum never overflows |
| StateKeys.BalanceKeyInjective | currency/state.go:21-93 | one balance key per address and valid currency id, whatever the address is made of |
| StateKeys.AccountKeyInjective | currency/state.go:29-31 | one account key per address |
| StateKeys.DesignKeyInjective | currency/state.go:124-126 | one design key per currency |
| StateKeys.KeysClassified | currency/state.go:29-126 | the recognisers tell the three families of keys apart, provided no address starts like a design key |
| StateKeys.BalanceDocAddressExact | digest/doc_account.go:71-83 | slicing a balance key recovers exactly the address prefix |
| Facts.AmountsAreValid | currency/transfers_item.go:39-65 | accepts exactly non-empty positive amounts in distinct valid currencies |
| Facts.PaymentsAreValid | currency/transfers.go:82-108 | the item part: accepts exactly 1 to 10 valid items with distinct receivers, none of them the sender |
| Facts.TransfersFactIsValid | currency/transfers.go:79-115 | accepts exactly a token, valid items, and the hash of the fact |
| AmountStates.SetOneView | currency/amount_state.go:65-81 | merging a state into the pool adds its delta to the value and its fee to the fee |
| AmountStates.PostAllMeaning | currency/amount_state.go:65-158 | after any list of writes each balance is its former value plus the sum of its own deltas |
| AmountStates.SameEffectSameBalances | currency/amount_state.go:65-158 | lists of writes that agree key by key leave the same balances, whatever their order |
| AmountStates.TallyMeaning | currency/operation_processor.go:74-92 | the tally grows per currency by the sum of the fees written |
| Effects.PayWritesMeaning | currency/create_accounts_process.go:194-230 | credits plus fees of a payment equal its debits in every currency |
| Effects.OperationFacts | currency/transfers_process.go:91-150 | an accepted operation moves no value but what it mints, debits only its sender and never more than the snapshot holds, and writes only in existing or created places |
| Statements.ItemsArrive | currency/transfers.go:79-115 | a valid transfer or creation pays 1 to 10 different receivers, never its sender, and each amount arrives exactly once |
| Effects.SupplyAfter | currency/amount_state.go:65-81 | writing deltas changes the total of a currency by their sum |
| BlockInvariants.PreProcessKeepsInv | currency/operation_processor.go:94-117 | accepting or refusing an operation keeps every block invariant |
| BlockInvariants.EffectConserves | currency/operation_processor.go:138-153 | processing keeps balances plus tally equal to the snapshot total plus what was minted, and the tally equal to the merged fees |
| BlockInvariants.EffectSolvent | currency/operation_processor.go:155-203 | processing leaves no balance negative although the check was made against the snapshot |
| BlockInvariants.EffectWrittenOnce | currency/operation_processor.go:205-226 | account records and designs are written by one operation of the block only |
| BlockInvariants.RunKeepsInv | currency/operation_processor.go:94-153 | all invariants hold after any number of steps of any interleaving |
| Statements.ProcessedStatement | currency/operation_processor.go:138-153 | processing an operation changes each balance by what its items bring and take, fees included (a key update takes the fee for an amount of 0), and the tally by the fees |
| Statements.RunStatement | currency/operation_processor.go:74-153 | at every point of a block each balance and the tally are the sums over the operations processed so far |
| Closing.ClosePays | currency/fee.go:174-206 | Close never fails and never leaves a nil state: every currency with fees has an existing payee |
| Closing.CloseConserves | currency/operation_processor.go:228-244 | after Close the balances alone carry what balances and tally carried before |
| Closing.MintedOnce | currency/currency_register_process.go:44-109 | a currency is minted at most once per block, in the amount of its design |
| Closing.SavedSupply | currency/currency_policy_updater_process.go:90-101 | each saved design states exactly the total of the balances; a policy update does not change it |
| Closing.CommitGood | currency/operation_processor.go:228-244 | a closed block turns a good ledger into a good ledger |
| Statements.BlockStatement | currency/operation_processor.go:74-244 | each saved balance is the old one plus what the operations of the block bring, less what they take, plus all fees of the currency for its payee |
| Statements.BalancesListed | currency/operation_processor.go:74-244 | the saved ledger lists exactly the old balances, those of processed operations, and those of payees with fees |
| Statements.RecordStatement | currency/operation_processor.go:119-153 | accounts and designs are saved as the processed operations state them, and all others as they were |
| Statements.DesignInForce | currency/currency_policy_updater_process.go:90-101 | a processed registration saves its design, a processed policy update the old design with the new policy and nothing else changed |
| NewAccounts.CreditedExactly | currency/create_accounts_process.go:75-99 | distinct receivers and currencies: each amount is credited exactly once |
| NewAccounts.CreatedAccountsFunded | currency/create_accounts_process.go:26-99 | an account created in a block ends the block with exactly the amounts given, at least the policy minimum each |
| Order.AllAccepted | currency/operation_processor.go:155-226 | pairwise compatible operations are all accepted under every schedule |
| Order.OrderDoesNotMatter | currency/operation_processor.go:94-153 | if one schedule gets all operations accepted then every schedule does, with the same balances, accounts, designs, fees and saved ledger |
| Order.RunSummary | currency/amount_state.go:65-81 | balances and tally are functions of the set of processed operations |
| Authority.SpendingIsSigned | currency/signs.go:29-50 | a balance is lower after a block only if a set of different keys the owner had before the block, reaching its threshold, signed an operation of the owner in it |
| Authority.KeyChangeIsSigned | currency/keyupdater_process.go:38-101 | the keys of an account change only by a key update that enough of its different old keys signed, to the keys of that update |
| Authority.DesignChangeIsSigned | currency/signs.go:10-27 | a currency is registered or changed only by an operation that at least the threshold of different suffrage nodes signed |
| Authority.CountSuffrageMeaning | currency/signs.go:10-27 | for distinct signers the count is the number of different suffrage nodes among them |
| Acceptance.TransferAccepted | currency/transfers_process.go:91-127 | passes exactly if a sufficient set of keys signed, all receivers exist, and the sender holds amounts plus fees in every currency |
| Acceptance.CreationAccepted | currency/create_accounts_process.go:26-158 | passes exactly if a sufficient set of keys signed, the sender can pay, all addresses are new, and no amount is below the minimum |
| Acceptance.MinimumSuffices | currency/create_accounts_process.go:26-73 | an amount equal to the minimum is accepted |
| Acceptance.KeyUpdateAccepted | currency/keyupdater_process.go:38-87 | passes exactly if the old keys signed, the new ones differ in threshold, key or weight, and the balance covers the fee |
| Acceptance.RegistrationAccepted | currency/currency_register_process.go:44-91 | on a good ledger, passes exactly if enough suffrage nodes signed, the currency is new, and genesis account and payee exist; the tests for a saved design or balance never decide |
| Acceptance.PolicyUpdateAccepted | currency/currency_policy_updater_process.go:48-88 | on a good ledger, passes exactly if enough suffrage nodes signed and currency and payee exist |
| Refusals.RefusalTrace | currency/operation_processor.go:94-212 | a refused operation leaves the block as it was exactly if its checks failed or its sender or currency was already recorded; else its sender is recorded |
| Refusals.RefusedCreationBlocksSender | currency/operation_processor.go:190-209 | a creation refused for a claimed address blocks its sender for the rest of the block |
| Refusals.ContestedAddress | currency/operation_processor.go:205-226 | two accounts create the same address, both pass their checks, the second is refused and its sender can do nothing more in the block |
| Refusals.TwoAccountsReached | currency/genesis_currencies_process.go:10-70 | a genesis block and one creation lead to the ledger of that contest |
| Chains.EveryChainGood | currency/genesis_currencies_process.go:10-70 | on every chain: balances of a registered currency sum to its design, none is negative or in an unregistered currency, every account has valid keys, the pool shows the designs |
| Chains.EveryCurrencyHeld | currency/currency_design.go:30-60 | on every chain every registered currency has a holder with a positive balance |
| Chains.CloseNeverFails | currency/fee.go:174-206 | on every chain and for every block Close succeeds |
| Chains.MidBlock | currency/operation_processor.go:74-92 | in the middle of any block of any chain: balances plus tally equal the saved supply plus what was minted, and no balance is negative |
| Chains.BlockExtends | currency/currency_policy_updater_process.go:90-101 | no account, balance or design is ever removed, and no supply changes |
| Chains.NobodyLockedOut | currency/account.go:72-80 | the owner of any account of any chain can act by signing with all its keys |
| GenesisCurrencies.GenesisStates | currency/genesis_currencies_process.go:10-69 | fails exactly for invalid keys or anything already saved; else one account, all designs, and their supplies |
| GenesisCurrencies.Process | currency/genesis_currencies_process.go:10-70 | fails exactly for invalid keys or names already saved; else merges account, supplies and designs into the updates, in a block of its own exactly the ledger every chain starts from |
| GenesisCurrencies.GrantsMeaning | currency/genesis_currencies_process.go:57-69 | a balance written as a value without delta merges into exactly the supply |
| Pools.CurrencyPool.Set | currency/currency_pool.go:32-48 | both maps take the design under its own currency and stay in step with the list of ids |
| Pools.Statepool.Set | currency/amount_state.go:65-81 | a list of states is merged in order, balances as deltas, accounts and designs by last write |
| ItemFees.CalculateItemsFee | currency/create_accounts_process.go:194-230 | fails exactly for an unregistered currency; else, for exactly the currencies mentioned, the sum of the amounts and of the fees their policy takes for each, and those fees alone |
| Charges.OwedMeaning | currency/create_accounts_process.go:194-230 | what is debited in a currency is the sum of its amounts and, for each amount, the positive fee of its policy |
| ItemFees.OwedOrderFree | currency/create_accounts_process.go:194-230 | the same amounts in another order cost the same |
| ItemFees.CheckEnoughBalance | currency/create_accounts_process.go:232-265 | succeeds exactly if the snapshot covers every currency, and returns the balances found |
| ItemFees.ItemWritesInterchangeable | currency/transfers_process.go:129-150 | crediting item by item and debiting once per currency, in any map order, does the same as amount by amount |
| Processors.CheckFactSignsByPubs | currency/signs.go:10-27 | accepts exactly if enough signers are suffrage nodes |
| Processors.CheckFactSignsByState | currency/signs.go:29-50 | accepts exactly if the account exists and its saved keys accept the signers |
| Processors.TransfersProcessor.PreProcess | currency/transfers_process.go:91-127 | accepts exactly if all checks hold, and keeps what Process needs |
| Processors.TransfersProcessor.Process | currency/transfers_process.go:129-150 | the states handed over are the effects of the transfer |
| Processors.PreProcessCreateAccountsItem | currency/create_accounts_process.go:26-73 | accepts exactly a new address with amounts that meet the minimum of registered currencies |
| Processors.CreateAccountsProcessor.PreProcess | currency/create_accounts_process.go:122-158 | accepts exactly if all checks hold, and keeps what Process needs |
| Processors.CreateAccountsProcessor.Process | currency/create_accounts_process.go:160-181 | the states handed over are the new accounts, their balances and the debits |
| Processors.KeyUpdaterProcessor.PreProcess | currency/keyupdater_process.go:38-87 | accepts exactly if all checks hold, and keeps account, balance and fee |
| Processors.KeyUpdaterProcessor.Process | currency/keyupdater_process.go:89-101 | the states handed over are the new keys and the fee debit |
| Processors.CurrencyRegisterProcessor.PreProcess | currency/currency_register_process.go:44-91 | accepts exactly if all checks hold |
| Processors.CurrencyRegisterProcessor.Process | currency/currency_register_process.go:93-109 | the states handed over mint the whole supply and register the design |
| Processors.CurrencyPolicyUpdaterProcessor.PreProcess | currency/currency_policy_updater_process.go:48-88 | accepts exactly if all checks hold, and keeps the saved design |
| Processors.CurrencyPolicyUpdaterProcessor.Process | currency/currency_policy_updater_process.go:90-101 | the state handed over is the saved design with the new policy |
| OperationProcessors.DidStringInjective | currency/operation_processor.go:155-203 | senders and currencies share one map of strings without collisions |
| OperationProcessors.OperationProcessor.New | currency/operation_processor.go:48-61 | a new processor is the empty block over its snapshot |
| OperationProcessors.OperationProcessor.SetState | currency/operation_processor.go:74-92 | adds the positive fees to the tally and merges the states |
| OperationProcessors.OperationProcessor.CheckNewAddressDuplication | currency/operation_processor.go:214-226 | all addresses are recorded, or none if one is claimed |
| OperationProcessors.OperationProcessor.CheckDuplication | currency/operation_processor.go:155-212 | refuses exactly a second use of a sender or currency or a claimed address; the sender or currency is recorded even then |
| OperationProcessors.OperationProcessor.PreProcess | currency/operation_processor.go:94-117 | is exactly one step of the block's state machine, and accepts exactly when it does |
| OperationProcessors.OperationProcessor.Process | currency/operation_processor.go:119-153 | is exactly one step of the block's state machine |
| OperationProcessors.OperationProcessor.ProcessOperation | currency/operation_processor.go:127-132 | processing an operation directly is both steps at once |
| OperationProcessors.FeeAmounts | currency/fee.go:30-45 | lists each entry of the tally once |
| OperationProcessors.PayFees | currency/fee.go:174-206 | fails exactly for an unknown currency or a missing payee account; a policy without receiver leaves a nil state |
| OperationProcessors.PayoutPaid | currency/fee.go:174-206 | merging the payout gives each payee the tally of its currency and changes nothing else |
| OperationProcessors.OperationProcessor.Close | currency/operation_processor.go:228-244 | succeeds exactly if every fee can be paid; then the balances are the paid ones, else nothing changed |
| BlockRuns.Driver.RunEvents | currency/operation_processor.go:94-153 | an operation processor driven through any events ends exactly where the state machine ends |
| BlockRuns.RunBlock | currency/operation_processor.go:48-244 | from New to Close: on a good ledger every block closes, and what is saved is the committed block, a good ledger again |
| Offsets.OffsetRoundTrip | digest/database.go:541-557 | parsing a built offset gives back height and index, for all 64-bit values, negative heights included |
| Offsets.ParsedRepresentable | digest/database.go:541-557 | whatever offset is accepted means the same as its canonical form |
| OperationPages.FilterMeaning | digest/handler_operation.go:295-355 | a filter refuses exactly unparsable offsets, and else keeps exactly what comes after the offset |
| OperationPages.NextOffsetMeaning | digest/handler_operation.go:357-401 | the next offset points at the last operation shown |
| OperationPages.SortedUnique | digest/database.go:389-399 | operations at distinct positions have one order only |
| OperationPages.PageLength | digest/database.go:393-399 | a page has the smaller of the limit, 50 and what remains; without a limit all that remains |
| OperationPages.FollowShowsRest | digest/database.go:278-335 | following next offsets from any accepted offset shows exactly the operations after it, in order, and ends |
| OperationPages.FollowListsEverything | digest/database.go:377-426 | from the empty offset every selected operation is shown exactly once, in order or reversed, for every limit, also those capped at the maximum and those meaning none |
| DigestDocs.PrepareOperations | digest/block_session.go:128-172 | fails exactly if an operation is missing from the tree; else one document per operation under its index, with confirmation time, state flag and reason |
| DigestDocs.PrepareAccounts | digest/block_session.go:174-223 | one document per account state and per balance state, told apart by their keys |
| DigestStore.WriteCallsInsert | digest/block_session.go:225-256 | however many chunks, every model is inserted exactly once |
| DigestStore.DigestResult | digest/digest.go:127-146 | what one digested block leaves, marker included: it lags when the block was not new |
| DigestStore.DigestExact | digest/digest.go:127-146 | whatever was indexed at or above, digesting a block leaves the documents of blocks 0 up to it exactly once |
| DigestStore.HalfCleaned | digest/database.go:209-235 | the exact condition under which a crash between deleting and lowering the marker is harmless |
| DigestStore.CrashSafe | digest/block_session.go:74-102 | after any number of database calls of a digest the marker promises only what the index holds, with the exact exception |
| DigestRuns.RunFaithful | digest/digest.go:120-146 | after any run of digests in any order, crashes after any call, and restarts, the index holds exactly the documents of the blocks the run leaves, each once |
| DigestRuns.RestartMeaning | digest/database.go:89-114 | after any run, a restart and catching up give the full index exactly if no block with documents is missing below the marker |
| DigestRuns.RestartRestores | cmds/process_digester.go:111-128 | after any run that digests in order, with crashes after any call, a restart and the catching up that is due restore the full index; a crash right after the first call of catching up, the deletion of the last block, is included |
| DigestRuns.RunExact | digest/digest.go:120-146 | digesting in order, with repetitions and crashes, leaves exactly blocks 0 to some top; the marker exceeds it only by the last block, while that is digested again |
| DigestRuns.FollowUpMeaning | cmds/process_digester.go:159-174 | catching up ends complete exactly if nothing below its first block is missing |
| DigestRuns.FollowUpGap | cmds/process_digester.go:159-174 | of the function alone, for a call the program never makes: after an old block was digested again, catching up leaves a block out |
| DigestRuns.CrashWhileCleaning | digest/database.go:209-235 | a block digested again and broken off after the deletion leaves a wrong marker exactly if documents were deleted; the next start restores the index exactly if the blocks between it and the last one have none, so always for the last block |
| DigestSession.Store.DeleteMany | digest/database.go:214-233 | deletes exactly the documents at or above the height |
| DigestSession.Database.SetLastBlock | digest/database.go:137-150 | refuses on a readonly database; else changes marker and memory only for a new height |
| DigestSession.Database.CleanByHeight | digest/database.go:198-235 | refuses on a readonly database; from height 0 everything is dropped, else everything at or above is deleted; then the marker is lowered |
| DigestSession.Database.Init | digest/database.go:89-114 | takes the stored marker and cleans above it; a readonly database takes the marker alone |
| DigestSession.BlockSession.WriteModels | digest/block_session.go:225-256 | writes the models in chunks of at most 500, in order, none twice |
| DigestSession.BlockSession.Commit | digest/block_session.go:74-102 | cleans, then writes operations, accounts and balances |
| DigestSession.DigestBlock | digest/digest.go:127-146 | makes exactly the calls the digest of a block consists of |
| DigestSession.DigestFollowup | cmds/process_digester.go:136-177 | succeeds exactly if all blocks from the last one in memory up to the height can be loaded and digested; else stops at the first that cannot, with everything before it digested |
| DigestSession.SortBlocks | digest/digest.go:107-110 | sorts the saved blocks by height, in place |
| DigestSession.DigestBlocks | digest/digest.go:68-125 | digests the blocks handed over by ascending height, each once, up to the first that cannot be digested |
| DigestSession.ArrivalOrderFree | digest/digest.go:107-118 | consecutive blocks are indexed exactly in whatever order they arrive |
| Currencies.LoadCurrencies | digest/currency.go:21-70 | visits each currency once at its newest version, sets the pool to it, and terminates |
| Currencies.RefreshIsReload | cmds/run_node.go:144-154 | a refreshed pool equals a full load exactly if no newest design lies between what was known and the height refreshed from |
| Balances.CollectBalances | digest/database.go:465-514 | terminates with the newest amount of every currency the address ever held, and the greatest height among them |
| Balances.Balance | digest/database.go:465-524 | returns each of those amounts once |
| LedgerIndex.LedgerRecorded | digest/block_session.go:174-223 | the newest saved states are the balances and designs of the ledger |
| LedgerIndex.BalanceDocsSaved | digest/block_session.go:217-223 | the balance documents are those of the saved balance states |
| LedgerIndex.IndexShowsBalances | digest/database.go:465-524 | once all blocks are digested the newest document of an address and currency is exactly the ledger's balance, and there is none for any other currency |
| AccountIndex.IndexShowsAccounts | digest/doc_account.go:20-31 | once all blocks are digested the newest account document of an address is the ledger's record, and there is none for an address without account |
| Balances.ReadAccount | digest/database.go:428-463 | answers with the newest record and the newest amount of each currency, or nothing if there is no record |
| AccountIndex.AnswerIsLedger | digest/database.go:428-524 | once all blocks are digested that answer is the account and exactly the balances of the ledger |
| PoolRefresh.FullLoadShowsLedger | digest/currency.go:21-70 | a full load shows exactly the designs of the ledger |
| PoolRefresh.RefreshedPoolShowsLedger | cmds/run_node.go:144-154 | after every block of every chain the refreshed pool shows the designs of the new ledger |
| OperationIndex.OperationsApart | digest/block_session.go:144-169 | digested operations have distinct positions that fit into offsets |
| OperationIndex.ListingComplete | digest/handler_operation.go:109-138 | following the pages of a digested index shows every selected operation of all its blocks exactly once |
| OperationIndex.OperationListed | digest/doc_operation.go:21-60 | an operation is shown exactly if it is in a block up to the height and the query asks for it; for an address, if the operation names it |
| OperationIndex.ListingTruthful | digest/block_session.go:144-169 | each entry carries fact, addresses, confirmation time, state flag and reason of its operation and tree node; entries come by height and index, or reversed |

## Left out

- Integer width: weights and thresholds are unbounded here; `WeightsFit` shows that the source's uint is large enough for their sums.
- Nil amounts: a Big without a value is not modelled; the source only meets it for unset fields.
- NaN and infinite ratios: a ratio is a finite non-negative float64, written exactly as mantissa over a power of two.
- Token, memo and hash checks, except those of transfer facts; what makes a public key valid.
- The list of operation hashes kept in each state, and the delta field of a state after it was merged; neither is part of what a balance means.
- The processors of single items are values, not objects: they are created, filled and read by one processor only.
- Processors return their states instead of calling back; each calls setState exactly once, at its end.
- Running without a currency pool (`cp == nil`), which only tests do, and operation types registered by others.
- The error texts of refusals; of the reasons only the kind of duplication is kept.
- CurrencyPool.Clear, after which a Set would fail on a nil map, and the traversal callbacks of the pool.
- Mutexes and goroutines: each locked method is one atomic step, and steps interleave arbitrarily.
- DigestSession.Store: the three collections are one multiset of documents told apart by their kind; deleting from them is one call.
- AccountKeys.SortInPlace: stands for sort.Slice by a sort of its own; only what every sort promises is used.
- DigestSession.DigestBlocks: hands the blocks over directly instead of through a channel; where the program retries for ever the model stops.
- DigestDocs.PrepareAccounts: a malformed balance key is refused, where slicing it would panic; no state key of the program is malformed.
- Manifests and single operations read by hash, which are queries without a loop.
- The URL around a next offset, HAL documents, caching and the HTTP handlers themselves.
- JSON and BSON encoding, and failures of the database.
