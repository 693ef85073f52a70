# Token vault client: a verified model

This project models the TypeScript client of the Metaplex token-vault program. It covers the builders that assemble the
instructions for initializing, activating and combining a vault and for adding shares to its treasury. It also models
the on-chain behaviour those instructions are documented to have. A vault is a record that locks tokens and issues
fractional shares of them. It goes from Inactive to Active when it is activated, which mints the requested number of
shares, possibly none, into its fraction treasury. It becomes Combined when someone buys out every circulating share at the external price.

The model has three layers.

- **Client builders**: `InitVaultClient`, `ActivateVaultClient`, `CombineVaultClient` and `AddSharesClient`.
  - Each staged setup is an immutable record.
  - Each step is a pure function that returns `Result<Setup, string>`. It fails with the exact message of the source's
    `assert`, and the caller keeps the setup it had.
  - Instructions and signers are appended as the source appends them.
  - Public keys are the datatype `Keys.Key`. The vault's derived authority is `Pda(vault)`, which is injective by
    construction. Freshly generated keypairs are supplied by the caller.
- **On-chain model**: `Ledger` and `VaultProgram`.
  - `Ledger` holds mints, token accounts, vault records and external price accounts. It provides the token operations
    the documentation presupposes: create, approve, mint, transfer and burn, with delegate allowances.
  - `VaultProgram` states InitVault, ActivateVault, MintFractionalShares, AddSharesToTreasury and CombineVault. Each one
    succeeds exactly when its documented conditions hold, together with the account, authority, allowance and supply
    checks listed under "Left out" that the documentation does not spell out. For CombineVault this is proved when its
    four token accounts are distinct. It leaves the documented state behind. The buyout price
    `whatYouOwe` is computed in the documented steps.
- **Execution**: `Runtime` and `Scenarios`.
  - `Runtime` interprets the builders' instructions against the ledger, all or nothing per transaction. It proves that
    a vault's lifecycle only moves forward and that a combined vault is final.
  - `Scenarios` states the repository's test flows as lemmas over whole instruction sequences: setup then init, init twice, activation with no shares and
    the zero-share combine. Repeated minting is in `Runtime`.

## Model

| member | source | states |
|---|---|---|
| InitVaultClient.SetupInitVaultAccounts | token-vault/js/src/instructions/init-vault.ts:29-98 | Four instructions in a fixed order: the fraction mint (0 decimals, mint and freeze authority both the vault's derived authority), the redeem treasury (price mint) and the fraction treasury (fraction mint), both owned by that authority, then the vault account. Each signer is the keypair of the account its instruction creates, with the vault keypair last. The accounts map authority to vaultAuthority, pricingLookupAddress to externalPriceAccount and vault to the vault keypair's key |
| ActivateVaultClient.ActivateVaultInstruction | token-vault/js/src/instructions/activate-vault.ts:31-40 | A missing fraction mint authority becomes the authority derived from `vault`, and a supplied one is used unchanged. The other accounts and numberOfShares are forwarded unchanged |
| InitVaultClient.InitVaultInstruction | token-vault/js/src/instructions/init-vault.ts:155-159 | An InitVault instruction that carries the given accounts and the share-creation flag unchanged |
| CombineVaultClient.Create | token-vault/js/src/instructions/combine-vault.ts:58-86 | newVaultAuthority defaults to vaultAuthority. The burn authority is the vault's derived authority. The setup starts with no instructions, no signers and none of the optional accounts |
| CombineVaultClient.CreateOutstandingShares | token-vault/js/src/instructions/combine-vault.ts:92-108 | Fails with "cannot provide/create outstanding shares twice" exactly when the account is already set. Otherwise it appends one CreateTokenAccount of the fraction mint owned by the payer and one signer, and every other field stays the same |
| CombineVaultClient.CreatePayment | token-vault/js/src/instructions/combine-vault.ts:113-129 | Fails with "cannot provide/create payment twice" exactly when the payment is already set. Otherwise it appends one CreateTokenAccount of the price mint owned by the payer and one signer, and every other field stays the same |
| CombineVaultClient.ApproveTransfers | token-vault/js/src/instructions/combine-vault.ts:139-169 | Succeeds exactly when outstanding shares and payment are set and there is no transfer authority yet. Failures come in the source's order with its messages. It appends exactly two amount-0 Approve instructions, outstanding shares first, and adds no signer |
| CombineVaultClient.AssertComplete | token-vault/js/src/instructions/combine-vault.ts:174-190 | Succeeds exactly when the guards HasOutstandingShares, HasPayment and HasTransferAuthority all hold. The last one needs both the transfer authority and its keypair. Otherwise it reports the first missing piece, in the source's order |
| CombineVaultClient.Accounts | token-vault/js/src/instructions/combine-vault.ts:195-210 | Defined exactly on a complete setup, and otherwise carries AssertComplete's error. On success it echoes every stored account unchanged |
| CombineVaultClient.CombineVaultInstruction | token-vault/js/src/instructions/combine-vault.ts:302-304 | A CombineVault instruction over exactly the accounts the getter returns, built only for a complete setup |
| CombineVaultClient.CreateAccountsAtMostOnce | token-vault/js/src/instructions/combine-vault.ts:92-129 | A second createOutstandingShares or createPayment is refused whatever keypair it would use |
| CombineVaultClient.FullSetupIsComplete | token-vault/js/test/combine-vault.ts:54-70 | The test's step sequence succeeds and gives the exact four instructions and two signers. Its CombineVault instruction names the new accounts, the transfer authority and the derived burn authority |
| AddSharesClient.Create | token-vault/js/src/instructions/add-shares-to-treasury.ts:137-162 | Starts empty and keeps every argument except vaultAuthority, which it drops as the source's constructor does. That includes an optional source and transfer authority given up front |
| AddSharesClient.InitSourceAccount | token-vault/js/src/instructions/add-shares-to-treasury.ts:56-95 | Fails with "source was already provided" exactly when a source is set. Otherwise it records the source and adds no instruction |
| AddSharesClient.MintSharesToSource | token-vault/js/src/instructions/add-shares-to-treasury.ts:97-117 | Succeeds exactly when a source is set and the fetched mint authority is the vault's derived authority. Failures come in the source's order. It appends exactly one MintTo of numberOfShares from the fraction mint to the source, signed by that authority |
| AddSharesClient.ApproveTransfer | token-vault/js/src/instructions/add-shares-to-treasury.ts:119-135 | Succeeds exactly when a source is set and neither the transfer authority nor its pair is, even when they were given to create. It appends one approval of numberOfShares and one signer, and both transfer fields become set |
| AddSharesClient.AddSharesToTreasuryBatch | token-vault/js/src/instructions/add-shares-to-treasury.ts:182-206 | Succeeds exactly when source, transfer authority and pair are set. Failures come in the source's order. It returns one AddSharesToTreasury instruction carrying numberOfShares and echoing source, fraction treasury, vault, transfer authority and the given vault authority, with no signers |
| AddSharesClient.BuilderChain | token-vault/js/src/instructions/add-shares-to-treasury.ts:56-206 | initSourceAccount, mintSharesToSource and approveTransfer in order succeed on a fresh setup. They give the MintTo followed by the approval, signed by the transfer keypair alone. addSharesToTreasury then yields the one instruction moving numberOfShares from that source |
| AddSharesClient.InitSourceWithoutAccountBlocksMint | token-vault/js/test/add-shares-to-treasury.ts:39-42 | Called with no source, as the test calls it, initSourceAccount leaves the source unset, so mintSharesToSource then fails with "init source first via initSourceAccount" |
| VaultProgram.CheckTreasury | token-vault/js/src/instructions/init-vault.ts:126-142 | Accepts exactly an account of the given mint and owner with amount 0, no delegate and no close authority |
| VaultProgram.ProcessInitVault | token-vault/js/src/instructions/init-vault.ts:103-150 | Succeeds exactly under the documented account conditions. The record becomes VaultV1 with the given addresses, authority and policy, tokenTypeCount 0, state Inactive and lockedPricePerShare 0. Nothing else changes |
| VaultProgram.InitTwiceFails | token-vault/js/src/instructions/init-vault.ts:110-113 | Initializing a vault that was just initialized fails with AlreadyInitialized |
| VaultProgram.ProcessActivateVault | token-vault/js/src/instructions/activate-vault.ts:24-30 | Only an Inactive vault with its own mint, treasury, authority and derived mint authority is accepted. It becomes Active, and exactly numberOfShares, possibly 0, are added to the fraction treasury and the supply. Only those three things change |
| VaultProgram.ProcessMintShares | token-vault/js/test/mint-shares-to-treasury.ts:73-106 | On an Active vault, numberOfShares more go into the fraction treasury and the supply. The vault record is untouched |
| VaultProgram.ProcessAddShares | token-vault/js/src/instructions/add-shares-to-treasury.ts:165-181 | Succeeds exactly when these all hold. The documented ones: the vault is Active, and the source is an initialized account of the vault's fraction mint holding at least numberOfShares. The model's added ones: the accounts name the vault's own fraction treasury and authority, the treasury exists and is an account of the vault's fraction mint, and the transfer authority may spend the shares. The shares move from the source to the treasury |
| VaultProgram.AddSharesMovesShares | token-vault/js/src/instructions/add-shares-to-treasury.ts:165-181 | Under those conditions adding shares succeeds and only moves them. The supply and every vault record are unchanged, and source plus treasury hold the same total. A source that is the treasury itself leaves the chain unchanged |
| VaultProgram.WhatYouOweIsPriceOfOthersShares | token-vault/js/src/instructions/combine-vault.ts:270-276 | The documented calculation equals (supply - treasury - outstanding) * price |
| VaultProgram.WhatYouOweNonNegative | token-vault/js/src/instructions/combine-vault.ts:270-276 | What is owed is never negative while the supply covers the treasury's and the caller's shares |
| VaultProgram.NegativeOweNeedsShortSupply | token-vault/js/src/instructions/combine-vault.ts:270-276 | whatYouOwe can be negative only when the treasury and the caller together hold more shares than the supply |
| VaultProgram.CheckCombine | token-vault/js/src/instructions/combine-vault.ts:237-266 | Accepts exactly the documented combine conditions plus the added ones: the accounts name the vault's own fraction treasury, pricing account and authority, and whatYouOwe is not negative. A vault that is not Active is refused with InvalidState |
| VaultProgram.Settle | token-vault/js/src/instructions/combine-vault.ts:278-297 | After payment and both burns, the vault is Combined, owned by the new authority, with the price locked. No other vault or price changes |
| VaultProgram.ProcessCombine | token-vault/js/src/instructions/combine-vault.ts:237-297 | Succeeds only under the documented conditions and the added checks CheckCombine names. It then leaves the vault Combined under newVaultAuthority with lockedPricePerShare equal to the external price |
| VaultProgram.CombineSettlement | token-vault/js/src/instructions/combine-vault.ts:280-291 | After a successful combine over distinct accounts, payment is debited and the redeem treasury credited by the same whatYouOwe, so their total is unchanged. The outstanding shares and the treasury end at 0, the supply drops by both, and no other token account changes |
| VaultProgram.CombineSucceeds | token-vault/js/src/instructions/combine-vault.ts:237-291 | When the documented conditions hold over distinct accounts, a combine succeeds exactly when the settlement is possible. That means the treasury holds fraction shares, the transfer authority may move what is owed and burn the caller's shares, the burn authority may burn the treasury's, and the supply covers both burns |
| Runtime.ExecuteAllAppend | token-vault/js/test/combine-vault.ts:72 | A transaction of two instruction lists runs the first list, then the second list on its result |
| Runtime.ExecuteThen | token-vault/js/test/combine-vault.ts:72 | When a list of instructions succeeds, appending one more instruction runs that instruction on the list's result. So the test's one transaction is the setup followed by CombineVault |
| Runtime.ExecuteProgress | token-vault/js/src/instructions/init-vault.ts:144-149 | Every successful instruction keeps every vault moving forward. A record it initializes starts Inactive with no token types and no locked price |
| Runtime.ExecuteAllProgress | token-vault/js/src/instructions/combine-vault.ts:241-243 | Over any instruction sequence, no vault record disappears or goes back in its lifecycle. Its accounts and policy are fixed, and its authority and price stay fixed until it is combined |
| Runtime.CombinedIsFinal | token-vault/js/src/instructions/combine-vault.ts:293-297 | No later instruction changes a combined vault's record |
| Runtime.MintsAccumulate | token-vault/js/test/mint-shares-to-treasury.ts:84-106 | Successive mints into an Active vault all succeed. The treasury and supply grow by the sum of the amounts, and the vault records stay the same |
| Runtime.MintTestSequence | token-vault/js/test/mint-shares-to-treasury.ts:109-111 | Minting 0, 5 and 5,000,000,000 into an empty treasury leaves 5,000,000,005 |
| Scenarios.InitSetupRuns | token-vault/js/src/instructions/init-vault.ts:29-98 | With fresh, distinct keys and an existing price mint, the setup's instructions all succeed. They add exactly four accounts: the fraction mint with no supply under the derived authority, the two empty treasuries it owns, and a blank vault record |
| Scenarios.InitAfterSetup | token-vault/js/src/instructions/init-vault.ts:103-150 | On the chain the setup leaves, InitVault succeeds. It records an Inactive vault with exactly the setup's accounts and the chosen policy, the mint keeps no supply, and both treasuries stay empty, so activation is accepted next |
| Scenarios.SetupThenInit | token-vault/js/test/init-vault.ts:13-99 | Setup then InitVault succeeds with fresh keys and a pricing account of the price mint. The vault is Inactive with exactly the chosen accounts and policy, and the client's activate instruction is accepted next. A second init fails with AlreadyInitialized |
| Scenarios.ActivateWithNoShares | token-vault/js/test/utils/transactions.ts:120-147 | Activating a freshly initialized vault with 0 shares through the client's instruction succeeds and mints nothing |
| Scenarios.ZeroShareSetupRuns | token-vault/js/src/instructions/combine-vault.ts:92-169 | The combine setup's four instructions succeed on fresh, distinct keys. They add exactly two empty accounts owned by the payer, one of the fraction mint and one of the price mint, each delegating 0 to the transfer authority. Nothing else changes |
| Scenarios.ZeroShareCombineRuns | token-vault/js/src/instructions/combine-vault.ts:270-297 | On that chain, with a zero-share vault, nothing is owed and CombineVault succeeds. The vault ends Combined under its authority with the price locked, and the four accounts involved hold 0 |
| Scenarios.ZeroShareTransactionRuns | token-vault/js/test/combine-vault.ts:72-93 | The setup instructions succeed, and CombineVault then succeeds on their result. The vault ends Combined and the four accounts the test checks all hold 0 |
| Scenarios.CombineZeroShareVault | token-vault/js/test/combine-vault.ts:29-93 | The combine test's flow on a zero-share vault succeeds. The vault ends Combined under its unchanged authority with the price locked, and the fraction treasury, redeem treasury, outstanding shares and payment all hold 0 |

## Left out

- RPC queries (rent-exemption minimums, the vault's byte size, fetching the mint) are parameters. Transaction sending, confirmation and airdrops are not modelled.
- `Keypair.generate` is replaced by keypairs the caller supplies. Freshness is a precondition of the scenarios.
- The helpers `createMint`, `createTokenAccount`, `approveTokenTransfer`, `mintTokens` and `pdaForVault` are not part of this model. Each becomes one abstract instruction, or the `Pda` key, signed by the keypair it is given. The generated instruction encoders and byte layouts are likewise abstract.
- The approval instruction of the add-shares builder (`approveTokenTransfer`) is built but not executed. Which accounts the helper approves is not visible, so running it yields `NotModelled`. The add-shares instruction itself is modelled on chain.
- Lamports and rent are not modelled. Creating a mint or vault account only checks that the address is unused. Creating a token account also needs its mint to exist, and fails with AccountMissing otherwise.
- u64 bounds are not modelled. Amounts are unbounded naturals, so the mint test's 5,000,000,000 is representable and overflow of supply or balances is not covered.
- The program's checks on program ownership of accounts and on the program id in the derived-key seeds are not modelled.
- Signatures are not modelled, in the vault program or in the token program's own operations. An authority check compares the key an instruction names with the one the account records, and nothing checks that this key signed. So a MintTo naming the vault's derived authority, as the add-shares builder emits it, executes in the model. On chain, a client transaction cannot carry that authority's signature.
- VaultProgram.ProcessActivateVault: beyond the documented Inactive state, the model also requires that the accounts name the vault's own fraction mint and treasury and its authority, and that the mint authority is the derived one. The token program's mint adds more: the fraction mint and treasury exist, the treasury is an account of the fraction mint, and the mint's recorded mint authority is the derived one. ProcessMintShares makes the same checks. The documentation does not list these; they are assumed as the program's.
- VaultProgram.ProcessAddShares: beyond the documented conditions, the model also requires that the accounts name the vault's own fraction treasury and authority, that the treasury is an account of the vault's fraction mint, and that the transfer authority may spend the shares (owner, or delegate with enough allowance). The documentation does not list these; they are assumed as the program's.
- VaultProgram.ProcessCombine: beyond the documented conditions, the model also requires that the accounts name the vault's fraction treasury, its pricing account and its authority. It also requires that the transfer authority may move what is owed and the caller's shares, and that the burn authority may burn the treasury's. The token program's transfer and burns add more: the fraction treasury is an account of the fraction mint, and the supply covers the caller's and the treasury's shares together. When the four token accounts are distinct, the combine succeeds exactly when all of these hold (CheckCombine and CombineSucceeds). The documentation does not list these; they are assumed as the program's.
- The `allowFurtherShareCreation` flag is stored at init but does not gate minting. The tests only mint with the flag set.
- `addTokenToInactiveVault`, safety-deposit boxes and `tokenTypeCount` after a deposit are not part of this model.
- VaultProgram.CheckCombine: a negative `whatYouOwe` is rejected with `Overflow`, because a transfer carries a natural amount. No refund is modelled for that case. By NegativeOweNeedsShortSupply this happens only when treasury and caller hold more shares than the supply.
- VaultProgram.CombineSettlement, VaultProgram.CombineSucceeds: both hold only when the combine's payment, redeem treasury, outstanding shares and fraction treasury are four distinct accounts. Combines over aliased accounts are still modelled by ProcessCombine, but these lemmas say nothing about them.
- CombineVaultClient.CreateOutstandingShares, CombineVaultClient.CreatePayment, CombineVaultClient.CreateAccountsAtMostOnce: each step is modelled as completing before the next one starts. In the source, the "twice" check runs before the awaited rent query, and the field is set only after it. So two calls issued without awaiting each other both pass the check and both push an account, and the second overwrites the first. The at-most-once property holds only for calls awaited in turn.
- The commented-out alternatives in `initSourceAccount` are not modelled. The function records the source it is given and creates nothing.
- The combine documentation's sentence that combining "mints numberOfShares" repeats the activation text. The model follows the settlement section instead: pay, burn both balances, lock the price.
- The activation accounts' property list names `fractionalMintAuthority`, while the code uses `fractionMintAuthority`. The model follows the code.
