/** The vault program's instructions as their documentation states them:
    the conditions each one checks and the state it leaves behind. A vault
    moves Inactive -> Active -> Combined; the fraction mint, both treasuries
    and the derived authority are fixed at initialization. */
module VaultProgram {
  import opened Wrappers
  import opened Keys
  import Instructions
  import opened Ledger

  predicate Initialized(c: Chain, vault: Key) {
    vault in c.vaults && c.vaults[vault].key == VaultV1
  }

  // ---------------------------------------------------------------------
  // InitVault
  // ---------------------------------------------------------------------

  /** A treasury as InitVault expects it: an empty account of `mint`, owned
      by `owner`, with no delegate and no close authority. */
  predicate EmptyTreasury(c: Chain, account: Key, mint: Key, owner: Key) {
    && account in c.tokens
    && c.tokens[account].mint == mint
    && c.tokens[account].owner == owner
    && c.tokens[account].amount == 0
    && c.tokens[account].delegate.None?
    && c.tokens[account].closeAuthority.None?
  }

  function CheckTreasury(c: Chain, account: Key, mint: Key, owner: Key): (r: Result<(), Error>)
    ensures r.Ok? <==> EmptyTreasury(c, account, mint, owner)
  {
    var _ :- Need(account in c.tokens, AccountMissing);
    var t := c.tokens[account];
    var _ :- Need(t.mint == mint, MintMismatch);
    var _ :- Need(t.owner == owner, OwnerMismatch);
    var _ :- Need(t.amount == 0, NotEmpty);
    var _ :- Need(t.delegate.None?, DelegateSet);
    Need(t.closeAuthority.None?, CloseAuthoritySet)
  }

  /** The documented conditions on the InitVault accounts: an uninitialized
      vault record, a pricing account, a fraction mint with no supply whose
      mint and freeze authority are the vault's derived authority, and two
      empty treasuries owned by that authority, of the fraction mint and of
      the pricing account's mint. */
  predicate InitConditions(c: Chain, a: Instructions.InitVaultAccounts) {
    var authority := PdaForVault(a.vault);
    && a.vault in c.vaults && c.vaults[a.vault].key == Uninitialized
    && a.pricingLookupAddress in c.prices
    && a.fractionMint in c.mints
    && c.mints[a.fractionMint].supply == 0
    && c.mints[a.fractionMint].mintAuthority == Some(authority)
    && c.mints[a.fractionMint].freezeAuthority == Some(authority)
    && EmptyTreasury(c, a.fractionTreasury, a.fractionMint, authority)
    && EmptyTreasury(c, a.redeemTreasury, c.prices[a.pricingLookupAddress].priceMint, authority)
  }

  /** InitVault: succeeds exactly under the documented conditions, refuses
      an initialized record with AlreadyInitialized, and leaves an Inactive
      VaultV1 record holding the given accounts, no token types, the given
      share-creation policy and no locked price. Nothing else changes. */
  function ProcessInitVault(c: Chain, a: Instructions.InitVaultAccounts, allowFurtherShareCreation: bool)
    : (r: Result<Chain, Error>)
    ensures r.Ok? <==> InitConditions(c, a)
    ensures Initialized(c, a.vault) ==> r == Err(AlreadyInitialized)
    ensures r.Ok? ==>
              && VaultsFramed(c, r.value, a.vault)
              && r.value.vaults[a.vault].key == VaultV1
              && r.value.vaults[a.vault].fractionMint == a.fractionMint
              && r.value.vaults[a.vault].redeemTreasury == a.redeemTreasury
              && r.value.vaults[a.vault].fractionTreasury == a.fractionTreasury
              && r.value.vaults[a.vault].pricingLookupAddress == a.pricingLookupAddress
              && r.value.vaults[a.vault].authority == a.authority
              && r.value.vaults[a.vault].allowFurtherShareCreation == allowFurtherShareCreation
              && r.value.vaults[a.vault].tokenTypeCount == 0
              && r.value.vaults[a.vault].state == Inactive
              && r.value.vaults[a.vault].lockedPricePerShare == 0
              && r.value.mints == c.mints && r.value.tokens == c.tokens && r.value.prices == c.prices
  {
    var authority := PdaForVault(a.vault);
    var _ :- Need(a.vault in c.vaults, AccountMissing);
    var _ :- Need(c.vaults[a.vault].key == Uninitialized, AlreadyInitialized);
    var _ :- Need(a.pricingLookupAddress in c.prices, AccountMissing);
    var _ :- Need(a.fractionMint in c.mints, AccountMissing);
    var mint := c.mints[a.fractionMint];
    var _ :- Need(mint.supply == 0, NotEmpty);
    var _ :- Need(mint.mintAuthority == Some(authority) && mint.freezeAuthority == Some(authority), AuthorityMismatch);
    var _ :- CheckTreasury(c, a.fractionTreasury, a.fractionMint, authority);
    var _ :- CheckTreasury(c, a.redeemTreasury, c.prices[a.pricingLookupAddress].priceMint, authority);
    var vault := Vault(
      key := VaultV1,
      fractionMint := a.fractionMint,
      redeemTreasury := a.redeemTreasury,
      fractionTreasury := a.fractionTreasury,
      pricingLookupAddress := a.pricingLookupAddress,
      authority := a.authority,
      allowFurtherShareCreation := allowFurtherShareCreation,
      tokenTypeCount := 0,
      state := Inactive,
      lockedPricePerShare := 0);
    Ok(c.(vaults := c.vaults[a.vault := vault]))
  }

  /** A vault cannot be initialized twice: the second attempt fails with
      AlreadyInitialized, whatever policy it asks for. */
  lemma InitTwiceFails(c: Chain, a: Instructions.InitVaultAccounts, first: bool, second: bool)
    requires ProcessInitVault(c, a, first).Ok?
    ensures ProcessInitVault(ProcessInitVault(c, a, first).value, a, second) == Err(AlreadyInitialized)
  {
  }

  // ---------------------------------------------------------------------
  // ActivateVault and MintFractionalShares
  // ---------------------------------------------------------------------

  /** The accounts name the vault's own fraction mint and treasury, the
      vault's authority, and the derived mint authority, and the token
      program accepts the mint. */
  predicate MintAccountsMatch(c: Chain, vault: Key, fractionMint: Key, fractionTreasury: Key,
                              vaultAuthority: Key, mintAuthority: Key)
    requires vault in c.vaults
  {
    var v := c.vaults[vault];
    && fractionMint == v.fractionMint && fractionTreasury == v.fractionTreasury
    && vaultAuthority == v.authority
    && mintAuthority == PdaForVault(vault)
    && MintReady(c, fractionMint, fractionTreasury, mintAuthority)
  }

  function CheckMintAccounts(c: Chain, vault: Key, fractionMint: Key, fractionTreasury: Key,
                             vaultAuthority: Key, mintAuthority: Key): (r: Result<(), Error>)
    requires vault in c.vaults
    ensures r.Ok? <==> MintAccountsMatch(c, vault, fractionMint, fractionTreasury, vaultAuthority, mintAuthority)
  {
    var v := c.vaults[vault];
    var _ :- Need(fractionMint == v.fractionMint && fractionTreasury == v.fractionTreasury, AccountMismatch);
    var _ :- Need(vaultAuthority == v.authority, AuthorityMismatch);
    var _ :- Need(mintAuthority == PdaForVault(vault), AuthorityMismatch);
    Need(MintReady(c, fractionMint, fractionTreasury, mintAuthority), AccountMismatch)
  }

  predicate ActivateConditions(c: Chain, a: Instructions.ActivateVaultAccounts) {
    && Initialized(c, a.vault)
    && c.vaults[a.vault].state == Inactive
    && MintAccountsMatch(c, a.vault, a.fractionMint, a.fractionTreasury, a.vaultAuthority, a.fractionMintAuthority)
  }

  /** ActivateVault: takes an Inactive vault to Active and mints exactly
      `numberOfShares` (possibly none) into its fraction treasury. Only the
      vault's state, the treasury balance and the mint's supply change. */
  function ProcessActivateVault(c: Chain, a: Instructions.ActivateVaultAccounts, numberOfShares: nat)
    : (r: Result<Chain, Error>)
    ensures r.Ok? <==> ActivateConditions(c, a)
    ensures Initialized(c, a.vault) && c.vaults[a.vault].state != Inactive ==> r == Err(InvalidState)
    ensures r.Ok? ==>
              var v := c.vaults[a.vault];
              && VaultsFramed(c, r.value, a.vault)
              && r.value.vaults[a.vault] == v.(state := Active)
              && TokensFramed(c, r.value, {v.fractionTreasury}) && MintsFramed(c, r.value, v.fractionMint)
              && r.value.tokens[v.fractionTreasury].amount == c.tokens[v.fractionTreasury].amount + numberOfShares
              && r.value.tokens[v.fractionTreasury]
                 == c.tokens[v.fractionTreasury].(amount := r.value.tokens[v.fractionTreasury].amount)
              && r.value.mints[v.fractionMint].supply == c.mints[v.fractionMint].supply + numberOfShares
              && r.value.mints[v.fractionMint]
                 == c.mints[v.fractionMint].(supply := r.value.mints[v.fractionMint].supply)
              && r.value.prices == c.prices
  {
    var _ :- Need(a.vault in c.vaults, AccountMissing);
    var v := c.vaults[a.vault];
    var _ :- Need(v.key == VaultV1, NotInitialized);
    var _ :- Need(v.state == Inactive, InvalidState);
    var _ :- CheckMintAccounts(c, a.vault, a.fractionMint, a.fractionTreasury, a.vaultAuthority, a.fractionMintAuthority);
    var minted := MintTo(c, v.fractionMint, v.fractionTreasury, a.fractionMintAuthority, numberOfShares).value;
    Ok(minted.(vaults := minted.vaults[a.vault := v.(state := Active)]))
  }

  predicate MintSharesConditions(c: Chain, a: Instructions.MintSharesAccounts) {
    && Initialized(c, a.vault)
    && c.vaults[a.vault].state == Active
    && MintAccountsMatch(c, a.vault, a.fractionMint, a.fractionTreasury, a.vaultAuthority, a.mintAuthority)
  }

  /** MintFractionalShares: on an Active vault, mints `numberOfShares` more
      into the fraction treasury; the vault record itself is untouched. */
  function ProcessMintShares(c: Chain, a: Instructions.MintSharesAccounts, numberOfShares: nat): (r: Result<Chain, Error>)
    ensures r.Ok? <==> MintSharesConditions(c, a)
    ensures Initialized(c, a.vault) && c.vaults[a.vault].state != Active ==> r == Err(InvalidState)
    ensures r.Ok? ==>
              var v := c.vaults[a.vault];
              && r.value.vaults == c.vaults && r.value.prices == c.prices
              && TokensFramed(c, r.value, {v.fractionTreasury}) && MintsFramed(c, r.value, v.fractionMint)
              && r.value.tokens[v.fractionTreasury].amount == c.tokens[v.fractionTreasury].amount + numberOfShares
              && r.value.tokens[v.fractionTreasury]
                 == c.tokens[v.fractionTreasury].(amount := r.value.tokens[v.fractionTreasury].amount)
              && r.value.mints[v.fractionMint].supply == c.mints[v.fractionMint].supply + numberOfShares
              && r.value.mints[v.fractionMint]
                 == c.mints[v.fractionMint].(supply := r.value.mints[v.fractionMint].supply)
  {
    var _ :- Need(a.vault in c.vaults, AccountMissing);
    var v := c.vaults[a.vault];
    var _ :- Need(v.key == VaultV1, NotInitialized);
    var _ :- Need(v.state == Active, InvalidState);
    var _ :- CheckMintAccounts(c, a.vault, a.fractionMint, a.fractionTreasury, a.vaultAuthority, a.mintAuthority);
    MintTo(c, v.fractionMint, v.fractionTreasury, a.mintAuthority, numberOfShares)
  }

  // ---------------------------------------------------------------------
  // AddSharesToTreasury
  // ---------------------------------------------------------------------

  /** The documented conditions (Active vault, a source of the fraction
      mint holding at least the shares) plus the accounts naming the vault's
      treasury and authority, that treasury being an account of the fraction
      mint, and the transfer authority being allowed to move the shares out
      of the source. */
  predicate AddSharesConditions(c: Chain, a: Instructions.AddSharesAccounts, numberOfShares: nat) {
    && Initialized(c, a.vault)
    && var v := c.vaults[a.vault];
    && v.state == Active
    && a.fractionTreasury == v.fractionTreasury
    && a.vaultAuthority == v.authority
    && a.source in c.tokens && a.fractionTreasury in c.tokens
    && c.tokens[a.source].mint == v.fractionMint
    && c.tokens[a.fractionTreasury].mint == v.fractionMint
    && c.tokens[a.source].amount >= numberOfShares
    && MaySpend(c.tokens[a.source], a.transferAuthority, numberOfShares)
  }

  /** AddSharesToTreasury: moves `numberOfShares` from the source into the
      fraction treasury of an Active vault; the vault record is untouched. */
  function ProcessAddShares(c: Chain, a: Instructions.AddSharesAccounts, numberOfShares: nat): (r: Result<Chain, Error>)
    ensures r.Ok? <==> AddSharesConditions(c, a, numberOfShares)
    ensures Initialized(c, a.vault) && c.vaults[a.vault].state != Active ==> r == Err(InvalidState)
    ensures r.Ok? ==> && r.value.vaults == c.vaults && r.value.mints == c.mints && r.value.prices == c.prices
                      && TokensFramed(c, r.value, {a.source, a.fractionTreasury})
    ensures r.Ok? && a.source != a.fractionTreasury ==>
              && r.value.tokens[a.source].amount + numberOfShares == c.tokens[a.source].amount
              && r.value.tokens[a.fractionTreasury].amount == c.tokens[a.fractionTreasury].amount + numberOfShares
  {
    var _ :- Need(a.vault in c.vaults, AccountMissing);
    var v := c.vaults[a.vault];
    var _ :- Need(v.key == VaultV1, NotInitialized);
    var _ :- Need(v.state == Active, InvalidState);
    var _ :- Need(a.fractionTreasury == v.fractionTreasury, AccountMismatch);
    var _ :- Need(a.vaultAuthority == v.authority, AuthorityMismatch);
    var _ :- Need(a.source in c.tokens && a.fractionTreasury in c.tokens, AccountMissing);
    var _ :- Need(c.tokens[a.source].mint == v.fractionMint, MintMismatch);
    var _ :- Need(c.tokens[a.source].amount >= numberOfShares, InsufficientFunds);
    Transfer(c, a.source, a.fractionTreasury, a.transferAuthority, numberOfShares)
  }

  /** Adding shares only moves them: the supply and every vault record stay
      as they are, the source and the treasury together hold what they held
      before, and a source that is the treasury itself leaves the chain
      unchanged. */
  lemma AddSharesMovesShares(c: Chain, a: Instructions.AddSharesAccounts, numberOfShares: nat)
    requires AddSharesConditions(c, a, numberOfShares)
    ensures ProcessAddShares(c, a, numberOfShares).Ok?
    ensures var c' := ProcessAddShares(c, a, numberOfShares).value;
            && c'.mints == c.mints && c'.vaults == c.vaults
            && a.source in c'.tokens && a.fractionTreasury in c'.tokens
            && c'.tokens[a.source].amount + c'.tokens[a.fractionTreasury].amount
               == c.tokens[a.source].amount + c.tokens[a.fractionTreasury].amount
            && (a.source == a.fractionTreasury ==> c' == c)
  {
    TransferConserves(c, a.source, a.fractionTreasury, a.transferAuthority, numberOfShares);
  }

  // ---------------------------------------------------------------------
  // CombineVault
  // ---------------------------------------------------------------------

  /** The documented buyout calculation, step by step. */
  function WhatYouOwe(supply: nat, stored: nat, yours: nat, pricePerShare: nat): int {
    var totalMarketCap := supply * pricePerShare;
    var storedMarketCap := stored * pricePerShare;
    var circulatingMarketCap := totalMarketCap - storedMarketCap;
    var yourShareValue := yours * pricePerShare;
    circulatingMarketCap - yourShareValue
  }

  /** What the caller owes is the price of every share neither in the
      treasury nor already theirs. */
  lemma WhatYouOweIsPriceOfOthersShares(supply: nat, stored: nat, yours: nat, pricePerShare: nat)
    ensures WhatYouOwe(supply, stored, yours, pricePerShare) == (supply - stored - yours) * pricePerShare
  {
    calc {
      WhatYouOwe(supply, stored, yours, pricePerShare);
      (supply * pricePerShare - stored * pricePerShare) - yours * pricePerShare;
      { assert supply * pricePerShare - stored * pricePerShare == (supply - stored) * pricePerShare; }
      (supply - stored) * pricePerShare - yours * pricePerShare;
    }
  }

  /** The amount owed is never negative while the supply covers the
      treasury's and the caller's shares. */
  lemma WhatYouOweNonNegative(supply: nat, stored: nat, yours: nat, pricePerShare: nat)
    requires stored + yours <= supply
    ensures WhatYouOwe(supply, stored, yours, pricePerShare) >= 0
  {
    WhatYouOweIsPriceOfOthersShares(supply, stored, yours, pricePerShare);
  }

  /** The accounts CombineVault reads: all present and of the right mints. */
  predicate CombineAccountsPresent(c: Chain, a: Instructions.CombineVaultAccounts) {
    && a.externalPricing in c.prices
    && a.fractionMint in c.mints
    && a.yourPayment in c.tokens && a.redeemTreasury in c.tokens
    && a.yourOutstandingShares in c.tokens && a.fractionTreasury in c.tokens
  }

  /** `whatYouOwe` for these accounts. */
  function Owed(c: Chain, a: Instructions.CombineVaultAccounts): int
    requires CombineAccountsPresent(c, a)
  {
    WhatYouOwe(c.mints[a.fractionMint].supply, c.tokens[a.fractionTreasury].amount,
               c.tokens[a.yourOutstandingShares].amount, c.prices[a.externalPricing].pricePerShare)
  }

  /** The documented preconditions of CombineVault: an Active vault whose
      own mint, treasuries, pricing account and authority are named, the
      derived burn authority, a pricing account that allows
      combining, payment and redeem treasury of the price mint, outstanding
      shares of the fraction mint, and a payment covering what is owed. */
  predicate CombineConditions(c: Chain, a: Instructions.CombineVaultAccounts) {
    && Initialized(c, a.vault)
    && var v := c.vaults[a.vault];
    && v.state == Active
    && a.fractionMint == v.fractionMint && a.fractionTreasury == v.fractionTreasury
    && a.redeemTreasury == v.redeemTreasury && a.externalPricing == v.pricingLookupAddress
    && a.vaultAuthority == v.authority
    && a.fractionBurnAuthority == PdaForVault(a.vault)
    && CombineAccountsPresent(c, a)
    && var price := c.prices[a.externalPricing];
    && price.allowedToCombine
    && c.tokens[a.yourPayment].mint == price.priceMint
    && c.tokens[a.redeemTreasury].mint == price.priceMint
    && c.tokens[a.yourOutstandingShares].mint == a.fractionMint
    && Owed(c, a) >= 0
    && c.tokens[a.yourPayment].amount >= Owed(c, a)
  }

  /** The Overflow refusal of a negative `whatYouOwe` can only happen when
      the treasury and the caller together hold more shares than the supply. */
  lemma NegativeOweNeedsShortSupply(c: Chain, a: Instructions.CombineVaultAccounts)
    requires CombineAccountsPresent(c, a)
    ensures Owed(c, a) < 0
            ==> c.tokens[a.fractionTreasury].amount + c.tokens[a.yourOutstandingShares].amount
                > c.mints[a.fractionMint].supply
  {
    var supply, stored, yours := c.mints[a.fractionMint].supply, c.tokens[a.fractionTreasury].amount,
                                 c.tokens[a.yourOutstandingShares].amount;
    if stored + yours <= supply {
      WhatYouOweNonNegative(supply, stored, yours, c.prices[a.externalPricing].pricePerShare);
    }
  }

  /** The checks of CombineVault, in order, with the error each one raises. */
  function CheckCombine(c: Chain, a: Instructions.CombineVaultAccounts): (r: Result<(), Error>)
    ensures r.Ok? <==> CombineConditions(c, a)
    ensures Initialized(c, a.vault) && c.vaults[a.vault].state != Active ==> r == Err(InvalidState)
  {
    var _ :- Need(a.vault in c.vaults, AccountMissing);
    var v := c.vaults[a.vault];
    var _ :- Need(v.key == VaultV1, NotInitialized);
    var _ :- Need(v.state == Active, InvalidState);
    var _ :- Need(&& a.fractionMint == v.fractionMint && a.fractionTreasury == v.fractionTreasury
                  && a.redeemTreasury == v.redeemTreasury && a.externalPricing == v.pricingLookupAddress,
                  AccountMismatch);
    var _ :- Need(a.vaultAuthority == v.authority, AuthorityMismatch);
    var _ :- Need(a.fractionBurnAuthority == PdaForVault(a.vault), AuthorityMismatch);
    var _ :- Need(CombineAccountsPresent(c, a), AccountMissing);
    var price := c.prices[a.externalPricing];
    var _ :- Need(price.allowedToCombine, NotAllowedToCombine);
    var _ :- Need(&& c.tokens[a.yourPayment].mint == price.priceMint
                  && c.tokens[a.redeemTreasury].mint == price.priceMint
                  && c.tokens[a.yourOutstandingShares].mint == a.fractionMint,
                  MintMismatch);
    var _ :- Need(Owed(c, a) >= 0, Overflow);
    Need(c.tokens[a.yourPayment].amount >= Owed(c, a), InsufficientFunds)
  }

  /** The settlement steps of a combine whose conditions hold: pay what is
      owed into the redeem treasury, burn the caller's outstanding shares
      with the transfer authority and the treasury's shares with the burn
      authority, then hand the vault over. */
  function Settle(c: Chain, a: Instructions.CombineVaultAccounts): (r: Result<Chain, Error>)
    requires CombineConditions(c, a)
    ensures r.Ok? ==>
              && VaultsFramed(c, r.value, a.vault)
              && r.value.vaults[a.vault]
                 == c.vaults[a.vault].(state := Combined, authority := a.newVaultAuthority,
                                       lockedPricePerShare := c.prices[a.externalPricing].pricePerShare)
              && r.value.prices == c.prices
  {
    var v := c.vaults[a.vault];
    var outstanding := c.tokens[a.yourOutstandingShares].amount;
    var stored := c.tokens[a.fractionTreasury].amount;
    var paid :- Transfer(c, a.yourPayment, a.redeemTreasury, a.transferAuthority, Owed(c, a) as nat);
    var burnedYours :- Burn(paid, a.yourOutstandingShares, a.fractionMint, a.transferAuthority, outstanding);
    var burnedStored :- Burn(burnedYours, a.fractionTreasury, a.fractionMint, a.fractionBurnAuthority, stored);
    var combined := v.(state := Combined, authority := a.newVaultAuthority,
                       lockedPricePerShare := c.prices[a.externalPricing].pricePerShare);
    Ok(burnedStored.(vaults := burnedStored.vaults[a.vault := combined]))
  }

  /** CombineVault: only under the documented conditions, and then the
      vault goes to the new authority in state Combined with the price
      locked; a vault that is not Active is refused with InvalidState. */
  function ProcessCombine(c: Chain, a: Instructions.CombineVaultAccounts): (r: Result<Chain, Error>)
    ensures r.Ok? ==> CombineConditions(c, a)
    ensures Initialized(c, a.vault) && c.vaults[a.vault].state != Active ==> r == Err(InvalidState)
    ensures r.Ok? ==>
              && VaultsFramed(c, r.value, a.vault)
              && r.value.vaults[a.vault]
                 == c.vaults[a.vault].(state := Combined, authority := a.newVaultAuthority,
                                       lockedPricePerShare := c.prices[a.externalPricing].pricePerShare)
              && r.value.prices == c.prices
  {
    var _ :- CheckCombine(c, a);
    Settle(c, a)
  }

  /** The four token accounts a combine touches are distinct. */
  predicate SettlementAccountsDistinct(a: Instructions.CombineVaultAccounts) {
    && a.yourPayment != a.redeemTreasury
    && a.yourPayment != a.yourOutstandingShares
    && a.yourPayment != a.fractionTreasury
    && a.redeemTreasury != a.yourOutstandingShares
    && a.redeemTreasury != a.fractionTreasury
    && a.yourOutstandingShares != a.fractionTreasury
  }

  /** What the token program needs for the settlement of a combine whose
      conditions hold: the treasury holds fraction shares (as InitVault
      ensured), the transfer authority may move what is owed out of the
      payment and burn the caller's shares, the burn authority may burn the
      treasury's, and the supply covers both burns. */
  predicate SettleConditions(c: Chain, a: Instructions.CombineVaultAccounts)
    requires CombineConditions(c, a)
  {
    var outstanding := c.tokens[a.yourOutstandingShares].amount;
    var stored := c.tokens[a.fractionTreasury].amount;
    && c.tokens[a.fractionTreasury].mint == a.fractionMint
    && MaySpend(c.tokens[a.yourPayment], a.transferAuthority, Owed(c, a) as nat)
    && MaySpend(c.tokens[a.yourOutstandingShares], a.transferAuthority, outstanding)
    && MaySpend(c.tokens[a.fractionTreasury], a.fractionBurnAuthority, stored)
    && outstanding + stored <= c.mints[a.fractionMint].supply
  }

  /** The settlement of a successful combine over distinct accounts: the
      payment is debited and the redeem treasury credited with what is owed,
      so their total is conserved; the caller's outstanding shares and the
      treasury's shares are all burnt and the supply drops by both; no other
      token account changes. */
  lemma CombineSettlement(c: Chain, a: Instructions.CombineVaultAccounts)
    requires CombineConditions(c, a)
    requires SettlementAccountsDistinct(a)
    ensures ProcessCombine(c, a).Ok? ==>
              var c' := ProcessCombine(c, a).value;
              && c'.tokens.Keys == c.tokens.Keys
              && c'.tokens[a.yourPayment].amount == c.tokens[a.yourPayment].amount - Owed(c, a)
              && c'.tokens[a.redeemTreasury].amount == c.tokens[a.redeemTreasury].amount + Owed(c, a)
              && c'.tokens[a.yourPayment].amount + c'.tokens[a.redeemTreasury].amount
                 == c.tokens[a.yourPayment].amount + c.tokens[a.redeemTreasury].amount
              && c'.tokens[a.yourOutstandingShares].amount == 0
              && c'.tokens[a.fractionTreasury].amount == 0
              && c'.mints[a.fractionMint].supply
                 == c.mints[a.fractionMint].supply - c.tokens[a.yourOutstandingShares].amount
                    - c.tokens[a.fractionTreasury].amount
              && TokensFramed(c, c', {a.yourPayment, a.redeemTreasury, a.yourOutstandingShares, a.fractionTreasury})
  {
    if ProcessCombine(c, a).Ok? {
      var owed := Owed(c, a);
      var outstanding := c.tokens[a.yourOutstandingShares].amount;
      var stored := c.tokens[a.fractionTreasury].amount;
      var paid := Transfer(c, a.yourPayment, a.redeemTreasury, a.transferAuthority, owed as nat);
      assert paid.Ok?;
      var burnedYours := Burn(paid.value, a.yourOutstandingShares, a.fractionMint, a.transferAuthority, outstanding);
      assert burnedYours.Ok?;
      var burnedStored := Burn(burnedYours.value, a.fractionTreasury, a.fractionMint, a.fractionBurnAuthority, stored);
      assert burnedStored.Ok?;
      assert ProcessCombine(c, a) == Settle(c, a);
      assert Settle(c, a).value.tokens == burnedStored.value.tokens;
      assert Settle(c, a).value.mints == burnedStored.value.mints;
    }
  }

  /** Over distinct accounts, a combine whose documented conditions hold
      succeeds exactly when the token program accepts its settlement. */
  lemma CombineSucceeds(c: Chain, a: Instructions.CombineVaultAccounts)
    requires CombineConditions(c, a)
    requires SettlementAccountsDistinct(a)
    ensures ProcessCombine(c, a).Ok? <==> SettleConditions(c, a)
  {
    var owed := Owed(c, a);
    var outstanding := c.tokens[a.yourOutstandingShares].amount;
    var stored := c.tokens[a.fractionTreasury].amount;
    assert ProcessCombine(c, a) == Settle(c, a);
    var paid := Transfer(c, a.yourPayment, a.redeemTreasury, a.transferAuthority, owed as nat);
    if paid.Ok? {
      assert paid.value.tokens[a.yourOutstandingShares] == c.tokens[a.yourOutstandingShares];
      assert paid.value.tokens[a.fractionTreasury] == c.tokens[a.fractionTreasury];
      var burnedYours := Burn(paid.value, a.yourOutstandingShares, a.fractionMint, a.transferAuthority, outstanding);
      if burnedYours.Ok? {
        assert burnedYours.value.tokens[a.fractionTreasury] == c.tokens[a.fractionTreasury];
        assert burnedYours.value.mints[a.fractionMint].supply == c.mints[a.fractionMint].supply - outstanding;
      }
    }
  }
}
