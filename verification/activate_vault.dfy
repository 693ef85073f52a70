/** Client-side construction of the ActivateVault instruction. */
module ActivateVaultClient {
  import opened Wrappers
  import opened Keys
  import opened Instructions

  /** ActivateVault's accounts with the fraction mint authority optional. */
  datatype ActivateArgs = ActivateArgs(
    vault: Key,
    fractionMint: Key,
    fractionTreasury: Key,
    fractionMintAuthority: Option<Key>,
    vaultAuthority: Key)

  /** `activateVault`: a missing fraction mint authority is derived from
      the `vault` argument, a supplied one is kept; every other account and
      the share count are forwarded unchanged. */
  function ActivateVaultInstruction(vault: Key, accounts: ActivateArgs, numberOfShares: nat): (ix: Instruction)
    ensures ix.ActivateVault? && ix.numberOfShares == numberOfShares
    ensures accounts.fractionMintAuthority.None? ==>
              ix.activateAccounts.fractionMintAuthority == PdaForVault(vault)
    ensures accounts.fractionMintAuthority.Some? ==>
              ix.activateAccounts.fractionMintAuthority == accounts.fractionMintAuthority.value
    ensures ix.activateAccounts.vault == accounts.vault
    ensures ix.activateAccounts.fractionMint == accounts.fractionMint
    ensures ix.activateAccounts.fractionTreasury == accounts.fractionTreasury
    ensures ix.activateAccounts.vaultAuthority == accounts.vaultAuthority
  {
    var fractionMintAuthority := match accounts.fractionMintAuthority
      case Some(authority) => authority
      case None => PdaForVault(vault);
    ActivateVault(
      ActivateVaultAccounts(accounts.vault, accounts.fractionMint, accounts.fractionTreasury,
                            fractionMintAuthority, accounts.vaultAuthority),
      numberOfShares)
  }
}
