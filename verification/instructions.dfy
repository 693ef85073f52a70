/** The instructions the client emits, with the account records of the
    vault program's generated instruction builders. The byte layouts of the
    instructions are not modelled: an instruction is the value it carries. */
module Instructions {
  import opened Keys

  /** Accounts of the InitVault instruction. */
  datatype InitVaultAccounts = InitVaultAccounts(
    fractionMint: Key,
    redeemTreasury: Key,
    fractionTreasury: Key,
    vault: Key,
    authority: Key,
    pricingLookupAddress: Key)

  /** Accounts of the ActivateVault instruction. */
  datatype ActivateVaultAccounts = ActivateVaultAccounts(
    vault: Key,
    fractionMint: Key,
    fractionTreasury: Key,
    fractionMintAuthority: Key,
    vaultAuthority: Key)

  /** Accounts of the MintFractionalShares instruction. */
  datatype MintSharesAccounts = MintSharesAccounts(
    fractionTreasury: Key,
    fractionMint: Key,
    vault: Key,
    vaultAuthority: Key,
    mintAuthority: Key)

  /** Accounts of the AddSharesToTreasury instruction. */
  datatype AddSharesAccounts = AddSharesAccounts(
    source: Key,
    fractionTreasury: Key,
    vault: Key,
    transferAuthority: Key,
    vaultAuthority: Key)

  /** Accounts of the CombineVault instruction. */
  datatype CombineVaultAccounts = CombineVaultAccounts(
    vault: Key,
    vaultAuthority: Key,
    newVaultAuthority: Key,
    fractionMint: Key,
    fractionTreasury: Key,
    redeemTreasury: Key,
    yourOutstandingShares: Key,
    yourPayment: Key,
    transferAuthority: Key,
    fractionBurnAuthority: Key,
    externalPricing: Key)

  datatype Instruction =
      /** Allocate and initialize a mint (the `createMint` helper). */
    | CreateMint(payer: Key, mint: Key, lamports: nat, decimals: nat,
                 mintAuthority: Key, freezeAuthority: Key)
      /** Allocate and initialize a token account (the `createTokenAccount` helper). */
    | CreateTokenAccount(payer: Key, account: Key, lamports: nat, mint: Key, owner: Key)
      /** Allocate a zero-filled account owned by the vault program. */
    | CreateVaultAccount(payer: Key, vault: Key, lamports: nat, space: nat)
      /** Token program Approve: `owner` lets `delegate` move `amount` out of `account`. */
    | Approve(account: Key, delegate: Key, owner: Key, amount: nat)
      /** The `approveTokenTransfer` helper's instruction, as called. */
    | ApproveTokenTransfer(owner: Key, tokenAccount: Key, delegate: Key, amount: nat)
      /** Token program MintTo (the `mintTokens` helper). */
    | MintTo(mint: Key, destination: Key, authority: Key, amount: nat)
    | InitVault(initAccounts: InitVaultAccounts, allowFurtherShareCreation: bool)
    | ActivateVault(activateAccounts: ActivateVaultAccounts, numberOfShares: nat)
    | MintFractionalShares(mintAccounts: MintSharesAccounts, numberOfShares: nat)
    | AddSharesToTreasury(addSharesAccounts: AddSharesAccounts, numberOfShares: nat)
    | CombineVault(combineAccounts: CombineVaultAccounts)

  /** Instructions to submit together with the keypairs that must sign them. */
  datatype Batch = Batch(instructions: seq<Instruction>, signers: seq<Keypair>)

  /** What the `createTokenAccount` helper returns: its instructions, its
      signers and the new account's key. */
  datatype Created = Created(instructions: seq<Instruction>, signers: seq<Keypair>, account: Key)

  /** The `createMint` helper: the new mint's keypair is its only signer. */
  function CreateMintHelper(payer: Key, lamports: nat, decimals: nat, mintAuthority: Key,
                            freezeAuthority: Key, mintPair: Keypair): Created
  {
    Created([CreateMint(payer, mintPair.PublicKey(), lamports, decimals, mintAuthority, freezeAuthority)],
            [mintPair], mintPair.PublicKey())
  }

  /** The `createTokenAccount` helper: the new account's keypair is its only signer. */
  function CreateTokenAccountHelper(payer: Key, lamports: nat, mint: Key, owner: Key,
                                    accountPair: Keypair): Created
  {
    Created([CreateTokenAccount(payer, accountPair.PublicKey(), lamports, mint, owner)],
            [accountPair], accountPair.PublicKey())
  }
}
