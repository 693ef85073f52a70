/** Client-side wiring of the accounts a vault needs before InitVault. */
module InitVaultClient {
  import opened Wrappers
  import opened Keys
  import opened Instructions

  datatype SetupArgs = SetupArgs(payer: Key, vaultAuthority: Key, priceMint: Key, externalPriceAccount: Key)

  /** Answers of the rent-exemption queries and the vault record's size,
      which the client fetches over RPC; here they are inputs. */
  datatype Rent = Rent(tokenAccount: nat, mint: nat, vault: nat, vaultByteSize: nat)

  /** Freshly generated keypairs, supplied by the caller. */
  datatype FreshPairs = FreshPairs(vault: Keypair, fractionMint: Keypair,
                                   redeemTreasury: Keypair, fractionTreasury: Keypair)

  /** Setup instructions, their signers, and the InitVault accounts plus the vault keypair. */
  datatype InitVaultSetup = InitVaultSetup(instructions: seq<Instruction>, signers: seq<Keypair>,
                                           accounts: InitVaultAccounts, vaultPair: Keypair)

  /** The account an account-creating instruction brings into existence. */
  function CreatedKey(ix: Instruction): Option<Key> {
    match ix
    case CreateMint(_, mint, _, _, _, _) => Some(mint)
    case CreateTokenAccount(_, account, _, _, _) => Some(account)
    case CreateVaultAccount(_, vault, _, _) => Some(vault)
    case _ => None
  }

  /** `InitVault.setupInitVaultAccounts`: a fraction mint with no decimals
      whose mint and freeze authority are the vault's derived authority, a
      redeem treasury of the price mint and a fraction treasury of the
      fraction mint both owned by that authority, and the uninitialized vault
      account, in this order; each instruction is signed by the keypair of
      the account it creates, the vault keypair last. */
  function SetupInitVaultAccounts(args: SetupArgs, rent: Rent, pairs: FreshPairs): (r: InitVaultSetup)
    ensures |r.instructions| == 4 && |r.signers| == 4
    ensures forall i :: 0 <= i < 4 ==> CreatedKey(r.instructions[i]) == Some(r.signers[i].PublicKey())
    ensures r.signers[3] == r.vaultPair && r.accounts.vault == r.vaultPair.PublicKey()
    ensures r.instructions[0] == CreateMint(args.payer, r.accounts.fractionMint, rent.mint, 0,
                                            PdaForVault(r.accounts.vault), PdaForVault(r.accounts.vault))
    ensures r.instructions[1] == CreateTokenAccount(args.payer, r.accounts.redeemTreasury, rent.tokenAccount,
                                                    args.priceMint, PdaForVault(r.accounts.vault))
    ensures r.instructions[2] == CreateTokenAccount(args.payer, r.accounts.fractionTreasury, rent.tokenAccount,
                                                    r.accounts.fractionMint, PdaForVault(r.accounts.vault))
    ensures r.instructions[3] == CreateVaultAccount(args.payer, r.accounts.vault, rent.vault, rent.vaultByteSize)
    ensures r.accounts.authority == args.vaultAuthority
    ensures r.accounts.pricingLookupAddress == args.externalPriceAccount
  {
    var vaultPda := PdaForVault(pairs.vault.PublicKey());
    var fractionMint := CreateMintHelper(args.payer, rent.mint, 0, vaultPda, vaultPda, pairs.fractionMint);
    var redeemTreasury := CreateTokenAccountHelper(args.payer, rent.tokenAccount, args.priceMint, vaultPda,
                                                   pairs.redeemTreasury);
    var fractionTreasury := CreateTokenAccountHelper(args.payer, rent.tokenAccount, fractionMint.account, vaultPda,
                                                     pairs.fractionTreasury);
    var uninitializedVault := CreateVaultAccount(args.payer, pairs.vault.PublicKey(), rent.vault, rent.vaultByteSize);
    InitVaultSetup(
      fractionMint.instructions + redeemTreasury.instructions + fractionTreasury.instructions + [uninitializedVault],
      fractionMint.signers + redeemTreasury.signers + fractionTreasury.signers + [pairs.vault],
      InitVaultAccounts(
        fractionMint := fractionMint.account,
        redeemTreasury := redeemTreasury.account,
        fractionTreasury := fractionTreasury.account,
        vault := pairs.vault.PublicKey(),
        authority := args.vaultAuthority,
        pricingLookupAddress := args.externalPriceAccount),
      pairs.vault)
  }

  /** `InitVault.initVault`: forwards the accounts and the share-creation flag. */
  function InitVaultInstruction(accounts: InitVaultAccounts, allowFurtherShareCreation: bool): (r: Instruction)
    ensures r.InitVault? && r.initAccounts == accounts && r.allowFurtherShareCreation == allowFurtherShareCreation
  {
    InitVault(accounts, allowFurtherShareCreation)
  }
}
