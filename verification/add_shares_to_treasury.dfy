/** The builder for the AddSharesToTreasury instruction: a source account
    of fraction shares, an optional mint into it, and a transfer approval. */
module AddSharesClient {
  import opened Wrappers
  import opened Keys
  import opened Instructions

  datatype CreateArgs = CreateArgs(
    payer: Key,
    vault: Key,
    vaultAuthority: Key,
    fractionTreasury: Key,
    fractionMint: Key,
    numberOfShares: nat,
    source: Option<Key>,
    transferAuthority: Option<Key>,
    transferAuthorityPair: Option<Keypair>)

  datatype AddSharesSetup = AddSharesSetup(
    instructions: seq<Instruction>,
    signers: seq<Keypair>,
    payer: Key,
    vault: Key,
    fractionTreasury: Key,
    fractionMint: Key,
    numberOfShares: nat,
    source: Option<Key>,
    transferAuthority: Option<Key>,
    transferAuthorityPair: Option<Keypair>)
  {
    /** The accounts fixed when the setup was created. */
    predicate SameConfig(other: AddSharesSetup) {
      && payer == other.payer
      && vault == other.vault
      && fractionTreasury == other.fractionTreasury
      && fractionMint == other.fractionMint
      && numberOfShares == other.numberOfShares
    }
  }

  const SourceAlreadyProvided := "source was already provided"
  const InitSourceFirst := "init source first via initSourceAccount"
  const MintHasNoAuthority := "fractionMint should have mint authority"
  const MintAuthorityMismatch := "fractionMint mint authority should match mint authority derived from vault PDA"
  const TransferAuthorityProvided := "transferAuthority was already provided"
  const TransferAuthorityPairProvided := "transferAuthorityPair was already provided"
  const InitTransferAuthorityFirst := "init transferAuthority first via approveTransfer"
  const InitTransferAuthorityPairFirst := "init transferAuthorityPair first via approveTransfer"

  /** `create`: the optional source and transfer authority are taken as
      given; the vault authority argument is not kept. */
  function Create(args: CreateArgs): (s: AddSharesSetup)
    ensures s.instructions == [] && s.signers == []
    ensures s.payer == args.payer && s.vault == args.vault
    ensures s.fractionTreasury == args.fractionTreasury && s.fractionMint == args.fractionMint
    ensures s.numberOfShares == args.numberOfShares
    ensures s.source == args.source
    ensures s.transferAuthority == args.transferAuthority && s.transferAuthorityPair == args.transferAuthorityPair
  {
    AddSharesSetup([], [], args.payer, args.vault, args.fractionTreasury, args.fractionMint,
                   args.numberOfShares, args.source, args.transferAuthority, args.transferAuthorityPair)
  }

  /** `initSourceAccount`: records the source once; an absent argument
      leaves the source unset. No instruction is added. */
  function InitSourceAccount(s: AddSharesSetup, source: Option<Key>): (r: Result<AddSharesSetup, string>)
    ensures r.Err? <==> s.source.Some?
    ensures r.Err? ==> r.error == SourceAlreadyProvided
    ensures r.Ok? ==> && r.value.source == source
                      && r.value.instructions == s.instructions && r.value.signers == s.signers
                      && r.value.SameConfig(s)
                      && r.value.transferAuthority == s.transferAuthority
                      && r.value.transferAuthorityPair == s.transferAuthorityPair
  {
    if s.source.Some? then Err(SourceAlreadyProvided)
    else Ok(s.(source := source))
  }

  /** `mintSharesToSource`, given the fraction mint's authority as fetched:
      needs a source and a mint whose authority is the vault's derived
      authority, then mints the setup's share count into the source. */
  function MintSharesToSource(s: AddSharesSetup, fetchedMintAuthority: Option<Key>)
    : (r: Result<AddSharesSetup, string>)
    ensures r.Ok? <==> s.source.Some? && fetchedMintAuthority == Some(PdaForVault(s.vault))
    ensures s.source.None? ==> r == Err(InitSourceFirst)
    ensures s.source.Some? && fetchedMintAuthority.None? ==> r == Err(MintHasNoAuthority)
    ensures s.source.Some? && fetchedMintAuthority.Some? && fetchedMintAuthority.value != PdaForVault(s.vault) ==>
              r == Err(MintAuthorityMismatch)
    ensures r.Ok? ==> && r.value.instructions == s.instructions
                           + [MintTo(s.fractionMint, s.source.value, PdaForVault(s.vault), s.numberOfShares)]
                      && r.value.signers == s.signers
                      && r.value.SameConfig(s) && r.value.source == s.source
                      && r.value.transferAuthority == s.transferAuthority
                      && r.value.transferAuthorityPair == s.transferAuthorityPair
  {
    if s.source.None? then Err(InitSourceFirst)
    else
      var mintAuthority := PdaForVault(s.vault);
      if fetchedMintAuthority.None? then Err(MintHasNoAuthority)
      else if fetchedMintAuthority.value != mintAuthority then Err(MintAuthorityMismatch)
      else Ok(s.(instructions := s.instructions + [MintTo(s.fractionMint, s.source.value, mintAuthority, s.numberOfShares)]))
  }

  /** `approveTransfer`: needs a source and no transfer authority yet (from
      `create` or an earlier approval); the fresh transfer authority is then
      recorded and added to the signers. */
  function ApproveTransfer(s: AddSharesSetup, transferPair: Keypair): (r: Result<AddSharesSetup, string>)
    ensures r.Ok? <==> s.source.Some? && s.transferAuthority.None? && s.transferAuthorityPair.None?
    ensures s.source.None? ==> r == Err(InitSourceFirst)
    ensures s.source.Some? && s.transferAuthority.Some? ==> r == Err(TransferAuthorityProvided)
    ensures s.source.Some? && s.transferAuthority.None? && s.transferAuthorityPair.Some? ==>
              r == Err(TransferAuthorityPairProvided)
    ensures r.Ok? ==> && r.value.instructions == s.instructions
                           + [ApproveTokenTransfer(s.source.value, s.fractionTreasury,
                                                   transferPair.PublicKey(), s.numberOfShares)]
                      && r.value.signers == s.signers + [transferPair]
                      && r.value.transferAuthority == Some(transferPair.PublicKey())
                      && r.value.transferAuthorityPair == Some(transferPair)
                      && r.value.SameConfig(s) && r.value.source == s.source
  {
    if s.source.None? then Err(InitSourceFirst)
    else if s.transferAuthority.Some? then Err(TransferAuthorityProvided)
    else if s.transferAuthorityPair.Some? then Err(TransferAuthorityPairProvided)
    else
      var approval := ApproveTokenTransfer(s.source.value, s.fractionTreasury, transferPair.PublicKey(), s.numberOfShares);
      Ok(s.(instructions := s.instructions + [approval],
            signers := s.signers + [transferPair],
            transferAuthority := Some(transferPair.PublicKey()),
            transferAuthorityPair := Some(transferPair)))
  }

  /** `addSharesToTreasury`: needs source, transfer authority and its
      keypair; yields the one AddSharesToTreasury instruction and no signers. */
  function AddSharesToTreasuryBatch(s: AddSharesSetup, vaultAuthority: Key): (r: Result<Batch, string>)
    ensures r.Ok? <==> s.source.Some? && s.transferAuthority.Some? && s.transferAuthorityPair.Some?
    ensures s.source.None? ==> r == Err(InitSourceFirst)
    ensures s.source.Some? && s.transferAuthority.None? ==> r == Err(InitTransferAuthorityFirst)
    ensures s.source.Some? && s.transferAuthority.Some? && s.transferAuthorityPair.None? ==>
              r == Err(InitTransferAuthorityPairFirst)
    ensures r.Ok? ==> && r.value.signers == []
                      && |r.value.instructions| == 1
                      && r.value.instructions[0].AddSharesToTreasury?
                      && r.value.instructions[0].numberOfShares == s.numberOfShares
                      && r.value.instructions[0].addSharesAccounts
                           == AddSharesAccounts(s.source.value, s.fractionTreasury, s.vault,
                                                s.transferAuthority.value, vaultAuthority)
  {
    if s.source.None? then Err(InitSourceFirst)
    else if s.transferAuthority.None? then Err(InitTransferAuthorityFirst)
    else if s.transferAuthorityPair.None? then Err(InitTransferAuthorityPairFirst)
    else
      var accounts := AddSharesAccounts(
        source := s.source.value,
        fractionTreasury := s.fractionTreasury,
        vault := s.vault,
        transferAuthority := s.transferAuthority.value,
        vaultAuthority := vaultAuthority);
      Ok(Batch([AddSharesToTreasury(accounts, s.numberOfShares)], []))
  }

  /** With a source supplied, the builder chain init source, mint, approve
      produces a mint of the share count into the source followed by the
      approval, signed by the transfer authority alone, and the final
      instruction moves exactly that share count from the source. */
  lemma {:induction false} BuilderChain(args: CreateArgs, source: Key, transferPair: Keypair, vaultAuthority: Key)
    requires args.source.None? && args.transferAuthority.None? && args.transferAuthorityPair.None?
    ensures var s1 := InitSourceAccount(Create(args), Some(source));
            s1.Ok? &&
            var s2 := MintSharesToSource(s1.value, Some(PdaForVault(args.vault)));
            s2.Ok? &&
            var s3 := ApproveTransfer(s2.value, transferPair);
            && s3.Ok?
            && s3.value.instructions == [
                 MintTo(args.fractionMint, source, PdaForVault(args.vault), args.numberOfShares),
                 ApproveTokenTransfer(source, args.fractionTreasury, transferPair.PublicKey(), args.numberOfShares)]
            && s3.value.signers == [transferPair]
            && AddSharesToTreasuryBatch(s3.value, vaultAuthority)
               == Ok(Batch([AddSharesToTreasury(AddSharesAccounts(source, args.fractionTreasury, args.vault,
                                                                  transferPair.PublicKey(), vaultAuthority),
                                                args.numberOfShares)], []))
  {
    var s1 := InitSourceAccount(Create(args), Some(source));
    var s2 := MintSharesToSource(s1.value, Some(PdaForVault(args.vault)));
    assert s2.value.instructions == [MintTo(args.fractionMint, source, PdaForVault(args.vault), args.numberOfShares)];
  }

  /** Calling `initSourceAccount` without an account, as the add-shares test
      does, leaves the source unset, so the following mint step is refused. */
  lemma InitSourceWithoutAccountBlocksMint(args: CreateArgs, fetchedMintAuthority: Option<Key>)
    requires args.source.None?
    ensures InitSourceAccount(Create(args), None).Ok?
    ensures MintSharesToSource(InitSourceAccount(Create(args), None).value, fetchedMintAuthority)
            == Err(InitSourceFirst)
  {
  }
}
