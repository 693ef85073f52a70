/** The staged builder that collects the accounts of the CombineVault
    instruction. Each step is a transition of an immutable setup record;
    a step whose guard fails yields the source's assertion message and the
    caller keeps the setup it had. */
module CombineVaultClient {
  import opened Wrappers
  import opened Keys
  import opened Instructions

  datatype CreateArgs = CreateArgs(
    vault: Key,
    vaultAuthority: Key,
    newVaultAuthority: Option<Key>,
    fractionMint: Key,
    fractionTreasury: Key,
    redeemTreasury: Key,
    priceMint: Key,
    externalPricing: Key)

  datatype CombineVaultSetup = CombineVaultSetup(
    instructions: seq<Instruction>,
    signers: seq<Keypair>,
    yourOutstandingShares: Option<Key>,
    yourOutstandingSharesPair: Option<Keypair>,
    yourPayment: Option<Key>,
    yourPaymentPair: Option<Keypair>,
    transferAuthority: Option<Key>,
    transferAuthorityPair: Option<Keypair>,
    vault: Key,
    vaultAuthority: Key,
    newVaultAuthority: Key,
    fractionMint: Key,
    fractionTreasury: Key,
    redeemTreasury: Key,
    priceMint: Key,
    externalPricing: Key,
    fractionBurnAuthority: Key)
  {
    predicate HasOutstandingShares() {
      yourOutstandingShares.Some?
    }

    predicate HasPayment() {
      yourPayment.Some?
    }

    predicate HasTransferAuthority() {
      transferAuthority.Some? && transferAuthorityPair.Some?
    }

    predicate Complete() {
      HasOutstandingShares() && HasPayment() && HasTransferAuthority()
    }

    /** The read-only accounts fixed when the setup was created. */
    predicate SameConfig(other: CombineVaultSetup) {
      && vault == other.vault
      && vaultAuthority == other.vaultAuthority
      && newVaultAuthority == other.newVaultAuthority
      && fractionMint == other.fractionMint
      && fractionTreasury == other.fractionTreasury
      && redeemTreasury == other.redeemTreasury
      && priceMint == other.priceMint
      && externalPricing == other.externalPricing
      && fractionBurnAuthority == other.fractionBurnAuthority
    }

    predicate SameOutstandingShares(other: CombineVaultSetup) {
      yourOutstandingShares == other.yourOutstandingShares
      && yourOutstandingSharesPair == other.yourOutstandingSharesPair
    }

    predicate SamePayment(other: CombineVaultSetup) {
      yourPayment == other.yourPayment && yourPaymentPair == other.yourPaymentPair
    }

    predicate SameTransferAuthority(other: CombineVaultSetup) {
      transferAuthority == other.transferAuthority && transferAuthorityPair == other.transferAuthorityPair
    }
  }

  const OutstandingSharesTwice := "cannot provide/create outstanding shares twice"
  const PaymentTwice := "cannot provide/create payment twice"
  const NeedOutstandingSharesFirst := "need to provide or create outstandingShares first"
  const NeedPaymentFirst := "need to provide or create payment first"
  const ApproveTwice := "cannot approve twice"
  const NeedOutstandingShares := "need to provide or create outstandingShares"
  const NeedPayment := "need to provide or create payment"
  const NeedTransferAuthority := "need to approve transfer or add transferAuthority"

  /** Step 1, `create`: the new vault authority defaults to the current one
      and the burn authority is the vault's derived authority. */
  function Create(args: CreateArgs): (s: CombineVaultSetup)
    ensures args.newVaultAuthority.None? ==> s.newVaultAuthority == args.vaultAuthority
    ensures args.newVaultAuthority.Some? ==> s.newVaultAuthority == args.newVaultAuthority.value
    ensures s.fractionBurnAuthority == PdaForVault(args.vault)
    ensures s.vault == args.vault && s.vaultAuthority == args.vaultAuthority
    ensures s.fractionMint == args.fractionMint && s.fractionTreasury == args.fractionTreasury
    ensures s.redeemTreasury == args.redeemTreasury && s.priceMint == args.priceMint
    ensures s.externalPricing == args.externalPricing
    ensures s.instructions == [] && s.signers == []
    ensures !s.HasOutstandingShares() && !s.HasPayment() && !s.HasTransferAuthority()
  {
    var newVaultAuthority := match args.newVaultAuthority
      case Some(authority) => authority
      case None => args.vaultAuthority;
    CombineVaultSetup(
      instructions := [], signers := [],
      yourOutstandingShares := None, yourOutstandingSharesPair := None,
      yourPayment := None, yourPaymentPair := None,
      transferAuthority := None, transferAuthorityPair := None,
      vault := args.vault,
      vaultAuthority := args.vaultAuthority,
      newVaultAuthority := newVaultAuthority,
      fractionMint := args.fractionMint,
      fractionTreasury := args.fractionTreasury,
      redeemTreasury := args.redeemTreasury,
      priceMint := args.priceMint,
      externalPricing := args.externalPricing,
      fractionBurnAuthority := PdaForVault(args.vault))
  }

  /** Step 2, `createOutstandingShares`: at most once, creates a token
      account of the fraction mint owned by the payer. */
  function CreateOutstandingShares(s: CombineVaultSetup, payer: Key, rentExempt: nat, accountPair: Keypair)
    : (r: Result<CombineVaultSetup, string>)
    ensures r.Err? <==> s.HasOutstandingShares()
    ensures r.Err? ==> r.error == OutstandingSharesTwice
    ensures r.Ok? ==> && r.value.yourOutstandingShares == Some(accountPair.PublicKey())
                      && r.value.yourOutstandingSharesPair == Some(accountPair)
                      && r.value.instructions == s.instructions
                           + [CreateTokenAccount(payer, accountPair.PublicKey(), rentExempt, s.fractionMint, payer)]
                      && r.value.signers == s.signers + [accountPair]
                      && r.value.SameConfig(s) && r.value.SamePayment(s) && r.value.SameTransferAuthority(s)
  {
    if s.HasOutstandingShares() then
      Err(OutstandingSharesTwice)
    else
      var created := CreateTokenAccountHelper(payer, rentExempt, s.fractionMint, payer, accountPair);
      Ok(s.(instructions := s.instructions + created.instructions,
            signers := s.signers + created.signers,
            yourOutstandingShares := Some(created.account),
            yourOutstandingSharesPair := Some(accountPair)))
  }

  /** Step 3, `createPayment`: at most once, creates a token account of the
      price mint owned by the payer. */
  function CreatePayment(s: CombineVaultSetup, payer: Key, rentExempt: nat, accountPair: Keypair)
    : (r: Result<CombineVaultSetup, string>)
    ensures r.Err? <==> s.HasPayment()
    ensures r.Err? ==> r.error == PaymentTwice
    ensures r.Ok? ==> && r.value.yourPayment == Some(accountPair.PublicKey())
                      && r.value.yourPaymentPair == Some(accountPair)
                      && r.value.instructions == s.instructions
                           + [CreateTokenAccount(payer, accountPair.PublicKey(), rentExempt, s.priceMint, payer)]
                      && r.value.signers == s.signers + [accountPair]
                      && r.value.SameConfig(s) && r.value.SameOutstandingShares(s)
                      && r.value.SameTransferAuthority(s)
  {
    if s.HasPayment() then
      Err(PaymentTwice)
    else
      var created := CreateTokenAccountHelper(payer, rentExempt, s.priceMint, payer, accountPair);
      Ok(s.(instructions := s.instructions + created.instructions,
            signers := s.signers + created.signers,
            yourPayment := Some(created.account),
            yourPaymentPair := Some(accountPair)))
  }

  /** Step 4, `approveTransfers`: needs both accounts, at most once; the
      fresh transfer authority is approved for amount 0 on the outstanding
      shares and then on the payment account. It is not added to the
      signers: the caller signs with it when submitting. */
  function ApproveTransfers(s: CombineVaultSetup, payer: Key, transferPair: Keypair)
    : (r: Result<CombineVaultSetup, string>)
    ensures r.Ok? <==> s.HasOutstandingShares() && s.HasPayment() && !s.HasTransferAuthority()
    ensures !s.HasOutstandingShares() ==> r == Err(NeedOutstandingSharesFirst)
    ensures s.HasOutstandingShares() && !s.HasPayment() ==> r == Err(NeedPaymentFirst)
    ensures s.HasOutstandingShares() && s.HasPayment() && s.HasTransferAuthority() ==> r == Err(ApproveTwice)
    ensures r.Ok? ==> && r.value.instructions == s.instructions
                           + [Approve(s.yourOutstandingShares.value, transferPair.PublicKey(), payer, 0),
                              Approve(s.yourPayment.value, transferPair.PublicKey(), payer, 0)]
                      && r.value.signers == s.signers
                      && r.value.transferAuthority == Some(transferPair.PublicKey())
                      && r.value.transferAuthorityPair == Some(transferPair)
                      && r.value.SameConfig(s) && r.value.SameOutstandingShares(s) && r.value.SamePayment(s)
  {
    if !s.HasOutstandingShares() then
      Err(NeedOutstandingSharesFirst)
    else if !s.HasPayment() then
      Err(NeedPaymentFirst)
    else if s.HasTransferAuthority() then
      Err(ApproveTwice)
    else
      var transferAuthority := transferPair.PublicKey();
      var approvals := [
        Approve(s.yourOutstandingShares.value, transferAuthority, payer, 0),
        Approve(s.yourPayment.value, transferAuthority, payer, 0)
      ];
      Ok(s.(instructions := s.instructions + approvals,
            transferAuthority := Some(transferAuthority),
            transferAuthorityPair := Some(transferPair)))
  }

  /** `assertComplete`: the first missing piece, in the source's order. */
  function AssertComplete(s: CombineVaultSetup): (r: Result<(), string>)
    ensures r.Ok? <==> s.Complete()
    ensures !s.HasOutstandingShares() ==> r == Err(NeedOutstandingShares)
    ensures s.HasOutstandingShares() && !s.HasPayment() ==> r == Err(NeedPayment)
    ensures s.HasOutstandingShares() && s.HasPayment() && !s.HasTransferAuthority() ==> r == Err(NeedTransferAuthority)
  {
    if !s.HasOutstandingShares() then Err(NeedOutstandingShares)
    else if !s.HasPayment() then Err(NeedPayment)
    else if !s.HasTransferAuthority() then Err(NeedTransferAuthority)
    else Ok(())
  }

  /** The `accounts` getter: defined only on a complete setup, and then an
      echo of the stored accounts. */
  function Accounts(s: CombineVaultSetup): (r: Result<CombineVaultAccounts, string>)
    ensures r.Ok? <==> s.Complete()
    ensures r.Err? ==> r == AssertComplete(s).PropagateFailure()
    ensures r.Ok? ==> && r.value.vault == s.vault
                      && r.value.vaultAuthority == s.vaultAuthority
                      && r.value.newVaultAuthority == s.newVaultAuthority
                      && r.value.fractionMint == s.fractionMint
                      && r.value.fractionTreasury == s.fractionTreasury
                      && r.value.redeemTreasury == s.redeemTreasury
                      && Some(r.value.yourOutstandingShares) == s.yourOutstandingShares
                      && Some(r.value.yourPayment) == s.yourPayment
                      && Some(r.value.transferAuthority) == s.transferAuthority
                      && r.value.fractionBurnAuthority == s.fractionBurnAuthority
                      && r.value.externalPricing == s.externalPricing
  {
    var _ :- AssertComplete(s);
    Ok(CombineVaultAccounts(
      vault := s.vault,
      vaultAuthority := s.vaultAuthority,
      newVaultAuthority := s.newVaultAuthority,
      fractionMint := s.fractionMint,
      fractionTreasury := s.fractionTreasury,
      redeemTreasury := s.redeemTreasury,
      yourOutstandingShares := s.yourOutstandingShares.value,
      yourPayment := s.yourPayment.value,
      transferAuthority := s.transferAuthority.value,
      fractionBurnAuthority := s.fractionBurnAuthority,
      externalPricing := s.externalPricing))
  }

  /** `combineVault`: the CombineVault instruction over the setup's accounts. */
  function CombineVaultInstruction(s: CombineVaultSetup): (r: Result<Instruction, string>)
    ensures r.Ok? <==> s.Complete()
    ensures r.Ok? ==> r.value.CombineVault? && Ok(r.value.combineAccounts) == Accounts(s)
  {
    var accounts :- Accounts(s);
    Ok(CombineVault(accounts))
  }

  /** A second `createOutstandingShares` or `createPayment` is refused,
      whatever account it would have created. */
  lemma CreateAccountsAtMostOnce(s: CombineVaultSetup, payer: Key, rentExempt: nat, first: Keypair, second: Keypair)
    ensures CreateOutstandingShares(s, payer, rentExempt, first).Ok? ==>
              CreateOutstandingShares(CreateOutstandingShares(s, payer, rentExempt, first).value,
                                      payer, rentExempt, second) == Err(OutstandingSharesTwice)
    ensures CreatePayment(s, payer, rentExempt, first).Ok? ==>
              CreatePayment(CreatePayment(s, payer, rentExempt, first).value,
                            payer, rentExempt, second) == Err(PaymentTwice)
  {
  }

  /** The builder sequence the combine test runs: create, outstanding
      shares, payment, approvals. It yields a complete setup whose
      instructions create the two accounts and approve them, signed by the
      two new accounts' keypairs, and whose CombineVault instruction carries
      them with the vault's derived burn authority. */
  lemma {:induction false} FullSetupIsComplete(args: CreateArgs, payer: Key, rentExempt: nat,
                                               outstandingPair: Keypair, paymentPair: Keypair, transferPair: Keypair)
    ensures var s1 := CreateOutstandingShares(Create(args), payer, rentExempt, outstandingPair);
            s1.Ok? &&
            var s2 := CreatePayment(s1.value, payer, rentExempt, paymentPair);
            s2.Ok? &&
            var s3 := ApproveTransfers(s2.value, payer, transferPair);
            && s3.Ok?
            && s3.value.instructions == [
                 CreateTokenAccount(payer, outstandingPair.PublicKey(), rentExempt, args.fractionMint, payer),
                 CreateTokenAccount(payer, paymentPair.PublicKey(), rentExempt, args.priceMint, payer),
                 Approve(outstandingPair.PublicKey(), transferPair.PublicKey(), payer, 0),
                 Approve(paymentPair.PublicKey(), transferPair.PublicKey(), payer, 0)]
            && s3.value.signers == [outstandingPair, paymentPair]
            && CombineVaultInstruction(s3.value).Ok?
            && CombineVaultInstruction(s3.value).value.combineAccounts.yourOutstandingShares == outstandingPair.PublicKey()
            && CombineVaultInstruction(s3.value).value.combineAccounts.yourPayment == paymentPair.PublicKey()
            && CombineVaultInstruction(s3.value).value.combineAccounts.transferAuthority == transferPair.PublicKey()
            && CombineVaultInstruction(s3.value).value.combineAccounts.fractionBurnAuthority == PdaForVault(args.vault)
  {
    var s0 := Create(args);
    var s1 := CreateOutstandingShares(s0, payer, rentExempt, outstandingPair);
    var s2 := CreatePayment(s1.value, payer, rentExempt, paymentPair);
    var s3 := ApproveTransfers(s2.value, payer, transferPair);
    assert s3.value.instructions == s2.value.instructions
      + [Approve(outstandingPair.PublicKey(), transferPair.PublicKey(), payer, 0),
         Approve(paymentPair.PublicKey(), transferPair.PublicKey(), payer, 0)];
  }
}
