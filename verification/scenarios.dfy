/** Lemmas about the client's whole instruction sequences on the on-chain
    model, following the flows the repository's tests drive: setting up and
    initializing a vault, then activating it with no shares and combining
    it through the staged combine setup. */
module Scenarios {
  import opened Wrappers
  import opened Keys
  import Instructions
  import opened Ledger
  import opened Runtime
  import VaultProgram
  import InitVaultClient
  import ActivateVaultClient
  import CombineVaultClient

  /** The four keypairs of the init setup are pairwise distinct and name no
      existing account. */
  predicate FreshOn(c: Chain, pairs: InitVaultClient.FreshPairs) {
    && pairs.vault.id != pairs.fractionMint.id
    && pairs.vault.id != pairs.redeemTreasury.id
    && pairs.vault.id != pairs.fractionTreasury.id
    && pairs.fractionMint.id != pairs.redeemTreasury.id
    && pairs.fractionMint.id != pairs.fractionTreasury.id
    && pairs.redeemTreasury.id != pairs.fractionTreasury.id
    && !c.Exists(pairs.vault.PublicKey())
    && !c.Exists(pairs.fractionMint.PublicKey())
    && !c.Exists(pairs.redeemTreasury.PublicKey())
    && !c.Exists(pairs.fractionTreasury.PublicKey())
  }

  /** The client's activate instruction for a vault initialized with these
      accounts, leaving the fraction mint authority to be derived. */
  function ActivateFor(a: Instructions.InitVaultAccounts, numberOfShares: nat): Instructions.Instruction {
    ActivateVaultClient.ActivateVaultInstruction(
      a.vault,
      ActivateVaultClient.ActivateArgs(a.vault, a.fractionMint, a.fractionTreasury, None, a.authority),
      numberOfShares)
  }

  /** The chain after the init setup's instructions: the fraction mint with
      no supply under the derived authority, the two empty treasuries it
      owns and the blank vault record now exist; nothing else changed. */
  function AfterInitSetup(c: Chain, a: Instructions.InitVaultAccounts, priceMint: Key): Chain {
    var pda := PdaForVault(a.vault);
    c.(mints := c.mints[a.fractionMint := Mint(0, 0, Some(pda), Some(pda))],
       tokens := c.tokens[a.redeemTreasury := TokenAccount(priceMint, pda, 0, None, 0, None)]
                         [a.fractionTreasury := TokenAccount(a.fractionMint, pda, 0, None, 0, None)],
       vaults := c.vaults[a.vault := BlankVault])
  }

  /** With fresh keys and an existing price mint, the init setup's
      instructions all succeed and create exactly the four accounts. */
  lemma InitSetupRuns(c: Chain, args: InitVaultClient.SetupArgs, rent: InitVaultClient.Rent,
                      pairs: InitVaultClient.FreshPairs)
    requires FreshOn(c, pairs)
    requires args.priceMint in c.mints
    ensures var setup := InitVaultClient.SetupInitVaultAccounts(args, rent, pairs);
            ExecuteAll(c, setup.instructions) == Ok(AfterInitSetup(c, setup.accounts, args.priceMint))
  {
    var setup := InitVaultClient.SetupInitVaultAccounts(args, rent, pairs);
    var a := setup.accounts;
    var pda := PdaForVault(a.vault);
    var ixs := setup.instructions;
    var c1 := Ledger.CreateMint(c, a.fractionMint, 0, pda, pda).value;
    var c2 := Ledger.CreateTokenAccount(c1, a.redeemTreasury, args.priceMint, pda).value;
    var c3 := Ledger.CreateTokenAccount(c2, a.fractionTreasury, a.fractionMint, pda).value;
    var c4 := Ledger.CreateVaultAccount(c3, a.vault).value;
    assert c4 == AfterInitSetup(c, a, args.priceMint);
    assert ExecuteAll(c3, ixs[3..]) == Ok(c4) by {
      assert ixs[3..][1..] == [];
    }
    assert ExecuteAll(c2, ixs[2..]) == Ok(c4) by {
      assert ixs[2..][1..] == ixs[3..];
    }
    assert ExecuteAll(c1, ixs[1..]) == Ok(c4) by {
      assert ixs[1..][1..] == ixs[2..];
    }
  }

  /** On the chain the init setup leaves, InitVault succeeds and records an
      Inactive vault of exactly the setup's accounts, leaving the mint
      without supply and both treasuries empty, ready for activation. */
  lemma InitAfterSetup(c: Chain, args: InitVaultClient.SetupArgs, rent: InitVaultClient.Rent,
                       pairs: InitVaultClient.FreshPairs, allow: bool)
    requires FreshOn(c, pairs)
    requires args.priceMint in c.mints
    requires args.externalPriceAccount in c.prices
    requires c.prices[args.externalPriceAccount].priceMint == args.priceMint
    ensures var a := InitVaultClient.SetupInitVaultAccounts(args, rent, pairs).accounts;
            var r := VaultProgram.ProcessInitVault(AfterInitSetup(c, a, args.priceMint), a, allow);
            && r.Ok?
            && a.redeemTreasury != a.fractionTreasury
            && a.vault in r.value.vaults
            && r.value.vaults[a.vault]
               == Vault(VaultV1, a.fractionMint, a.redeemTreasury, a.fractionTreasury, args.externalPriceAccount,
                        args.vaultAuthority, allow, 0, Inactive, 0)
            && a.fractionMint in r.value.mints && r.value.mints[a.fractionMint].supply == 0
            && VaultProgram.EmptyTreasury(r.value, a.fractionTreasury, a.fractionMint, PdaForVault(a.vault))
            && VaultProgram.EmptyTreasury(r.value, a.redeemTreasury, args.priceMint, PdaForVault(a.vault))
            && VaultProgram.ActivateConditions(r.value, ActivateFor(a, 0).activateAccounts)
  {
    var a := InitVaultClient.SetupInitVaultAccounts(args, rent, pairs).accounts;
    var c4 := AfterInitSetup(c, a, args.priceMint);
    assert VaultProgram.InitConditions(c4, a);
    var c5 := VaultProgram.ProcessInitVault(c4, a, allow).value;
    assert VaultProgram.MintAccountsMatch(c5, a.vault, a.fractionMint, a.fractionTreasury, a.authority,
                                          PdaForVault(a.vault));
  }

  /** Running the setup instructions and then InitVault, with fresh keys, an
      existing price mint and a pricing account of that mint, initializes
      the vault: an Inactive record holding exactly the accounts the setup
      chose, the requested policy and no token types. The fraction mint is
      left without supply and both treasuries empty, so the client's
      activate instruction is accepted next; and initializing again fails
      with AlreadyInitialized. */
  lemma SetupThenInit(c: Chain, args: InitVaultClient.SetupArgs, rent: InitVaultClient.Rent,
                      pairs: InitVaultClient.FreshPairs, allow: bool, again: bool)
    requires FreshOn(c, pairs)
    requires args.priceMint in c.mints
    requires args.externalPriceAccount in c.prices
    requires c.prices[args.externalPriceAccount].priceMint == args.priceMint
    ensures var setup := InitVaultClient.SetupInitVaultAccounts(args, rent, pairs);
            var a := setup.accounts;
            var r := ExecuteAll(c, setup.instructions + [InitVaultClient.InitVaultInstruction(a, allow)]);
            && r.Ok?
            && a.redeemTreasury != a.fractionTreasury
            && a.vault in r.value.vaults
            && r.value.vaults[a.vault]
               == Vault(VaultV1, a.fractionMint, a.redeemTreasury, a.fractionTreasury, args.externalPriceAccount,
                        args.vaultAuthority, allow, 0, Inactive, 0)
            && a.fractionMint in r.value.mints && r.value.mints[a.fractionMint].supply == 0
            && VaultProgram.EmptyTreasury(r.value, a.fractionTreasury, a.fractionMint, PdaForVault(a.vault))
            && VaultProgram.EmptyTreasury(r.value, a.redeemTreasury, args.priceMint, PdaForVault(a.vault))
            && VaultProgram.ActivateConditions(r.value, ActivateFor(a, 0).activateAccounts)
            && Execute(r.value, InitVaultClient.InitVaultInstruction(a, again)) == Err(AlreadyInitialized)
  {
    var setup := InitVaultClient.SetupInitVaultAccounts(args, rent, pairs);
    var a := setup.accounts;
    var c4 := AfterInitSetup(c, a, args.priceMint);
    InitSetupRuns(c, args, rent, pairs);
    ExecuteThen(c, setup.instructions, Instructions.InitVault(a, allow), c4);
    ExecuteInit(c4, a, allow);
    InitAfterSetup(c, args, rent, pairs, allow);
    var c5 := VaultProgram.ProcessInitVault(c4, a, allow).value;
    ExecuteInit(c5, a, again);
  }

  /** What a zero-share Active vault offers a combine: its mint has no
      supply, both treasuries are empty accounts of the derived authority,
      and its pricing account allows combining in `priceMint`. */
  predicate ReadyToCombine(c: Chain, vault: Key, priceMint: Key) {
    && VaultProgram.Initialized(c, vault)
    && var v := c.vaults[vault];
    && v.state == Active
    && v.fractionMint in c.mints && c.mints[v.fractionMint].supply == 0
    && priceMint in c.mints
    && VaultProgram.EmptyTreasury(c, v.fractionTreasury, v.fractionMint, PdaForVault(vault))
    && VaultProgram.EmptyTreasury(c, v.redeemTreasury, priceMint, PdaForVault(vault))
    && v.redeemTreasury != v.fractionTreasury
    && v.pricingLookupAddress in c.prices
    && c.prices[v.pricingLookupAddress].priceMint == priceMint
    && c.prices[v.pricingLookupAddress].allowedToCombine
  }

  /** Activating a freshly initialized vault with no shares through the
      client's instruction leaves it Active with nothing minted, so it is
      ready to combine once its pricing account allows it. */
  lemma ActivateWithNoShares(c: Chain, a: Instructions.InitVaultAccounts, priceMint: Key)
    requires VaultProgram.ActivateConditions(c, ActivateFor(a, 0).activateAccounts)
    requires c.vaults[a.vault].fractionMint == a.fractionMint
    requires c.vaults[a.vault].fractionTreasury == a.fractionTreasury
    requires c.mints[a.fractionMint].supply == 0
    requires VaultProgram.EmptyTreasury(c, a.fractionTreasury, a.fractionMint, PdaForVault(a.vault))
    requires VaultProgram.EmptyTreasury(c, c.vaults[a.vault].redeemTreasury, priceMint, PdaForVault(a.vault))
    requires priceMint in c.mints
    requires c.vaults[a.vault].redeemTreasury != a.fractionTreasury
    requires c.vaults[a.vault].pricingLookupAddress in c.prices
    requires c.prices[c.vaults[a.vault].pricingLookupAddress].priceMint == priceMint
    requires c.prices[c.vaults[a.vault].pricingLookupAddress].allowedToCombine
    ensures Execute(c, ActivateFor(a, 0)).Ok?
    ensures ReadyToCombine(Execute(c, ActivateFor(a, 0)).value, a.vault, priceMint)
  {
    var ix := ActivateFor(a, 0);
    var c' := Execute(c, ix).value;
    var v := c.vaults[a.vault];
    assert c'.tokens[v.redeemTreasury] == c.tokens[v.redeemTreasury];
  }

  /** The instructions the combine setup emits for the test's flow. */
  function ZeroShareSetup(fractionMint: Key, priceMint: Key, payer: Key, rentExempt: nat,
                          outstanding: Key, payment: Key, authority: Key): seq<Instructions.Instruction> {
    [Instructions.CreateTokenAccount(payer, outstanding, rentExempt, fractionMint, payer),
     Instructions.CreateTokenAccount(payer, payment, rentExempt, priceMint, payer),
     Instructions.Approve(outstanding, authority, payer, 0),
     Instructions.Approve(payment, authority, payer, 0)]
  }

  /** `c'` is `c` plus two empty accounts owned by the payer, of the
      fraction mint and of the price mint, each delegating nothing to the
      transfer authority. */
  ghost predicate WithCombineAccounts(c: Chain, c': Chain, fractionMint: Key, priceMint: Key, payer: Key,
                                      outstanding: Key, payment: Key, authority: Key) {
    && c'.mints == c.mints && c'.vaults == c.vaults && c'.prices == c.prices
    && c'.tokens.Keys == c.tokens.Keys + {outstanding, payment}
    && (forall k :: k in c.tokens ==> c'.tokens[k] == c.tokens[k])
    && c'.tokens[outstanding] == TokenAccount(fractionMint, payer, 0, Some(authority), 0, None)
    && c'.tokens[payment] == TokenAccount(priceMint, payer, 0, Some(authority), 0, None)
  }

  /** The CombineVault accounts the setup collects for the vault, keeping
      its authority. */
  function ZeroShareCombineAccounts(v: Vault, vault: Key, outstanding: Key, payment: Key, authority: Key)
    : Instructions.CombineVaultAccounts
  {
    Instructions.CombineVaultAccounts(vault, v.authority, v.authority, v.fractionMint, v.fractionTreasury,
                                      v.redeemTreasury, outstanding, payment, authority, PdaForVault(vault),
                                      v.pricingLookupAddress)
  }

  /** The ledger operations the combine setup's instructions perform, in
      order, stopping at the first failure. */
  function ZeroShareLedger(c: Chain, fractionMint: Key, priceMint: Key, payer: Key,
                           outstanding: Key, payment: Key, authority: Key): Result<Chain, Error> {
    var c1 :- Ledger.CreateTokenAccount(c, outstanding, fractionMint, payer);
    var c2 :- Ledger.CreateTokenAccount(c1, payment, priceMint, payer);
    var c3 :- Ledger.Approve(c2, outstanding, authority, payer, 0);
    Ledger.Approve(c3, payment, authority, payer, 0)
  }

  /** Running the combine setup's instructions is running those ledger
      operations, on any chain. */
  lemma ZeroShareSetupIsLedger(c: Chain, fractionMint: Key, priceMint: Key, payer: Key, rentExempt: nat,
                               outstanding: Key, payment: Key, authority: Key)
    ensures ExecuteAll(c, ZeroShareSetup(fractionMint, priceMint, payer, rentExempt, outstanding, payment, authority))
            == ZeroShareLedger(c, fractionMint, priceMint, payer, outstanding, payment, authority)
  {
    var i0 := Instructions.CreateTokenAccount(payer, outstanding, rentExempt, fractionMint, payer);
    var i1 := Instructions.CreateTokenAccount(payer, payment, rentExempt, priceMint, payer);
    var i2 := Instructions.Approve(outstanding, authority, payer, 0);
    var i3 := Instructions.Approve(payment, authority, payer, 0);
    assert ZeroShareSetup(fractionMint, priceMint, payer, rentExempt, outstanding, payment, authority)
           == [i0] + ([i1] + ([i2] + ([i3] + [])));
    ExecuteAllCons(c, i0, [i1] + ([i2] + ([i3] + [])));
    ExecuteCreateTokenAccount(c, payer, outstanding, rentExempt, fractionMint, payer);
    match Ledger.CreateTokenAccount(c, outstanding, fractionMint, payer)
    case Err(_) =>
    case Ok(c1) =>
      ExecuteAllCons(c1, i1, [i2] + ([i3] + []));
      ExecuteCreateTokenAccount(c1, payer, payment, rentExempt, priceMint, payer);
      match Ledger.CreateTokenAccount(c1, payment, priceMint, payer)
      case Err(_) =>
      case Ok(c2) =>
        ExecuteAllCons(c2, i2, [i3] + []);
        ExecuteApprove(c2, outstanding, authority, payer, 0);
        match Ledger.Approve(c2, outstanding, authority, payer, 0)
        case Err(_) =>
        case Ok(c3) =>
          ExecuteAllCons(c3, i3, []);
          ExecuteApprove(c3, payment, authority, payer, 0);
  }

  /** The combine setup's instructions succeed on fresh, distinct keys and
      add exactly the two new accounts. */
  lemma ZeroShareSetupRuns(c: Chain, vault: Key, priceMint: Key, payer: Key, rentExempt: nat,
                           outstanding: Key, payment: Key, authority: Key)
    requires ReadyToCombine(c, vault, priceMint)
    requires outstanding != payment && !c.Exists(outstanding) && !c.Exists(payment)
    ensures var fm := c.vaults[vault].fractionMint;
            var r := ExecuteAll(c, ZeroShareSetup(fm, priceMint, payer, rentExempt, outstanding, payment, authority));
            r.Ok? && WithCombineAccounts(c, r.value, fm, priceMint, payer, outstanding, payment, authority)
  {
    var fm := c.vaults[vault].fractionMint;
    ZeroShareSetupIsLedger(c, fm, priceMint, payer, rentExempt, outstanding, payment, authority);
    var c1 := Ledger.CreateTokenAccount(c, outstanding, fm, payer).value;
    var c2 := Ledger.CreateTokenAccount(c1, payment, priceMint, payer).value;
    var c3 := Ledger.Approve(c2, outstanding, authority, payer, 0).value;
  }

  /** `r` is `c` after a combine of a zero-share vault with the two new
      accounts: no vault record appeared or disappeared, the two accounts
      were added, the vault is Combined under its authority with the
      pricing account's price locked, and the four accounts involved hold
      zero. */
  ghost predicate CombinedToZero(c: Chain, r: Chain, vault: Key, outstanding: Key, payment: Key)
    requires VaultProgram.Initialized(c, vault)
  {
    var v := c.vaults[vault];
    && r.vaults.Keys == c.vaults.Keys
    && r.tokens.Keys == c.tokens.Keys + {outstanding, payment}
    && v.pricingLookupAddress in c.prices
    && r.vaults[vault] == v.(state := Combined, lockedPricePerShare := c.prices[v.pricingLookupAddress].pricePerShare)
    && v.fractionTreasury in r.tokens && r.tokens[v.fractionTreasury].amount == 0
    && v.redeemTreasury in r.tokens && r.tokens[v.redeemTreasury].amount == 0
    && r.tokens[outstanding].amount == 0
    && r.tokens[payment].amount == 0
  }

  /** On the chain those instructions leave, nothing is owed, CombineVault
      succeeds, and every balance it touches ends at zero. */
  lemma ZeroShareCombineRuns(c: Chain, c4: Chain, vault: Key, priceMint: Key, payer: Key,
                             outstanding: Key, payment: Key, authority: Key)
    requires ReadyToCombine(c, vault, priceMint)
    requires outstanding != payment && !c.Exists(outstanding) && !c.Exists(payment)
    requires WithCombineAccounts(c, c4, c.vaults[vault].fractionMint, priceMint, payer, outstanding, payment, authority)
    ensures var v := c.vaults[vault];
            var r := VaultProgram.ProcessCombine(c4, ZeroShareCombineAccounts(v, vault, outstanding, payment, authority));
            r.Ok? && CombinedToZero(c, r.value, vault, outstanding, payment)
  {
    var v := c.vaults[vault];
    var a := ZeroShareCombineAccounts(v, vault, outstanding, payment, authority);
    assert c4.tokens[v.fractionTreasury] == c.tokens[v.fractionTreasury];
    assert c4.tokens[v.redeemTreasury] == c.tokens[v.redeemTreasury];
    assert VaultProgram.Owed(c4, a) == 0 by {
      VaultProgram.WhatYouOweIsPriceOfOthersShares(0, 0, 0, c.prices[v.pricingLookupAddress].pricePerShare);
    }
    assert VaultProgram.CombineConditions(c4, a);
    assert MaySpend(c4.tokens[payment], authority, VaultProgram.Owed(c4, a) as nat);
    assert VaultProgram.SettleConditions(c4, a);
    VaultProgram.CombineSucceeds(c4, a);
    VaultProgram.CombineSettlement(c4, a);
  }

  /** The combine builder's steps as the test runs them for a vault record
      `v`: every step succeeds, the setup emits ZeroShareSetup, and the
      CombineVault instruction keeps the vault's authority. */
  lemma ZeroShareClient(v: Vault, vault: Key, priceMint: Key, payer: Key, rentExempt: nat,
                        outstandingPair: Keypair, paymentPair: Keypair, transferPair: Keypair)
    ensures var s1 := CombineVaultClient.CreateOutstandingShares(
                        CombineVaultClient.Create(CombineVaultClient.CreateArgs(
                          vault, v.authority, None, v.fractionMint, v.fractionTreasury, v.redeemTreasury,
                          priceMint, v.pricingLookupAddress)),
                        payer, rentExempt, outstandingPair);
            s1.Ok? &&
            var s2 := CombineVaultClient.CreatePayment(s1.value, payer, rentExempt, paymentPair);
            s2.Ok? &&
            var s3 := CombineVaultClient.ApproveTransfers(s2.value, payer, transferPair);
            && s3.Ok?
            && s3.value.instructions
               == ZeroShareSetup(v.fractionMint, priceMint, payer, rentExempt, outstandingPair.PublicKey(),
                                 paymentPair.PublicKey(), transferPair.PublicKey())
            && CombineVaultClient.CombineVaultInstruction(s3.value)
               == Ok(Instructions.CombineVault(ZeroShareCombineAccounts(v, vault, outstandingPair.PublicKey(),
                                                                        paymentPair.PublicKey(),
                                                                        transferPair.PublicKey())))
  {
    var args := CombineVaultClient.CreateArgs(vault, v.authority, None, v.fractionMint, v.fractionTreasury,
                                              v.redeemTreasury, priceMint, v.pricingLookupAddress);
    CombineVaultClient.FullSetupIsComplete(args, payer, rentExempt, outstandingPair, paymentPair, transferPair);
  }

  /** The transaction the combine test sends, on fresh, distinct account
      keys: the setup instructions succeed, and CombineVault then succeeds
      on the chain they leave (ExecuteThen joins the two into one batch). */
  lemma ZeroShareTransactionRuns(c: Chain, vault: Key, priceMint: Key, payer: Key, rentExempt: nat,
                                 outstanding: Key, payment: Key, authority: Key)
    requires ReadyToCombine(c, vault, priceMint)
    requires outstanding != payment && !c.Exists(outstanding) && !c.Exists(payment)
    ensures var v := c.vaults[vault];
            var setup := ExecuteAll(c, ZeroShareSetup(v.fractionMint, priceMint, payer, rentExempt, outstanding,
                                                      payment, authority));
            setup.Ok? &&
            var r := Execute(setup.value, Instructions.CombineVault(ZeroShareCombineAccounts(v, vault, outstanding,
                                                                                            payment, authority)));
            r.Ok? && CombinedToZero(c, r.value, vault, outstanding, payment)
  {
    var v := c.vaults[vault];
    var setup := ZeroShareSetup(v.fractionMint, priceMint, payer, rentExempt, outstanding, payment, authority);
    ZeroShareSetupRuns(c, vault, priceMint, payer, rentExempt, outstanding, payment, authority);
    var c4 := ExecuteAll(c, setup).value;
    var a := ZeroShareCombineAccounts(v, vault, outstanding, payment, authority);
    ExecuteCombine(c4, a);
    ZeroShareCombineRuns(c, c4, vault, priceMint, payer, outstanding, payment, authority);
  }

  /** The combine test's flow on a zero-share vault: create the setup,
      create the outstanding-shares and payment accounts, approve the
      transfer authority, and send those instructions with CombineVault.
      Nothing is owed, every step succeeds, the vault ends Combined under
      its unchanged authority with the pricing account's price locked, and
      the four token accounts involved all hold zero. */
  lemma CombineZeroShareVault(c: Chain, vault: Key, priceMint: Key, payer: Key, rentExempt: nat,
                              outstandingPair: Keypair, paymentPair: Keypair, transferPair: Keypair)
    requires ReadyToCombine(c, vault, priceMint)
    requires outstandingPair.id != paymentPair.id
    requires !c.Exists(outstandingPair.PublicKey()) && !c.Exists(paymentPair.PublicKey())
    ensures var v := c.vaults[vault];
            var s1 := CombineVaultClient.CreateOutstandingShares(
                        CombineVaultClient.Create(CombineVaultClient.CreateArgs(
                          vault, v.authority, None, v.fractionMint, v.fractionTreasury, v.redeemTreasury,
                          priceMint, v.pricingLookupAddress)),
                        payer, rentExempt, outstandingPair);
            s1.Ok? &&
            var s2 := CombineVaultClient.CreatePayment(s1.value, payer, rentExempt, paymentPair);
            s2.Ok? &&
            var s3 := CombineVaultClient.ApproveTransfers(s2.value, payer, transferPair);
            s3.Ok? &&
            var combineIx := CombineVaultClient.CombineVaultInstruction(s3.value);
            combineIx.Ok? &&
            var r := ExecuteAll(c, s3.value.instructions + [combineIx.value]);
            r.Ok? && CombinedToZero(c, r.value, vault, outstandingPair.PublicKey(), paymentPair.PublicKey())
  {
    var v := c.vaults[vault];
    var outstanding, payment, authority := outstandingPair.PublicKey(), paymentPair.PublicKey(), transferPair.PublicKey();
    ZeroShareClient(v, vault, priceMint, payer, rentExempt, outstandingPair, paymentPair, transferPair);
    ZeroShareTransactionRuns(c, vault, priceMint, payer, rentExempt, outstanding, payment, authority);
    var setup := ZeroShareSetup(v.fractionMint, priceMint, payer, rentExempt, outstanding, payment, authority);
    var combineIx := Instructions.CombineVault(ZeroShareCombineAccounts(v, vault, outstanding, payment, authority));
    ExecuteThen(c, setup, combineIx, ExecuteAll(c, setup).value);
  }
}
