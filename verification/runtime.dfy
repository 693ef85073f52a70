/** Running the client's instructions against the on-chain model: each
    instruction is applied in order and a transaction either applies all of
    them or fails as a whole. Lemmas here state the vault lifecycle over
    any sequence of instructions. */
module Runtime {
  import opened Wrappers
  import opened Keys
  import opened Instructions
  import opened Ledger
  import VaultProgram

  function Execute(c: Chain, ix: Instruction): Result<Chain, Error> {
    match ix
    case CreateMint(_, mint, _, decimals, mintAuthority, freezeAuthority) =>
      Ledger.CreateMint(c, mint, decimals, mintAuthority, freezeAuthority)
    case CreateTokenAccount(_, account, _, mint, owner) => Ledger.CreateTokenAccount(c, account, mint, owner)
    case CreateVaultAccount(_, vault, _, _) => Ledger.CreateVaultAccount(c, vault)
    case Approve(account, delegate, owner, amount) => Ledger.Approve(c, account, delegate, owner, amount)
    case ApproveTokenTransfer(_, _, _, _) => Err(NotModelled)
    case MintTo(mint, destination, authority, amount) => Ledger.MintTo(c, mint, destination, authority, amount)
    case InitVault(accounts, allowFurtherShareCreation) =>
      VaultProgram.ProcessInitVault(c, accounts, allowFurtherShareCreation)
    case ActivateVault(accounts, numberOfShares) => VaultProgram.ProcessActivateVault(c, accounts, numberOfShares)
    case MintFractionalShares(accounts, numberOfShares) => VaultProgram.ProcessMintShares(c, accounts, numberOfShares)
    case AddSharesToTreasury(accounts, numberOfShares) => VaultProgram.ProcessAddShares(c, accounts, numberOfShares)
    case CombineVault(accounts) => VaultProgram.ProcessCombine(c, accounts)
  }

  /** A transaction: all instructions in order, or the first failure. */
  function ExecuteAll(c: Chain, ixs: seq<Instruction>): Result<Chain, Error>
    decreases |ixs|
  {
    if ixs == [] then Ok(c)
    else
      var next :- Execute(c, ixs[0]);
      ExecuteAll(next, ixs[1..])
  }

  /** Running two instruction lists back to back is running their concatenation. */
  lemma {:induction false} ExecuteAllAppend(c: Chain, first: seq<Instruction>, second: seq<Instruction>)
    ensures ExecuteAll(c, first + second)
            == (match ExecuteAll(c, first)
                case Ok(c') => ExecuteAll(c', second)
                case Err(e) => Err(e))
    decreases |first|
  {
    if first == [] {
      assert first + second == second;
    } else {
      assert (first + second)[0] == first[0];
      assert (first + second)[1..] == first[1..] + second;
      match Execute(c, first[0])
      case Ok(next) => ExecuteAllAppend(next, first[1..], second);
      case Err(_) =>
    }
  }

  /** Appending one instruction to a batch that succeeds runs that
      instruction on the batch's result. */
  lemma ExecuteThen(c: Chain, first: seq<Instruction>, ix: Instruction, mid: Chain)
    requires ExecuteAll(c, first) == Ok(mid)
    ensures ExecuteAll(c, first + [ix]) == Execute(mid, ix)
  {
    ExecuteAllAppend(c, first, [ix]);
    assert [ix][1..] == [];
  }

  /** A transaction runs its first instruction, then the rest on the result. */
  lemma ExecuteAllCons(c: Chain, ix: Instruction, rest: seq<Instruction>)
    ensures ExecuteAll(c, [ix] + rest) == (var next :- Execute(c, ix); ExecuteAll(next, rest))
  {
    assert ([ix] + rest)[0] == ix && ([ix] + rest)[1..] == rest;
  }

  /** A CreateTokenAccount instruction opens the account on the ledger. */
  lemma ExecuteCreateTokenAccount(c: Chain, payer: Key, account: Key, rent: nat, mint: Key, owner: Key)
    ensures Execute(c, CreateTokenAccount(payer, account, rent, mint, owner))
            == Ledger.CreateTokenAccount(c, account, mint, owner)
  {
  }

  /** An Approve instruction sets the account's delegate on the ledger. */
  lemma ExecuteApprove(c: Chain, account: Key, delegate: Key, owner: Key, amount: nat)
    ensures Execute(c, Approve(account, delegate, owner, amount)) == Ledger.Approve(c, account, delegate, owner, amount)
  {
  }

  /** An InitVault instruction runs the vault program's initialization. */
  lemma ExecuteInit(c: Chain, a: InitVaultAccounts, allowFurtherShareCreation: bool)
    ensures Execute(c, InitVault(a, allowFurtherShareCreation))
            == VaultProgram.ProcessInitVault(c, a, allowFurtherShareCreation)
  {
  }

  /** A CombineVault instruction runs the vault program's combine. */
  lemma ExecuteCombine(c: Chain, a: CombineVaultAccounts)
    ensures Execute(c, CombineVault(a)) == VaultProgram.ProcessCombine(c, a)
  {
  }

  function Rank(s: VaultState): nat {
    match s
    case Inactive => 0
    case Active => 1
    case Combined => 2
  }

  /** How one vault record may evolve over any number of instructions: an
      uninitialized record changes only by being initialized; an initialized
      one keeps its accounts, policy and token type count, never goes back in
      its lifecycle, keeps its authority and locked price until it is
      combined, and once combined never changes again. The token type count
      is fixed only because no deposit instruction is modelled; depositing
      into an Inactive vault would raise it. */
  predicate VaultProgress(v: Vault, v': Vault) {
    if v.key == Uninitialized then
      v'.key == Uninitialized ==> v' == v
    else
      && v'.key == VaultV1
      && Rank(v.state) <= Rank(v'.state)
      && v'.fractionMint == v.fractionMint
      && v'.redeemTreasury == v.redeemTreasury
      && v'.fractionTreasury == v.fractionTreasury
      && v'.pricingLookupAddress == v.pricingLookupAddress
      && v'.allowFurtherShareCreation == v.allowFurtherShareCreation
      && v'.tokenTypeCount == v.tokenTypeCount
      && (v.state == Combined ==> v' == v)
      && (v'.state != Combined ==> v'.authority == v.authority && v'.lockedPricePerShare == v.lockedPricePerShare)
  }

  /** No vault record disappears and every one progresses. */
  ghost predicate Progress(c: Chain, c': Chain) {
    forall k :: k in c.vaults ==> k in c'.vaults && VaultProgress(c.vaults[k], c'.vaults[k])
  }

  lemma ProgressReflexive(c: Chain)
    ensures Progress(c, c)
  {
  }

  lemma ProgressTransitive(c1: Chain, c2: Chain, c3: Chain)
    requires Progress(c1, c2) && Progress(c2, c3)
    ensures Progress(c1, c3)
  {
    forall k | k in c1.vaults
      ensures k in c3.vaults && VaultProgress(c1.vaults[k], c3.vaults[k])
    {
      assert VaultProgress(c1.vaults[k], c2.vaults[k]);
      assert VaultProgress(c2.vaults[k], c3.vaults[k]);
    }
  }

  /** A record that goes from uninitialized to initialized starts Inactive,
      with no token types and no locked price. */
  ghost predicate BornInactive(c: Chain, c': Chain) {
    forall k :: k in c.vaults && c.vaults[k].key == Uninitialized && k in c'.vaults && c'.vaults[k].key == VaultV1
                ==> c'.vaults[k].state == Inactive && c'.vaults[k].tokenTypeCount == 0
                    && c'.vaults[k].lockedPricePerShare == 0
  }

  /** An instruction that changes no vault record makes progress. */
  lemma SameVaultsProgress(c: Chain, c': Chain)
    requires c'.vaults == c.vaults
    ensures Progress(c, c') && BornInactive(c, c')
  {
  }

  /** Changing one vault record, in a way that progresses, makes progress. */
  lemma OneVaultProgress(c: Chain, c': Chain, vault: Key)
    requires VaultsFramed(c, c', vault)
    requires vault in c.vaults ==> VaultProgress(c.vaults[vault], c'.vaults[vault])
    requires vault in c.vaults && c.vaults[vault].key == Uninitialized && c'.vaults[vault].key == VaultV1
             ==> c'.vaults[vault].state == Inactive && c'.vaults[vault].tokenTypeCount == 0
                 && c'.vaults[vault].lockedPricePerShare == 0
    ensures Progress(c, c') && BornInactive(c, c')
  {
  }

  lemma CreateVaultProgress(c: Chain, vault: Key)
    ensures var r := Ledger.CreateVaultAccount(c, vault);
            r.Ok? ==> Progress(c, r.value) && BornInactive(c, r.value)
  {
  }

  lemma InitProgress(c: Chain, a: InitVaultAccounts, allow: bool)
    ensures var r := VaultProgram.ProcessInitVault(c, a, allow);
            r.Ok? ==> Progress(c, r.value) && BornInactive(c, r.value)
  {
    if VaultProgram.ProcessInitVault(c, a, allow).Ok? {
      OneVaultProgress(c, VaultProgram.ProcessInitVault(c, a, allow).value, a.vault);
    }
  }

  lemma ActivateProgress(c: Chain, a: ActivateVaultAccounts, n: nat)
    ensures var r := VaultProgram.ProcessActivateVault(c, a, n);
            r.Ok? ==> Progress(c, r.value) && BornInactive(c, r.value)
  {
    if VaultProgram.ProcessActivateVault(c, a, n).Ok? {
      OneVaultProgress(c, VaultProgram.ProcessActivateVault(c, a, n).value, a.vault);
    }
  }

  lemma CombineProgress(c: Chain, a: CombineVaultAccounts)
    ensures var r := VaultProgram.ProcessCombine(c, a);
            r.Ok? ==> Progress(c, r.value) && BornInactive(c, r.value)
  {
    if VaultProgram.ProcessCombine(c, a).Ok? {
      OneVaultProgress(c, VaultProgram.ProcessCombine(c, a).value, a.vault);
    }
  }

  /** Every instruction that succeeds makes progress, and a record it
      initializes starts Inactive with no token types and no locked price. */
  lemma ExecuteProgress(c: Chain, ix: Instruction)
    requires Execute(c, ix).Ok?
    ensures Progress(c, Execute(c, ix).value)
    ensures BornInactive(c, Execute(c, ix).value)
  {
    var c' := Execute(c, ix).value;
    match ix {
      case CreateVaultAccount(_, vault, _, _) => CreateVaultProgress(c, vault);
      case InitVault(accounts, allow) => InitProgress(c, accounts, allow);
      case ActivateVault(accounts, n) => ActivateProgress(c, accounts, n);
      case CombineVault(accounts) => CombineProgress(c, accounts);
      case _ => SameVaultsProgress(c, c');
    }
  }

  /** Lifecycle monotonicity over a whole instruction sequence. */
  lemma {:induction false} ExecuteAllProgress(c: Chain, ixs: seq<Instruction>)
    requires ExecuteAll(c, ixs).Ok?
    ensures Progress(c, ExecuteAll(c, ixs).value)
    decreases |ixs|
  {
    if ixs == [] {
      ProgressReflexive(c);
    } else {
      var next := Execute(c, ixs[0]).value;
      ExecuteProgress(c, ixs[0]);
      ExecuteAllProgress(next, ixs[1..]);
      ProgressTransitive(c, next, ExecuteAll(c, ixs).value);
    }
  }

  /** Once combined, a vault's record, and with it its locked price and
      authority, stays as it is whatever instructions follow. */
  lemma CombinedIsFinal(c: Chain, ixs: seq<Instruction>, vault: Key)
    requires vault in c.vaults && c.vaults[vault].key == VaultV1 && c.vaults[vault].state == Combined
    requires ExecuteAll(c, ixs).Ok?
    ensures vault in ExecuteAll(c, ixs).value.vaults
    ensures ExecuteAll(c, ixs).value.vaults[vault] == c.vaults[vault]
  {
    ExecuteAllProgress(c, ixs);
  }

  // ---------------------------------------------------------------------
  // Repeated minting
  // ---------------------------------------------------------------------

  function Sum(xs: seq<nat>): nat
    decreases |xs|
  {
    if xs == [] then 0 else xs[0] + Sum(xs[1..])
  }

  /** One MintFractionalShares instruction per amount. */
  function MintInstructions(a: MintSharesAccounts, amounts: seq<nat>): (ixs: seq<Instruction>)
    ensures |ixs| == |amounts|
    ensures forall i :: 0 <= i < |amounts| ==> ixs[i] == MintFractionalShares(a, amounts[i])
    decreases |amounts|
  {
    if amounts == [] then [] else [MintFractionalShares(a, amounts[0])] + MintInstructions(a, amounts[1..])
  }

  /** Successive mints into an Active vault's treasury accumulate: every
      one succeeds and the treasury and the supply grow by the sum of the
      amounts, zero included; the vault records stay as they were. */
  lemma {:induction false} MintsAccumulate(c: Chain, a: MintSharesAccounts, amounts: seq<nat>)
    requires VaultProgram.MintSharesConditions(c, a)
    ensures ExecuteAll(c, MintInstructions(a, amounts)).Ok?
    ensures var c' := ExecuteAll(c, MintInstructions(a, amounts)).value;
            && VaultProgram.MintSharesConditions(c', a)
            && c'.vaults == c.vaults
            && c'.tokens[a.fractionTreasury].amount == c.tokens[a.fractionTreasury].amount + Sum(amounts)
            && c'.mints[a.fractionMint].supply == c.mints[a.fractionMint].supply + Sum(amounts)
    decreases |amounts|
  {
    var ixs := MintInstructions(a, amounts);
    if amounts != [] {
      var next := VaultProgram.ProcessMintShares(c, a, amounts[0]).value;
      assert Execute(c, ixs[0]) == Ok(next);
      assert ixs[1..] == MintInstructions(a, amounts[1..]);
      assert VaultProgram.MintSharesConditions(next, a);
      MintsAccumulate(next, a, amounts[1..]);
    }
  }

  /** The minting test's sequence 0, 5, 5,000,000,000 into an empty
      treasury leaves 5,000,000,005 shares there: amounts are not bounded
      by 32 bits. */
  lemma MintTestSequence(c: Chain, a: MintSharesAccounts)
    requires VaultProgram.MintSharesConditions(c, a)
    requires c.tokens[a.fractionTreasury].amount == 0
    ensures ExecuteAll(c, MintInstructions(a, [0, 5, 5_000_000_000])).Ok?
    ensures a.fractionTreasury in ExecuteAll(c, MintInstructions(a, [0, 5, 5_000_000_000])).value.tokens
    ensures ExecuteAll(c, MintInstructions(a, [0, 5, 5_000_000_000])).value.tokens[a.fractionTreasury].amount
            == 5_000_000_005
  {
    MintsAccumulate(c, a, [0, 5, 5_000_000_000]);
    assert Sum([0, 5, 5_000_000_000]) == 5_000_000_005 by {
      assert [0, 5, 5_000_000_000][1..] == [5, 5_000_000_000];
      assert [5, 5_000_000_000][1..] == [5_000_000_000];
      assert [5_000_000_000][1..] == [];
    }
  }
}
