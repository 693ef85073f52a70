/** The on-chain state the vault program works against: mints and token
    accounts of the token program, vault records and external price
    accounts, each addressed by key. The token operations are the standard
    ones (create, approve, mint, transfer, burn) with their balance checks.
    An authority check compares the key an operation names with the one the
    account records; signatures, rent and lamports are not modelled. */
module Ledger {
  import opened Wrappers
  import opened Keys

  datatype Mint = Mint(supply: nat, decimals: nat, mintAuthority: Option<Key>, freezeAuthority: Option<Key>)

  datatype TokenAccount = TokenAccount(
    mint: Key,
    owner: Key,
    amount: nat,
    delegate: Option<Key>,
    delegatedAmount: nat,
    closeAuthority: Option<Key>)

  /** The account discriminator: a zero-filled record reads as Uninitialized. */
  datatype AccountKey = Uninitialized | VaultV1

  datatype VaultState = Inactive | Active | Combined

  datatype Vault = Vault(
    key: AccountKey,
    fractionMint: Key,
    redeemTreasury: Key,
    fractionTreasury: Key,
    pricingLookupAddress: Key,
    authority: Key,
    allowFurtherShareCreation: bool,
    tokenTypeCount: nat,
    state: VaultState,
    lockedPricePerShare: nat)

  /** What the vault reads from its pricing lookup account. */
  datatype ExternalPrice = ExternalPrice(pricePerShare: nat, priceMint: Key, allowedToCombine: bool)

  datatype Error =
    | AccountMissing
    | AccountExists
    | AccountMismatch
    | MintMismatch
    | OwnerMismatch
    | AuthorityMismatch
    | InsufficientFunds
    | Overflow
    | NotEmpty
    | DelegateSet
    | CloseAuthoritySet
    | AlreadyInitialized
    | NotInitialized
    | InvalidState
    | NotAllowedToCombine
    | NotModelled

  datatype Chain = Chain(
    mints: map<Key, Mint>,
    tokens: map<Key, TokenAccount>,
    vaults: map<Key, Vault>,
    prices: map<Key, ExternalPrice>)
  {
    predicate Exists(k: Key) {
      k in mints || k in tokens || k in vaults || k in prices
    }
  }

  /** The record of a vault account that was allocated but never initialized. */
  const BlankVault := Vault(Uninitialized, Default, Default, Default, Default, Default, false, 0, Inactive, 0)

  /** Every token account other than those in `changed` is untouched, and no
      token account appears or disappears. */
  ghost predicate TokensFramed(c: Chain, c': Chain, changed: set<Key>) {
    && c'.tokens.Keys == c.tokens.Keys
    && forall k :: k in c.tokens && k !in changed ==> c'.tokens[k] == c.tokens[k]
  }

  /** Every vault record other than `changed` is untouched, and no record
      appears or disappears. */
  ghost predicate VaultsFramed(c: Chain, c': Chain, changed: Key) {
    && c'.vaults.Keys == c.vaults.Keys
    && forall k :: k in c.vaults && k != changed ==> c'.vaults[k] == c.vaults[k]
  }

  /** Every mint other than `changed` is untouched, and no mint appears or disappears. */
  ghost predicate MintsFramed(c: Chain, c': Chain, changed: Key) {
    && c'.mints.Keys == c.mints.Keys
    && forall k :: k in c.mints && k != changed ==> c'.mints[k] == c.mints[k]
  }

  /** May `authority` move `amount` out of `a`? A delegate is checked first,
      against its remaining allowance; anyone else must be the owner. */
  predicate MaySpend(a: TokenAccount, authority: Key, amount: nat) {
    if a.delegate == Some(authority) then a.delegatedAmount >= amount else authority == a.owner
  }

  /** `a` after `authority` took `amount` out of it; a delegate's allowance
      shrinks by the amount and the delegate is dropped once it is used up. */
  function Spend(a: TokenAccount, authority: Key, amount: nat): (r: TokenAccount)
    requires a.amount >= amount && MaySpend(a, authority, amount)
    ensures r.amount + amount == a.amount
    ensures r.mint == a.mint && r.owner == a.owner && r.closeAuthority == a.closeAuthority
  {
    var debited := a.(amount := a.amount - amount);
    if a.delegate == Some(authority) then
      var left := a.delegatedAmount - amount;
      debited.(delegatedAmount := left, delegate := if left == 0 then None else a.delegate)
    else
      debited
  }

  /** Create a mint with no supply. */
  function CreateMint(c: Chain, mint: Key, decimals: nat, mintAuthority: Key, freezeAuthority: Key)
    : (r: Result<Chain, Error>)
    ensures r.Ok? <==> !c.Exists(mint)
    ensures r.Ok? ==> && r.value.mints == c.mints[mint := Mint(0, decimals, Some(mintAuthority), Some(freezeAuthority))]
                      && r.value.tokens == c.tokens && r.value.vaults == c.vaults && r.value.prices == c.prices
  {
    if c.Exists(mint) then Err(AccountExists)
    else Ok(c.(mints := c.mints[mint := Mint(0, decimals, Some(mintAuthority), Some(freezeAuthority))]))
  }

  /** Create an empty token account of an existing mint. */
  function CreateTokenAccount(c: Chain, account: Key, mint: Key, owner: Key): (r: Result<Chain, Error>)
    ensures r.Ok? <==> !c.Exists(account) && mint in c.mints
    ensures r.Ok? ==> && r.value.tokens == c.tokens[account := TokenAccount(mint, owner, 0, None, 0, None)]
                      && r.value.mints == c.mints && r.value.vaults == c.vaults && r.value.prices == c.prices
  {
    if c.Exists(account) then Err(AccountExists)
    else if mint !in c.mints then Err(AccountMissing)
    else Ok(c.(tokens := c.tokens[account := TokenAccount(mint, owner, 0, None, 0, None)]))
  }

  /** Allocate the zero-filled record of a vault account. */
  function CreateVaultAccount(c: Chain, vault: Key): (r: Result<Chain, Error>)
    ensures r.Ok? <==> !c.Exists(vault)
    ensures r.Ok? ==> && r.value.vaults == c.vaults[vault := BlankVault]
                      && r.value.mints == c.mints && r.value.tokens == c.tokens && r.value.prices == c.prices
  {
    if c.Exists(vault) then Err(AccountExists)
    else Ok(c.(vaults := c.vaults[vault := BlankVault]))
  }

  /** The owner lets `delegate` move up to `amount` out of `account`. */
  function Approve(c: Chain, account: Key, delegate: Key, owner: Key, amount: nat): (r: Result<Chain, Error>)
    ensures r.Ok? <==> account in c.tokens && c.tokens[account].owner == owner
    ensures r.Ok? ==> && TokensFramed(c, r.value, {account})
                      && r.value.tokens
                         == c.tokens[account := c.tokens[account].(delegate := Some(delegate), delegatedAmount := amount)]
                      && r.value.mints == c.mints && r.value.vaults == c.vaults && r.value.prices == c.prices
  {
    if account !in c.tokens then Err(AccountMissing)
    else if c.tokens[account].owner != owner then Err(OwnerMismatch)
    else Ok(c.(tokens := c.tokens[account := c.tokens[account].(delegate := Some(delegate), delegatedAmount := amount)]))
  }

  /** Can `authority` mint tokens of `mint` into `destination`? */
  predicate MintReady(c: Chain, mint: Key, destination: Key, authority: Key) {
    && mint in c.mints && destination in c.tokens
    && c.tokens[destination].mint == mint
    && c.mints[mint].mintAuthority == Some(authority)
  }

  /** Mint `amount` new tokens into `destination`, signed by the mint authority. */
  function MintTo(c: Chain, mint: Key, destination: Key, authority: Key, amount: nat): (r: Result<Chain, Error>)
    ensures r.Ok? <==> MintReady(c, mint, destination, authority)
    ensures r.Ok? ==> && MintsFramed(c, r.value, mint) && TokensFramed(c, r.value, {destination})
                      && r.value.mints[mint].supply == c.mints[mint].supply + amount
                      && r.value.mints[mint] == c.mints[mint].(supply := r.value.mints[mint].supply)
                      && r.value.tokens[destination].amount == c.tokens[destination].amount + amount
                      && r.value.tokens[destination]
                         == c.tokens[destination].(amount := r.value.tokens[destination].amount)
                      && r.value.vaults == c.vaults && r.value.prices == c.prices
  {
    if mint !in c.mints || destination !in c.tokens then Err(AccountMissing)
    else if c.tokens[destination].mint != mint then Err(MintMismatch)
    else if c.mints[mint].mintAuthority != Some(authority) then Err(AuthorityMismatch)
    else
      var m := c.mints[mint];
      var d := c.tokens[destination];
      Ok(c.(mints := c.mints[mint := m.(supply := m.supply + amount)],
            tokens := c.tokens[destination := d.(amount := d.amount + amount)]))
  }

  /** Move `amount` between two accounts of the same mint; a transfer from
      an account to itself moves nothing. */
  function Transfer(c: Chain, source: Key, destination: Key, authority: Key, amount: nat): (r: Result<Chain, Error>)
    ensures r.Ok? <==> && source in c.tokens && destination in c.tokens
                       && c.tokens[source].mint == c.tokens[destination].mint
                       && c.tokens[source].amount >= amount
                       && MaySpend(c.tokens[source], authority, amount)
    ensures r.Ok? && source == destination ==> r.value == c
    ensures r.Ok? && source != destination ==>
              && TokensFramed(c, r.value, {source, destination})
              && r.value.tokens[source] == Spend(c.tokens[source], authority, amount)
              && r.value.tokens[destination].amount == c.tokens[destination].amount + amount
              && r.value.tokens[destination]
                 == c.tokens[destination].(amount := r.value.tokens[destination].amount)
              && r.value.mints == c.mints && r.value.vaults == c.vaults && r.value.prices == c.prices
  {
    if source !in c.tokens || destination !in c.tokens then Err(AccountMissing)
    else if c.tokens[source].mint != c.tokens[destination].mint then Err(MintMismatch)
    else if c.tokens[source].amount < amount then Err(InsufficientFunds)
    else if !MaySpend(c.tokens[source], authority, amount) then Err(OwnerMismatch)
    else if source == destination then Ok(c)
    else
      var d := c.tokens[destination];
      Ok(c.(tokens := c.tokens[source := Spend(c.tokens[source], authority, amount)]
                              [destination := d.(amount := d.amount + amount)]))
  }

  /** Destroy `amount` tokens held in `account`, lowering the mint's supply. */
  function Burn(c: Chain, account: Key, mint: Key, authority: Key, amount: nat): (r: Result<Chain, Error>)
    ensures r.Ok? <==> && account in c.tokens && mint in c.mints
                       && c.tokens[account].mint == mint
                       && c.tokens[account].amount >= amount
                       && MaySpend(c.tokens[account], authority, amount)
                       && c.mints[mint].supply >= amount
    ensures r.Ok? ==> && TokensFramed(c, r.value, {account}) && MintsFramed(c, r.value, mint)
                      && r.value.tokens[account] == Spend(c.tokens[account], authority, amount)
                      && r.value.mints[mint].supply + amount == c.mints[mint].supply
                      && r.value.mints[mint] == c.mints[mint].(supply := r.value.mints[mint].supply)
                      && r.value.vaults == c.vaults && r.value.prices == c.prices
  {
    if account !in c.tokens || mint !in c.mints then Err(AccountMissing)
    else if c.tokens[account].mint != mint then Err(MintMismatch)
    else if c.tokens[account].amount < amount then Err(InsufficientFunds)
    else if !MaySpend(c.tokens[account], authority, amount) then Err(OwnerMismatch)
    else if c.mints[mint].supply < amount then Err(Overflow)
    else
      var m := c.mints[mint];
      Ok(c.(tokens := c.tokens[account := Spend(c.tokens[account], authority, amount)],
            mints := c.mints[mint := m.(supply := m.supply - amount)]))
  }

  /** A transfer between two distinct accounts conserves their total. */
  lemma TransferConserves(c: Chain, source: Key, destination: Key, authority: Key, amount: nat)
    requires Transfer(c, source, destination, authority, amount).Ok?
    ensures var c' := Transfer(c, source, destination, authority, amount).value;
            c'.tokens[source].amount + c'.tokens[destination].amount
            == c.tokens[source].amount + c.tokens[destination].amount
  {
  }
}
