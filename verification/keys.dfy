/** Public keys, keypairs and the vault's program-derived authority. */
module Keys {

  /** A public key. `Plain` keys belong to a keypair, `Pda(v)` is the
      authority derived from vault address `v` (seeds: program prefix,
      program id, vault address), and `Default` is the all-zero key that the
      address fields of a freshly allocated, zero-filled account read as. */
  datatype Key = Plain(id: nat) | Pda(vault: Key) | Default

  /** A keypair; freshly generated ones are supplied by the caller as
      unused ids instead of being drawn at random. */
  datatype Keypair = Keypair(id: nat) {
    function PublicKey(): Key {
      Plain(id)
    }
  }

  /** The vault's derived authority: mint and freeze authority of the
      fraction mint, owner of both treasuries, burn authority at combine. */
  function PdaForVault(vault: Key): Key {
    Pda(vault)
  }
}
