/** The PyEthereum genesis specification and its builder,
    newPyEthereumGenesisSpec: the header fields and the allocation, with no
    fork schedule and no builtins. */
module PyEthereum {
  import opened Types

  datatype Spec = Spec(
    nonce: U64,
    timestamp: U64,
    extraData: seq<Byte>,
    gasLimit: U64,
    difficulty: nat,
    mixhash: Hash,
    coinbase: Address,
    alloc: map<Address, GenesisAccount>,
    parentHash: Hash)

  /** newPyEthereumGenesisSpec: refuses only a non-Ethash engine; otherwise
      every header field and the whole allocation (code, storage, balance,
      nonce) carry over unchanged. */
  function NewPyEthereumGenesisSpec(g: Genesis): (r: Result<Spec, Error>)
    ensures r.Success? <==> g.config.ethash
    ensures r.Failure? ==> r.error == UnsupportedConsensusEngine
    ensures r.Success? ==> r.value.alloc == g.alloc
  {
    if !g.config.ethash then Failure(UnsupportedConsensusEngine)
    else Success(Spec(g.nonce, g.timestamp, g.extraData, g.gasLimit, g.difficulty,
                      g.mixhash, g.coinbase, g.alloc, g.parentHash))
  }

  /** A genesis read back out of a PyEthereum spec, given the chain
      configuration the spec does not carry. */
  function ToGenesis(s: Spec, config: ChainConfig): Genesis
  {
    Genesis(config, s.nonce, s.timestamp, s.extraData, s.gasLimit, s.difficulty,
            s.mixhash, s.coinbase, s.alloc, s.parentHash)
  }

  /** Of the modelled genesis fields, nothing but the chain configuration is
      lost: the spec and the configuration give the genesis back. */
  lemma RoundTrip(g: Genesis)
    requires g.config.ethash
    ensures NewPyEthereumGenesisSpec(g).Success?
    ensures ToGenesis(NewPyEthereumGenesisSpec(g).value, g.config) == g
  {
  }

  /** The fork schedule is never read: two Ethash genesis values that differ
      only in their forks give the same spec. */
  lemma IgnoresForks(g1: Genesis, g2: Genesis)
    requires g1.config.ethash && g2.config.ethash
    requires g1.(config := g2.config) == g2
    ensures NewPyEthereumGenesisSpec(g1) == NewPyEthereumGenesisSpec(g2)
  {
  }
}
