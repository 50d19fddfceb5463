/** Properties that relate the three builders to one another and to the
    genesis they read. */
module Translator {
  import opened Types
  import opened Registry
  import Aleth
  import Parity
  import PyEthereum

  /** All three builders refuse a non-Ethash genesis with the same error, and
      do so whatever the fork schedule holds: none of them reads a fork
      field first (their preconditions are void without Ethash). */
  lemma UnsupportedEngineRejected(proto: Protocol, toLower: string -> string, network: string, g: Genesis,
                                  bootnodes: seq<string>)
    requires !g.config.ethash
    ensures Aleth.NewAlethGenesisSpec(proto, g) == Failure(UnsupportedConsensusEngine)
    ensures Parity.NewParityChainSpec(proto, toLower, network, g, bootnodes) == Failure(UnsupportedConsensusEngine)
    ensures PyEthereum.NewPyEthereumGenesisSpec(g) == Failure(UnsupportedConsensusEngine)
    ensures Message(Aleth.NewAlethGenesisSpec(proto, g).error) == "unsupported consensus engine"
    ensures Message(Parity.NewParityChainSpec(proto, toLower, network, g, bootnodes).error)
            == "unsupported consensus engine"
    ensures Message(PyEthereum.NewPyEthereumGenesisSpec(g).error) == "unsupported consensus engine"
  {
  }

  /** Istanbul without Byzantium: Aleth and Parity refuse with the fork
      dependency error and return no spec, PyEthereum builds its spec. Aleth
      needs only the chain id; the Parity half also needs the fork blocks
      Parity reads unchecked. */
  lemma ForkDependencyVerdicts(proto: Protocol, toLower: string -> string, network: string, g: Genesis,
                               bootnodes: seq<string>)
    requires Aleth.Readable(g) && g.config.ethash && BreaksForkDependency(g.config)
    ensures Aleth.NewAlethGenesisSpec(proto, g) == Failure(IstanbulWithoutByzantium)
    ensures Message(Aleth.NewAlethGenesisSpec(proto, g).error)
            == "invalid genesis, istanbul fork is enabled while byzantium is not"
    ensures Parity.Readable(g) ==>
              && Parity.NewParityChainSpec(proto, toLower, network, g, bootnodes) == Failure(IstanbulWithoutByzantium)
              && Message(Parity.NewParityChainSpec(proto, toLower, network, g, bootnodes).error)
                 == "invalid genesis, istanbul fork is enabled while byzantium is not"
    ensures PyEthereum.NewPyEthereumGenesisSpec(g).Success?
  {
  }

  /** The addresses that carry a builtin are exactly `lo` to `hi`. */
  ghost predicate BuiltinsExactly<Bal, B>(acc: Accounts<Bal, B>, lo: Address, hi: Address)
  {
    forall a: Address :: (a in acc && acc[a].builtin.Some?) <==> lo <= a <= hi
  }

  /** Aleth's curve additions at 0x06 and 0x07 start at Byzantium and carry
      no linear pricing. */
  ghost predicate AlethIstanbulCurve(acc: Accounts<Option<nat>, Aleth.Builtin>, byzantium: Option<nat>)
  {
    forall a: Address :: a == 6 || a == 7 ==>
      a in acc && acc[a].builtin.Some? && acc[a].builtin.value.linear == None
      && acc[a].builtin.value.startingBlock == byzantium
  }

  /** Parity's curve builtins at 0x06 to 0x08 activate at Byzantium with a
      two-version price table switching at Istanbul. */
  ghost predicate ParityIstanbulCurve(acc: Accounts<nat, Parity.Builtin>, byzantium: Option<nat>, istanbul: nat)
  {
    forall a: Address :: 6 <= a <= 8 ==>
      a in acc && acc[a].builtin.Some? && acc[a].builtin.value.activateAt == byzantium
      && acc[a].builtin.value.pricing.Versioned?
      && |acc[a].builtin.value.pricing.versions| == 2
      && acc[a].builtin.value.pricing.versions[0].activation == 0
      && acc[a].builtin.value.pricing.versions[1].activation == istanbul
  }

  /** Without Byzantium and Istanbul, Aleth and Parity carry exactly the four
      unconditional builtins, at addresses 1 to 4. The Parity half needs the
      fork blocks Parity reads unchecked. */
  lemma NoForksFourBuiltins(proto: Protocol, toLower: string -> string, network: string, g: Genesis,
                            bootnodes: seq<string>)
    requires Aleth.Readable(g) && g.config.ethash
    requires g.config.byzantiumBlock.None? && g.config.istanbulBlock.None?
    ensures Aleth.NewAlethGenesisSpec(proto, g).Success?
    ensures BuiltinsExactly(Entries(Aleth.NewAlethGenesisSpec(proto, g).value.accounts), 1, 4)
    ensures Parity.Readable(g) ==>
              && Parity.NewParityChainSpec(proto, toLower, network, g, bootnodes).Success?
              && BuiltinsExactly(Entries(Parity.NewParityChainSpec(proto, toLower, network, g, bootnodes).value.accounts), 1, 4)
  {
    Aleth.AccountTable(proto, g);
    AlethBaseOnly(g.config, g.alloc, Entries(Aleth.NewAlethGenesisSpec(proto, g).value.accounts));
    if Parity.Readable(g) {
      Parity.AccountTable(proto, toLower, network, g, bootnodes);
      ParityBaseOnly(g.config, g.alloc, Entries(Parity.NewParityChainSpec(proto, toLower, network, g, bootnodes).value.accounts));
    }
  }

  lemma AlethBaseOnly(c: ChainConfig, alloc: map<Address, GenesisAccount>, acc: Accounts<Option<nat>, Aleth.Builtin>)
    requires Aleth.TableMatches(c, alloc, acc) && c.byzantiumBlock.None?
    ensures BuiltinsExactly(acc, 1, 4)
  {
  }

  lemma ParityBaseOnly(c: ChainConfig, alloc: map<Address, GenesisAccount>, acc: Accounts<nat, Parity.Builtin>)
    requires Parity.TableMatches(c, alloc, acc) && c.byzantiumBlock.None?
    ensures BuiltinsExactly(acc, 1, 4)
  {
  }

  /** With both Byzantium and Istanbul scheduled, the curve-addition
      builtins reused by both phases carry the Istanbul definition: Aleth
      drops their linear pricing, Parity gives them a two-version table. The
      Parity half needs the fork blocks Parity reads unchecked. */
  lemma IstanbulPhaseWins(proto: Protocol, toLower: string -> string, network: string, g: Genesis,
                          bootnodes: seq<string>)
    requires Aleth.Readable(g) && g.config.ethash
    requires g.config.byzantiumBlock.Some? && g.config.istanbulBlock.Some?
    ensures Aleth.NewAlethGenesisSpec(proto, g).Success?
    ensures AlethIstanbulCurve(Entries(Aleth.NewAlethGenesisSpec(proto, g).value.accounts), g.config.byzantiumBlock)
    ensures Parity.Readable(g) ==>
              && Parity.NewParityChainSpec(proto, toLower, network, g, bootnodes).Success?
              && ParityIstanbulCurve(Entries(Parity.NewParityChainSpec(proto, toLower, network, g, bootnodes).value.accounts),
                                     g.config.byzantiumBlock, g.config.istanbulBlock.value)
  {
    Aleth.AccountTable(proto, g);
    AlethIstanbul(g.config, g.alloc, Entries(Aleth.NewAlethGenesisSpec(proto, g).value.accounts));
    if Parity.Readable(g) {
      Parity.AccountTable(proto, toLower, network, g, bootnodes);
      ParityIstanbul(g.config, g.alloc, Entries(Parity.NewParityChainSpec(proto, toLower, network, g, bootnodes).value.accounts));
    }
  }

  lemma AlethIstanbul(c: ChainConfig, alloc: map<Address, GenesisAccount>, acc: Accounts<Option<nat>, Aleth.Builtin>)
    requires Aleth.TableMatches(c, alloc, acc) && c.byzantiumBlock.Some? && c.istanbulBlock.Some?
    ensures AlethIstanbulCurve(acc, c.byzantiumBlock)
  {
  }

  lemma ParityIstanbul(c: ChainConfig, alloc: map<Address, GenesisAccount>, acc: Accounts<nat, Parity.Builtin>)
    requires Parity.TableMatches(c, alloc, acc) && c.byzantiumBlock.Some? && c.istanbulBlock.Some?
    ensures ParityIstanbulCurve(acc, c.byzantiumBlock, c.istanbulBlock.value)
  {
  }

  /** A worked example: chain 1234, Homestead at 0, Byzantium at 10,
      Istanbul at 20 and one allocated account 0x00..01 holding 100. The
      Aleth spec keeps that balance (the address also receives ecrecover),
      has modexp at 0x05 from block 10 and blake2_compression at 0x09 from
      block 20. */
  lemma WorkedExample(proto: Protocol, g: Genesis)
    requires g.config == ChainConfig(Some(1234), Some(0), None, None, None, Some(10), None, None, Some(20), true)
    requires g.alloc.Keys == {1} && g.alloc[1].balance == 100
    ensures Aleth.NewAlethGenesisSpec(proto, g).Success?
    ensures var s := Aleth.NewAlethGenesisSpec(proto, g).value; var acc := Entries(s.accounts);
            && s.params.chainID == 1234 && s.params.networkID == 1234
            && 1 in acc && acc[1].balance == Some(100) && acc[1].builtin == Some(Aleth.Ecrecover)
            && 5 in acc && acc[5].builtin == Some(Aleth.Builtin("modexp", Some(10), None))
            && 9 in acc && acc[9].builtin == Some(Aleth.Builtin("blake2_compression", Some(20), None))
  {
    Aleth.AccountTable(proto, g);
    Aleth.ParamsAndHeader(proto, g);
    var s := Aleth.NewAlethGenesisSpec(proto, g).value;
    ExampleTable(g.config, g.alloc, Entries(s.accounts));
  }

  lemma ExampleTable(c: ChainConfig, alloc: map<Address, GenesisAccount>, acc: Accounts<Option<nat>, Aleth.Builtin>)
    requires c == ChainConfig(Some(1234), Some(0), None, None, None, Some(10), None, None, Some(20), true)
    requires alloc.Keys == {1} && alloc[1].balance == 100
    requires Aleth.TableMatches(c, alloc, acc)
    ensures 1 in acc && acc[1].balance == Some(100) && acc[1].builtin == Some(Aleth.Ecrecover)
    ensures 5 in acc && acc[5].builtin == Some(Aleth.Builtin("modexp", Some(10), None))
    ensures 9 in acc && acc[9].builtin == Some(Aleth.Builtin("blake2_compression", Some(20), None))
  {
    assert 1 in alloc;
    assert Aleth.PrecompileAt(c, 5).Some? && Aleth.PrecompileAt(c, 9).Some?;
  }
}
