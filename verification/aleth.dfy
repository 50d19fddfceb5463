/** The Aleth (C++ Ethereum) chain specification and its builder,
    newAlethGenesisSpec. */
module Aleth {
  import opened Types
  import opened Registry

  datatype LinearPricing = LinearPricing(base: U64, word: U64)

  /** A precompiled contract definition. */
  datatype Builtin = Builtin(name: string, startingBlock: Option<nat>, linear: Option<LinearPricing>)

  /** A balance stays nil (`None`) on an entry created for a builtin. */
  type AlethTable = Table<Option<nat>, Builtin>

  datatype Params = Params(
    accountStartNonce: U64,
    maximumExtraDataSize: U64,
    homesteadForkBlock: Option<nat>,
    daoHardforkBlock: U64,
    eip150ForkBlock: Option<nat>,
    eip158ForkBlock: Option<nat>,
    byzantiumForkBlock: Option<nat>,
    constantinopleForkBlock: Option<nat>,
    constantinopleFixForkBlock: Option<nat>,
    istanbulForkBlock: Option<nat>,
    minGasLimit: U64,
    maxGasLimit: U64,
    tieBreakingGas: bool,
    gasLimitBoundDivisor: U64,
    minimumDifficulty: nat,
    difficultyBoundDivisor: nat,
    durationLimit: nat,
    blockReward: nat,
    networkID: U64,
    chainID: U64,
    allowFutureBlocks: bool)

  datatype Header = Header(
    nonce: U64,
    difficulty: nat,
    mixHash: Hash,
    author: Address,
    timestamp: U64,
    parentHash: Hash,
    extraData: seq<Byte>,
    gasLimit: U64)

  datatype Spec = Spec(sealEngine: string, params: Params, genesis: Header, accounts: AlethTable)

  /** What the builder dereferences without a nil check once the engine is
      known to be Ethash. */
  predicate Readable(g: Genesis)
  {
    g.config.ethash ==> g.config.chainID.Some?
  }

  // ---------------------------------------------------------------------
  // The account table

  /** setPrecompile: the entry at the one-byte address gets exactly `data`;
      an existing balance and nonce stay, a new entry has neither. */
  function SetPrecompile(t: AlethTable, address: Byte, data: Builtin): (r: AlethTable)
    ensures r.Some?
    ensures Entries(r).Keys == Entries(t).Keys + {AddressOf(address)}
    ensures Entries(r)[AddressOf(address)].builtin == Some(data)
    ensures AddressOf(address) in Entries(t) ==>
              && Entries(r)[AddressOf(address)].balance == Entries(t)[AddressOf(address)].balance
              && Entries(r)[AddressOf(address)].nonce == Entries(t)[AddressOf(address)].nonce
    ensures AddressOf(address) !in Entries(t) ==>
              Entries(r)[AddressOf(address)].balance == None && Entries(r)[AddressOf(address)].nonce == 0
    ensures forall a :: a in Entries(t) && a != AddressOf(address) ==> Entries(r)[a] == Entries(t)[a]
  {
    SetBuiltin(t, address, data, None)
  }

  /** setAccount: the entry at `address` takes the allocation's balance and
      nonce and keeps any builtin it already had. */
  function SetAccount(t: AlethTable, address: Address, account: GenesisAccount): (r: AlethTable)
    ensures r.Some?
    ensures Entries(r).Keys == Entries(t).Keys + {address}
    ensures Entries(r)[address].balance == Some(account.balance)
    ensures Entries(r)[address].nonce == account.nonce
    ensures Entries(r)[address].builtin == (if address in Entries(t) then Entries(t)[address].builtin else None)
    ensures forall a :: a in Entries(t) && a != address ==> Entries(r)[a] == Entries(t)[a]
  {
    var m := Entries(t);
    Some(m[address := Existing(m, address, None).(balance := Some(account.balance), nonce := account.nonce)])
  }

  /** The table after setAccount has been applied to every allocation entry,
      in whatever order. */
  function AllocTable(t: AlethTable, alloc: map<Address, GenesisAccount>): (r: AlethTable)
    ensures Entries(r).Keys == Entries(t).Keys + alloc.Keys
    ensures r.None? <==> t.None? && alloc.Keys == {}
  {
    assert |alloc| == 0 <==> alloc.Keys == {} by {
      if alloc.Keys == {} { assert alloc == map[]; }
    }
    if t.None? && |alloc| == 0 then None
    else Some(Loading(Entries(t), alloc))
  }

  /** The map AllocTable holds once it exists. */
  function Loading(m: Accounts<Option<nat>, Builtin>, alloc: map<Address, GenesisAccount>): (r: Accounts<Option<nat>, Builtin>)
    ensures r.Keys == m.Keys + alloc.Keys
    ensures forall a :: a in alloc ==>
              r[a] == Account(Some(alloc[a].balance), alloc[a].nonce, Existing(m, a, None).builtin)
    ensures forall a :: a in m && a !in alloc ==> r[a] == m[a]
  {
    map a | a in m.Keys + alloc.Keys ::
      if a in alloc then Account(Some(alloc[a].balance), alloc[a].nonce, Existing(m, a, None).builtin)
      else m[a]
  }

  /** After the loop has visited the keys in `done`: those entries carry
      their allocation's balance and nonce, every other entry is untouched,
      and the map exists once anything has been written. */
  ghost predicate Loaded(t: AlethTable, alloc: map<Address, GenesisAccount>, done: set<Address>, r: AlethTable)
  {
    && done <= alloc.Keys
    && (r.None? <==> t.None? && done == {})
    && Entries(r).Keys == Entries(t).Keys + done
    && (forall a :: a in done ==>
          Entries(r)[a] == Account(Some(alloc[a].balance), alloc[a].nonce, Existing(Entries(t), a, None).builtin))
    && (forall a :: a in Entries(t) && a !in done ==> Entries(r)[a] == Entries(t)[a])
  }

  lemma LoadedStep(t: AlethTable, alloc: map<Address, GenesisAccount>, done: set<Address>, r: AlethTable, a: Address)
    requires Loaded(t, alloc, done, r) && a in alloc && a !in done
    ensures Loaded(t, alloc, done + {a}, SetAccount(r, a, alloc[a]))
  {
  }

  lemma LoadedAll(t: AlethTable, alloc: map<Address, GenesisAccount>, r: AlethTable)
    requires Loaded(t, alloc, alloc.Keys, r)
    ensures Entries(r).Keys == Entries(t).Keys + alloc.Keys
    ensures forall a :: a in alloc ==>
              Entries(r)[a].balance == Some(alloc[a].balance) && Entries(r)[a].nonce == alloc[a].nonce
    ensures forall a :: a in Entries(t) ==> Entries(r)[a].builtin == Entries(t)[a].builtin
    ensures forall a :: a in alloc && a !in Entries(t) ==> Entries(r)[a].builtin == None
    ensures forall a :: a in Entries(t) && a !in alloc ==> Entries(r)[a] == Entries(t)[a]
    ensures r.None? <==> t.None? && alloc.Keys == {}
    ensures r == AllocTable(t, alloc)
  {
    if r.Some? {
      assert Entries(r) == Entries(AllocTable(t, alloc));
    }
  }

  /** setAccount applied to allocated addresses in the order `keys`, one
      order Go's map iteration may take. */
  function SetAccounts(t: AlethTable, alloc: map<Address, GenesisAccount>, keys: seq<Address>): (r: AlethTable)
    requires forall i :: 0 <= i < |keys| ==> keys[i] in alloc
    ensures Entries(r).Keys == AddAll(Entries(t).Keys, keys)
    ensures r.None? <==> t.None? && |keys| == 0
    decreases |keys|
  {
    if |keys| == 0 then t
    else SetAccounts(SetAccount(t, keys[0], alloc[keys[0]]), alloc, keys[1..])
  }

  /** Visiting fresh keys in any order extends the visited set by them. */
  lemma {:induction false} SetAccountsLoads(t: AlethTable, alloc: map<Address, GenesisAccount>, done: set<Address>,
                                            r: AlethTable, keys: seq<Address>)
    requires Loaded(t, alloc, done, r)
    requires forall i :: 0 <= i < |keys| ==> keys[i] in alloc && keys[i] !in done
    requires forall i, j :: 0 <= i < j < |keys| ==> keys[i] != keys[j]
    ensures Loaded(t, alloc, AddAll(done, keys), SetAccounts(r, alloc, keys))
    decreases |keys|
  {
    if |keys| > 0 {
      var a, rest := keys[0], keys[1..];
      LoadedStep(t, alloc, done, r, a);
      forall i | 0 <= i < |rest| ensures rest[i] in alloc && rest[i] !in done + {a} {
        assert rest[i] == keys[i + 1];
      }
      SetAccountsLoads(t, alloc, done + {a}, SetAccount(r, a, alloc[a]), rest);
    }
  }

  /** Every visiting order gives the same table, AllocTable. */
  lemma AnyOrder(t: AlethTable, alloc: map<Address, GenesisAccount>, keys: seq<Address>)
    requires Enumerates(keys, alloc)
    ensures SetAccounts(t, alloc, keys) == AllocTable(t, alloc)
  {
    assert Loaded(t, alloc, {}, t);
    SetAccountsLoads(t, alloc, {}, t, keys);
    AddAllElements({}, keys);
    assert AddAll({}, keys) == alloc.Keys;
    LoadedAll(t, alloc, SetAccounts(t, alloc, keys));
  }

  /** The loop over the allocation (Go visits map keys in no fixed order):
      whichever order is taken, each allocated address ends up with its
      balance and nonce, builtins already present survive, and the outcome
      is AllocTable. */
  method LoadAlloc(t: AlethTable, alloc: map<Address, GenesisAccount>) returns (r: AlethTable)
    ensures Entries(r).Keys == Entries(t).Keys + alloc.Keys
    ensures forall a :: a in alloc ==>
              Entries(r)[a].balance == Some(alloc[a].balance) && Entries(r)[a].nonce == alloc[a].nonce
    ensures forall a :: a in Entries(t) ==> Entries(r)[a].builtin == Entries(t)[a].builtin
    ensures forall a :: a in alloc && a !in Entries(t) ==> Entries(r)[a].builtin == None
    ensures forall a :: a in Entries(t) && a !in alloc ==> Entries(r)[a] == Entries(t)[a]
    ensures r.None? <==> t.None? && alloc.Keys == {}
    ensures r == AllocTable(t, alloc)
  {
    r := t;
    var rest := alloc.Keys;
    while rest != {}
      invariant rest <= alloc.Keys
      invariant Loaded(t, alloc, alloc.Keys - rest, r)
      decreases rest
    {
      var a :| a in rest;
      LoadedStep(t, alloc, alloc.Keys - rest, r, a);
      r := SetAccount(r, a, alloc[a]);
      assert alloc.Keys - (rest - {a}) == (alloc.Keys - rest) + {a};
      rest := rest - {a};
    }
    LoadedAll(t, alloc, r);
  }

  // ---------------------------------------------------------------------
  // The precompile phases

  const Ecrecover := Builtin("ecrecover", None, Some(LinearPricing(3000, 0)))
  const Sha256 := Builtin("sha256", None, Some(LinearPricing(60, 12)))
  const Ripemd160 := Builtin("ripemd160", None, Some(LinearPricing(600, 120)))
  const Identity := Builtin("identity", None, Some(LinearPricing(15, 3)))

  /** Addresses 1 to 4, installed unconditionally. */
  function BaseTable(): map<Address, Builtin>
  {
    map[AddressOf(1) := Ecrecover, AddressOf(2) := Sha256, AddressOf(3) := Ripemd160, AddressOf(4) := Identity]
  }

  /** Addresses 5 to 8, all starting at the Byzantium block. */
  function ByzantiumTable(byzantium: nat): map<Address, Builtin>
  {
    map[AddressOf(5) := Builtin("modexp", Some(byzantium), None),
        AddressOf(6) := Builtin("alt_bn128_G1_add", Some(byzantium), Some(LinearPricing(500, 0))),
        AddressOf(7) := Builtin("alt_bn128_G1_mul", Some(byzantium), Some(LinearPricing(40000, 0))),
        AddressOf(8) := Builtin("alt_bn128_pairing_product", Some(byzantium), None)]
  }

  /** At Istanbul Aleth prices the curve additions itself, so 6 and 7 lose
      their linear pricing (still starting at Byzantium), and blake2 arrives. */
  function IstanbulTable(byzantium: nat, istanbul: nat): map<Address, Builtin>
  {
    map[AddressOf(6) := Builtin("alt_bn128_G1_add", Some(byzantium), None),
        AddressOf(7) := Builtin("alt_bn128_G1_mul", Some(byzantium), None),
        AddressOf(9) := Builtin("blake2_compression", Some(istanbul), None)]
  }

  /** The setPrecompile calls of each phase, in the order the builder makes them. */
  function BaseEntries(): seq<(Byte, Builtin)>
  {
    [(1, Ecrecover), (2, Sha256), (3, Ripemd160), (4, Identity)]
  }

  function ByzantiumEntries(byzantium: nat): seq<(Byte, Builtin)>
  {
    var b := Some(byzantium);
    [(5, Builtin("modexp", b, None)),
     (6, Builtin("alt_bn128_G1_add", b, Some(LinearPricing(500, 0)))),
     (7, Builtin("alt_bn128_G1_mul", b, Some(LinearPricing(40000, 0)))),
     (8, Builtin("alt_bn128_pairing_product", b, None))]
  }

  function IstanbulEntries(byzantium: nat, istanbul: nat): seq<(Byte, Builtin)>
  {
    [(6, Builtin("alt_bn128_G1_add", Some(byzantium), None)),
     (7, Builtin("alt_bn128_G1_mul", Some(byzantium), None)),
     (9, Builtin("blake2_compression", Some(istanbul), None))]
  }

  function InstallBase(t: AlethTable): (r: AlethTable)
    ensures r.Some?
    ensures Installed(Entries(t), Entries(r), BaseTable(), None)
  {
    TableOfFour(BaseEntries());
    InstallPhase(t, BaseEntries(), BaseTable(), None);
    var r := InstallAll(t, BaseEntries(), None);
    assert AddressOf(1) in Entries(r);
    r
  }

  function InstallByzantium(t: AlethTable, byzantium: nat): (r: AlethTable)
    ensures r.Some?
    ensures Installed(Entries(t), Entries(r), ByzantiumTable(byzantium), None)
  {
    TableOfFour(ByzantiumEntries(byzantium));
    InstallPhase(t, ByzantiumEntries(byzantium), ByzantiumTable(byzantium), None);
    var r := InstallAll(t, ByzantiumEntries(byzantium), None);
    assert AddressOf(5) in Entries(r);
    r
  }

  function InstallIstanbul(t: AlethTable, byzantium: nat, istanbul: nat): (r: AlethTable)
    ensures r.Some?
    ensures Installed(Entries(t), Entries(r), IstanbulTable(byzantium, istanbul), None)
  {
    TableOfThree(IstanbulEntries(byzantium, istanbul));
    InstallPhase(t, IstanbulEntries(byzantium, istanbul), IstanbulTable(byzantium, istanbul), None);
    var r := InstallAll(t, IstanbulEntries(byzantium, istanbul), None);
    assert AddressOf(9) in Entries(r);
    r
  }

  // ---------------------------------------------------------------------
  // The builder

  /** The parameters: network id equal to the (truncated) chain id, each
      fork field the genesis fork block, with Petersburg feeding the
      ConstantinopleFix field, and the DAO fork pinned at 0. */
  function ParamsOf(proto: Protocol, c: ChainConfig): (r: Params)
    requires c.chainID.Some?
    ensures r.networkID == r.chainID && (c.chainID.value < TwoTo64 ==> r.chainID == c.chainID.value)
    ensures && r.homesteadForkBlock == c.homesteadBlock && r.eip150ForkBlock == c.eip150Block
            && r.eip158ForkBlock == c.eip158Block && r.byzantiumForkBlock == c.byzantiumBlock
            && r.constantinopleForkBlock == c.constantinopleBlock
            && r.constantinopleFixForkBlock == c.petersburgBlock && r.istanbulForkBlock == c.istanbulBlock
    ensures r.daoHardforkBlock == 0 && r.maxGasLimit == MaxInt64
  {
    Params(
      accountStartNonce := 0,
      maximumExtraDataSize := proto.maximumExtraDataSize,
      homesteadForkBlock := c.homesteadBlock,
      daoHardforkBlock := 0,
      eip150ForkBlock := c.eip150Block,
      eip158ForkBlock := c.eip158Block,
      byzantiumForkBlock := c.byzantiumBlock,
      constantinopleForkBlock := c.constantinopleBlock,
      constantinopleFixForkBlock := c.petersburgBlock,
      istanbulForkBlock := c.istanbulBlock,
      minGasLimit := proto.minGasLimit,
      maxGasLimit := MaxInt64,
      tieBreakingGas := false,
      gasLimitBoundDivisor := proto.gasLimitBoundDivisor,
      minimumDifficulty := proto.minimumDifficulty,
      difficultyBoundDivisor := proto.difficultyBoundDivisor,
      durationLimit := proto.durationLimit,
      blockReward := proto.frontierBlockReward,
      networkID := Uint64(c.chainID.value),
      chainID := Uint64(c.chainID.value),
      allowFutureBlocks := false)
  }

  /** The genesis header, copied field by field. */
  function HeaderOf(g: Genesis): Header
  {
    Header(g.nonce, g.difficulty, g.mixhash, g.coinbase, g.timestamp, g.parentHash, g.extraData, g.gasLimit)
  }

  /** The header loses exactly the configuration and the allocation: two
      genesis values have the same header if and only if they agree on every
      other field. */
  lemma HeaderKeepsFields(g1: Genesis, g2: Genesis)
    ensures HeaderOf(g1) == HeaderOf(g2) <==> g1.(config := g2.config, alloc := g2.alloc) == g2
  {
  }

  /** newAlethGenesisSpec. It fails on a non-Ethash engine before reading
      anything else, and on Istanbul without Byzantium after building
      everything up to the Istanbul precompiles, discarding that work. */
  function NewAlethGenesisSpec(proto: Protocol, g: Genesis): (r: Result<Spec, Error>)
    requires Readable(g)
    ensures r == Failure(UnsupportedConsensusEngine) <==> !g.config.ethash
    ensures r == Failure(IstanbulWithoutByzantium) <==> g.config.ethash && BreaksForkDependency(g.config)
    ensures r.Success? <==> g.config.ethash && !BreaksForkDependency(g.config)
  {
    if !g.config.ethash then Failure(UnsupportedConsensusEngine)
    else
      var c := g.config;
      var s0 := Spec("Ethash", ParamsOf(proto, c), HeaderOf(g), None);
      var s1 := s0.(accounts := AllocTable(s0.accounts, g.alloc));
      var s2 := s1.(accounts := InstallBase(s1.accounts));
      var s3 := if c.byzantiumBlock.Some? then s2.(accounts := InstallByzantium(s2.accounts, c.byzantiumBlock.value)) else s2;
      if c.istanbulBlock.Some? then
        if c.byzantiumBlock.None? then Failure(IstanbulWithoutByzantium)
        else Success(s3.(accounts := InstallIstanbul(s3.accounts, c.byzantiumBlock.value, c.istanbulBlock.value)))
      else Success(s3)
  }

  // ---------------------------------------------------------------------
  // Properties of the built spec

  /** The builtin Aleth expects at each address, read off the fork schedule
      address by address rather than phase by phase. */
  function PrecompileAt(c: ChainConfig, a: Address): Option<Builtin>
  {
    if a == 1 then Some(Ecrecover)
    else if a == 2 then Some(Sha256)
    else if a == 3 then Some(Ripemd160)
    else if a == 4 then Some(Identity)
    else if c.byzantiumBlock.None? || a == 0 || a > 9 then None
    else
      var b := c.byzantiumBlock;
      var istanbul := c.istanbulBlock.Some?;
      if a == 5 then Some(Builtin("modexp", b, None))
      else if a == 6 then Some(Builtin("alt_bn128_G1_add", b, if istanbul then None else Some(LinearPricing(500, 0))))
      else if a == 7 then Some(Builtin("alt_bn128_G1_mul", b, if istanbul then None else Some(LinearPricing(40000, 0))))
      else if a == 8 then Some(Builtin("alt_bn128_pairing_product", b, None))
      else if istanbul then Some(Builtin("blake2_compression", c.istanbulBlock, None))
      else None
  }

  /** The union of the phase tables the builder installs. */
  function PhaseTables(c: ChainConfig): map<Address, Builtin>
  {
    var byz := if c.byzantiumBlock.Some? then ByzantiumTable(c.byzantiumBlock.value) else map[];
    var ist := if c.byzantiumBlock.Some? && c.istanbulBlock.Some?
               then IstanbulTable(c.byzantiumBlock.value, c.istanbulBlock.value) else map[];
    BaseTable() + byz + ist
  }

  lemma PhaseTablesMatch(c: ChainConfig)
    requires !BreaksForkDependency(c)
    ensures forall a :: a in PhaseTables(c) <==> PrecompileAt(c, a).Some?
    ensures forall a :: a in PhaseTables(c) ==> PhaseTables(c)[a] == PrecompileAt(c, a).value
  {
    forall a
      ensures a in PhaseTables(c) <==> PrecompileAt(c, a).Some?
      ensures a in PhaseTables(c) ==> PhaseTables(c)[a] == PrecompileAt(c, a).value
    {
      if c.byzantiumBlock.None? {
        assert PhaseTables(c) == BaseTable();
      } else if c.istanbulBlock.None? {
        assert PhaseTables(c) == BaseTable() + ByzantiumTable(c.byzantiumBlock.value);
      }
    }
  }

  /** The builder's account table is the allocation with the phase tables
      upserted on top. */
  lemma AccountsInstalled(proto: Protocol, g: Genesis)
    requires Readable(g) && g.config.ethash && !BreaksForkDependency(g.config)
    ensures NewAlethGenesisSpec(proto, g).Success?
    ensures Installed(Entries(AllocTable(None, g.alloc)), Entries(NewAlethGenesisSpec(proto, g).value.accounts),
                      PhaseTables(g.config), None)
  {
    var c := g.config;
    var t0 := AllocTable(None, g.alloc);
    var t1 := InstallBase(t0);
    var t2 := if c.byzantiumBlock.Some? then InstallByzantium(t1, c.byzantiumBlock.value) else t1;
    var t3 := if c.istanbulBlock.Some? then InstallIstanbul(t2, c.byzantiumBlock.value, c.istanbulBlock.value) else t2;
    var byz := if c.byzantiumBlock.Some? then ByzantiumTable(c.byzantiumBlock.value) else map[];
    var ist := if c.byzantiumBlock.Some? && c.istanbulBlock.Some?
               then IstanbulTable(c.byzantiumBlock.value, c.istanbulBlock.value) else map[];
    if c.byzantiumBlock.None? {
      InstalledNothing(Entries(t1), None);
    }
    InstalledCompose(Entries(t0), Entries(t1), Entries(t2), BaseTable(), byz, None);
    if c.istanbulBlock.None? {
      InstalledNothing(Entries(t2), None);
    }
    InstalledCompose(Entries(t0), Entries(t2), Entries(t3), BaseTable() + byz, ist, None);
    assert NewAlethGenesisSpec(proto, g).value.accounts == t3;
  }

  /** The account table a successful build promises: the allocation's
      accounts with their balances and nonces, plus exactly the builtins
      PrecompileAt names; a builtin-only entry has no balance and nonce 0. */
  ghost predicate TableMatches(c: ChainConfig, alloc: map<Address, GenesisAccount>, acc: Accounts<Option<nat>, Builtin>)
  {
    && (forall a :: a in acc <==> a in alloc || PrecompileAt(c, a).Some?)
    && (forall a :: a in acc ==> acc[a].builtin == PrecompileAt(c, a))
    && (forall a :: a in alloc ==> acc[a].balance == Some(alloc[a].balance) && acc[a].nonce == alloc[a].nonce)
    && (forall a :: a in acc && a !in alloc ==> acc[a].balance == None && acc[a].nonce == 0)
  }

  /** The account table of a successful build. */
  lemma AccountTable(proto: Protocol, g: Genesis)
    requires Readable(g) && g.config.ethash && !BreaksForkDependency(g.config)
    ensures NewAlethGenesisSpec(proto, g).Success?
    ensures TableMatches(g.config, g.alloc, Entries(NewAlethGenesisSpec(proto, g).value.accounts))
  {
    AccountsInstalled(proto, g);
    PhaseTablesMatch(g.config);
    TableFromPhases(g.config, g.alloc, PhaseTables(g.config), Entries(NewAlethGenesisSpec(proto, g).value.accounts));
  }

  lemma TableFromPhases(c: ChainConfig, alloc: map<Address, GenesisAccount>, table: map<Address, Builtin>,
                        acc: Accounts<Option<nat>, Builtin>)
    requires forall a :: a in table <==> PrecompileAt(c, a).Some?
    requires forall a :: a in table ==> table[a] == PrecompileAt(c, a).value
    requires Installed(Entries(AllocTable(None, alloc)), acc, table, None)
    ensures TableMatches(c, alloc, acc)
  {
    var m0 := Entries(AllocTable(None, alloc));
    assert forall a :: a in m0 <==> a in alloc;
    assert forall a :: a in m0 ==> m0[a] == Account(Some(alloc[a].balance), alloc[a].nonce, None);
    InstalledOnto(m0, acc, table, None);
    forall a | a in acc
      ensures acc[a].builtin == PrecompileAt(c, a)
    {
      if a !in table {
        assert PrecompileAt(c, a).None?;
      }
    }
  }

  /** The parameters and header of a successful build: fixed defaults, the
      DAO fork pinned at 0, the network id equal to the (truncated) chain id,
      each fork field present exactly when its genesis fork is (Petersburg
      feeding the ConstantinopleFix field), protocol constants and header
      fields copied. */
  lemma ParamsAndHeader(proto: Protocol, g: Genesis)
    requires Readable(g) && g.config.ethash && !BreaksForkDependency(g.config)
    ensures NewAlethGenesisSpec(proto, g).Success?
    ensures var s := NewAlethGenesisSpec(proto, g).value; var p := s.params; var c := g.config;
            && s.sealEngine == "Ethash"
            && p.accountStartNonce == 0 && p.daoHardforkBlock == 0
            && !p.tieBreakingGas && !p.allowFutureBlocks
            && p.chainID == Uint64(c.chainID.value) && p.networkID == p.chainID
            && p.homesteadForkBlock == c.homesteadBlock
            && p.eip150ForkBlock == c.eip150Block
            && p.eip158ForkBlock == c.eip158Block
            && p.byzantiumForkBlock == c.byzantiumBlock
            && p.constantinopleForkBlock == c.constantinopleBlock
            && p.constantinopleFixForkBlock == c.petersburgBlock
            && p.istanbulForkBlock == c.istanbulBlock
            && p.maxGasLimit == MaxInt64
            && p.maximumExtraDataSize == proto.maximumExtraDataSize && p.minGasLimit == proto.minGasLimit
            && p.gasLimitBoundDivisor == proto.gasLimitBoundDivisor && p.minimumDifficulty == proto.minimumDifficulty
            && p.difficultyBoundDivisor == proto.difficultyBoundDivisor && p.durationLimit == proto.durationLimit
            && p.blockReward == proto.frontierBlockReward
            && s.genesis == Header(g.nonce, g.difficulty, g.mixhash, g.coinbase, g.timestamp, g.parentHash, g.extraData, g.gasLimit)
  {
  }
}
