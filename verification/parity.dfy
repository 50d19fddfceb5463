/** The Parity chain specification and its builder, newParityChainSpec. */
module Parity {
  import opened Types
  import opened Registry

  datatype LinearPricing = LinearPricing(base: U64, word: U64)

  /** One price of a versioned pricing table. */
  datatype AlternativePrice =
    | AltBnConstOperation(price: U64)
    | AltBnPairingPrice(base: U64, pair: U64)

  /** A price that applies from block `activation` on. */
  datatype PriceVersion = PriceVersion(activation: nat, price: AlternativePrice)

  /** The pricing a builtin advertises: one flat rule, or a versioned table
      that tells a node both the old and the new price of a repricing fork. */
  datatype Pricing =
    | Linear(linear: LinearPricing)
    | ModExp(divisor: U64)
    | AltBnPairing(base: U64, pair: U64)
    | Blake2F(gasPerRound: U64)
    | Versioned(versions: seq<PriceVersion>)

  datatype Builtin = Builtin(name: string, pricing: Pricing, activateAt: Option<nat>)

  /** Balances are values: an entry created for a builtin has balance 0. */
  type ParityTable = Table<nat, Builtin>

  /** The Ethash engine section. Both schedules map a block number to the
      value that applies from that block on. */
  datatype EthashParams = EthashParams(
    minimumDifficulty: nat,
    difficultyBoundDivisor: nat,
    durationLimit: nat,
    blockReward: map<nat, nat>,
    difficultyBombDelays: map<nat, nat>,
    homesteadTransition: U64,
    eip100bTransition: U64)

  datatype Params = Params(
    accountStartNonce: U64,
    maximumExtraDataSize: U64,
    minGasLimit: U64,
    gasLimitBoundDivisor: U64,
    networkID: U64,
    chainID: U64,
    maxCodeSize: U64,
    maxCodeSizeTransition: U64,
    eip98Transition: U64,
    eip150Transition: U64,
    eip160Transition: U64,
    eip161abcTransition: U64,
    eip161dTransition: U64,
    eip155Transition: U64,
    eip140Transition: U64,
    eip211Transition: U64,
    eip214Transition: U64,
    eip658Transition: U64,
    eip145Transition: U64,
    eip1014Transition: U64,
    eip1052Transition: U64,
    eip1283Transition: U64,
    eip1283DisableTransition: U64,
    eip1283ReenableTransition: U64,
    eip1344Transition: U64,
    eip1884Transition: U64,
    eip2028Transition: U64)

  datatype Header = Header(
    nonce: U64,
    mixHash: Hash,
    difficulty: nat,
    author: Address,
    timestamp: U64,
    parentHash: Hash,
    extraData: seq<Byte>,
    gasLimit: U64)

  datatype Spec = Spec(
    name: string,
    datadir: string,
    engine: EthashParams,
    params: Params,
    genesis: Header,
    nodes: seq<string>,
    accounts: ParityTable)

  /** What the builder dereferences without a nil check once the engine is
      known to be Ethash. */
  predicate Readable(g: Genesis)
  {
    g.config.ethash ==>
      && g.config.chainID.Some?
      && g.config.homesteadBlock.Some?
      && g.config.eip150Block.Some?
      && g.config.eip155Block.Some?
      && g.config.eip158Block.Some?
  }

  const BombDelayByzantium: nat := 3000000
  const BombDelayConstantinople: nat := 2000000

  // ---------------------------------------------------------------------
  // Fork setters

  /** Byzantium: its block gets the Byzantium reward and a 3,000,000 bomb
      delay, and five transitions start there. */
  function SetByzantium(s: Spec, proto: Protocol, num: nat): (r: Spec)
    ensures r.engine.blockReward.Keys == s.engine.blockReward.Keys + {num}
    ensures r.engine.blockReward[num] == proto.byzantiumBlockReward
    ensures forall k :: k in s.engine.blockReward && k != num ==> r.engine.blockReward[k] == s.engine.blockReward[k]
    ensures r.engine.difficultyBombDelays.Keys == s.engine.difficultyBombDelays.Keys + {num}
    ensures r.engine.difficultyBombDelays[num] == BombDelayByzantium
    ensures forall k :: k in s.engine.difficultyBombDelays && k != num ==>
              r.engine.difficultyBombDelays[k] == s.engine.difficultyBombDelays[k]
    ensures r.engine.eip100bTransition == Uint64(num)
    ensures r.params.eip140Transition == r.params.eip211Transition == r.params.eip214Transition
            == r.params.eip658Transition == Uint64(num)
    ensures r.(engine := s.engine, params := s.params) == s
    ensures r.engine.(blockReward := s.engine.blockReward, difficultyBombDelays := s.engine.difficultyBombDelays,
                      eip100bTransition := s.engine.eip100bTransition) == s.engine
    ensures r.params.(eip140Transition := s.params.eip140Transition, eip211Transition := s.params.eip211Transition,
                      eip214Transition := s.params.eip214Transition, eip658Transition := s.params.eip658Transition)
            == s.params
  {
    var n := Uint64(num);
    s.(engine := s.engine.(blockReward := s.engine.blockReward[num := proto.byzantiumBlockReward],
                           difficultyBombDelays := s.engine.difficultyBombDelays[num := BombDelayByzantium],
                           eip100bTransition := n),
       params := s.params.(eip140Transition := n, eip211Transition := n,
                           eip214Transition := n, eip658Transition := n))
  }

  /** Constantinople: its block gets the Constantinople reward and a
      2,000,000 bomb delay, and four transitions start there. */
  function SetConstantinople(s: Spec, proto: Protocol, num: nat): (r: Spec)
    ensures r.engine.blockReward.Keys == s.engine.blockReward.Keys + {num}
    ensures r.engine.blockReward[num] == proto.constantinopleBlockReward
    ensures forall k :: k in s.engine.blockReward && k != num ==> r.engine.blockReward[k] == s.engine.blockReward[k]
    ensures r.engine.difficultyBombDelays.Keys == s.engine.difficultyBombDelays.Keys + {num}
    ensures r.engine.difficultyBombDelays[num] == BombDelayConstantinople
    ensures forall k :: k in s.engine.difficultyBombDelays && k != num ==>
              r.engine.difficultyBombDelays[k] == s.engine.difficultyBombDelays[k]
    ensures r.params.eip145Transition == r.params.eip1014Transition == r.params.eip1052Transition
            == r.params.eip1283Transition == Uint64(num)
    ensures r.(engine := s.engine, params := s.params) == s
    ensures r.engine.(blockReward := s.engine.blockReward, difficultyBombDelays := s.engine.difficultyBombDelays)
            == s.engine
    ensures r.params.(eip145Transition := s.params.eip145Transition, eip1014Transition := s.params.eip1014Transition,
                      eip1052Transition := s.params.eip1052Transition, eip1283Transition := s.params.eip1283Transition)
            == s.params
  {
    var n := Uint64(num);
    s.(engine := s.engine.(blockReward := s.engine.blockReward[num := proto.constantinopleBlockReward],
                           difficultyBombDelays := s.engine.difficultyBombDelays[num := BombDelayConstantinople]),
       params := s.params.(eip145Transition := n, eip1014Transition := n,
                           eip1052Transition := n, eip1283Transition := n))
  }

  /** Petersburg (ConstantinopleFix) only switches EIP-1283 off again. */
  function SetConstantinopleFix(s: Spec, num: nat): (r: Spec)
    ensures r.params.eip1283DisableTransition == Uint64(num)
    ensures r.(params := s.params) == s
    ensures r.params.(eip1283DisableTransition := s.params.eip1283DisableTransition) == s.params
  {
    s.(params := s.params.(eip1283DisableTransition := Uint64(num)))
  }

  /** Istanbul: four transitions, EIP-1283 among them re-enabled. */
  function SetIstanbul(s: Spec, num: nat): (r: Spec)
    ensures r.params.eip1344Transition == r.params.eip1884Transition == r.params.eip2028Transition
            == r.params.eip1283ReenableTransition == Uint64(num)
    ensures r.(params := s.params) == s
    ensures r.params.(eip1344Transition := s.params.eip1344Transition, eip1884Transition := s.params.eip1884Transition,
                      eip2028Transition := s.params.eip2028Transition,
                      eip1283ReenableTransition := s.params.eip1283ReenableTransition) == s.params
  {
    var n := Uint64(num);
    s.(params := s.params.(eip1344Transition := n, eip1884Transition := n,
                           eip2028Transition := n, eip1283ReenableTransition := n))
  }

  // ---------------------------------------------------------------------
  // The account table

  /** setPrecompile: the entry at the one-byte address gets exactly `data`;
      an existing balance and nonce stay, a new entry has balance and nonce 0. */
  function SetPrecompile(t: ParityTable, address: Byte, data: Builtin): (r: ParityTable)
    ensures r.Some?
    ensures Entries(r).Keys == Entries(t).Keys + {AddressOf(address)}
    ensures Entries(r)[AddressOf(address)].builtin == Some(data)
    ensures AddressOf(address) in Entries(t) ==>
              && Entries(r)[AddressOf(address)].balance == Entries(t)[AddressOf(address)].balance
              && Entries(r)[AddressOf(address)].nonce == Entries(t)[AddressOf(address)].nonce
    ensures AddressOf(address) !in Entries(t) ==>
              Entries(r)[AddressOf(address)].balance == 0 && Entries(r)[AddressOf(address)].nonce == 0
    ensures forall a :: a in Entries(t) && a != AddressOf(address) ==> Entries(r)[a] == Entries(t)[a]
  {
    SetBuiltin(t, address, data, 0)
  }

  /** The table the allocation loop writes into a freshly made map. */
  function AllocAccounts(alloc: map<Address, GenesisAccount>): (r: Accounts<nat, Builtin>)
    ensures r.Keys == alloc.Keys
    ensures forall a :: a in alloc ==>
              r[a].balance == alloc[a].balance && r[a].nonce == alloc[a].nonce && r[a].builtin == None
  {
    map a | a in alloc :: Account(alloc[a].balance, alloc[a].nonce, None)
  }

  /** The allocation entries for the addresses in `done`. */
  function AllocPart(alloc: map<Address, GenesisAccount>, done: set<Address>): Accounts<nat, Builtin>
    requires done <= alloc.Keys
  {
    map a | a in done :: Account(alloc[a].balance, alloc[a].nonce, None)
  }

  /** The allocation loop's map writes, in the order `keys`. */
  function FillAccounts(m: Accounts<nat, Builtin>, alloc: map<Address, GenesisAccount>, keys: seq<Address>)
    : (r: Accounts<nat, Builtin>)
    requires forall i :: 0 <= i < |keys| ==> keys[i] in alloc
    ensures r.Keys == AddAll(m.Keys, keys)
    decreases |keys|
  {
    if |keys| == 0 then m
    else
      var a := keys[0];
      var m' := m[a := Account(alloc[a].balance, alloc[a].nonce, None)];
      assert m'.Keys == m.Keys + {a};
      FillAccounts(m', alloc, keys[1..])
  }

  /** Writing fresh keys in any order extends the written part by them. */
  lemma {:induction false} FillAccountsLoads(alloc: map<Address, GenesisAccount>, done: set<Address>, keys: seq<Address>)
    requires done <= alloc.Keys
    requires forall i :: 0 <= i < |keys| ==> keys[i] in alloc && keys[i] !in done
    requires forall i, j :: 0 <= i < j < |keys| ==> keys[i] != keys[j]
    ensures AddAll(done, keys) <= alloc.Keys
    ensures FillAccounts(AllocPart(alloc, done), alloc, keys) == AllocPart(alloc, AddAll(done, keys))
    decreases |keys|
  {
    if |keys| > 0 {
      var a, rest := keys[0], keys[1..];
      assert AllocPart(alloc, done)[a := Account(alloc[a].balance, alloc[a].nonce, None)] == AllocPart(alloc, done + {a});
      forall i | 0 <= i < |rest| ensures rest[i] in alloc && rest[i] !in done + {a} {
        assert rest[i] == keys[i + 1];
      }
      FillAccountsLoads(alloc, done + {a}, rest);
    }
  }

  /** Every visiting order fills the fresh map with AllocAccounts. */
  lemma AnyOrder(alloc: map<Address, GenesisAccount>, keys: seq<Address>)
    requires Enumerates(keys, alloc)
    ensures FillAccounts(map[], alloc, keys) == AllocAccounts(alloc)
  {
    assert AllocPart(alloc, {}) == map[];
    FillAccountsLoads(alloc, {}, keys);
    AddAllElements({}, keys);
    assert AddAll({}, keys) == alloc.Keys;
  }

  /** The loop over the allocation, in whatever order Go visits the keys:
      every allocated address gets its balance and nonce and nothing else. */
  method LoadAlloc(alloc: map<Address, GenesisAccount>) returns (m: Accounts<nat, Builtin>)
    ensures m.Keys == alloc.Keys
    ensures forall a :: a in alloc ==>
              m[a].balance == alloc[a].balance && m[a].nonce == alloc[a].nonce && m[a].builtin == None
    ensures m == AllocAccounts(alloc)
  {
    m := map[];
    var rest := alloc.Keys;
    while rest != {}
      invariant rest <= alloc.Keys
      invariant m.Keys == alloc.Keys - rest
      invariant forall a :: a in m ==> m[a] == Account(alloc[a].balance, alloc[a].nonce, None)
      decreases rest
    {
      var a :| a in rest;
      m := m[a := Account(alloc[a].balance, alloc[a].nonce, None)];
      rest := rest - {a};
    }
    assert m == AllocAccounts(alloc);
  }

  // ---------------------------------------------------------------------
  // The precompile phases

  const Ecrecover := Builtin("ecrecover", Linear(LinearPricing(3000, 0)), None)
  const Sha256 := Builtin("sha256", Linear(LinearPricing(60, 12)), None)
  const Ripemd160 := Builtin("ripemd160", Linear(LinearPricing(600, 120)), None)
  const Identity := Builtin("identity", Linear(LinearPricing(15, 3)), None)

  /** A two-version table: `before` from block 0, `after` from `fork`. */
  function Repriced(before: AlternativePrice, after: AlternativePrice, fork: nat): Pricing
  {
    Versioned([PriceVersion(0, before), PriceVersion(fork, after)])
  }

  function BaseTable(): map<Address, Builtin>
  {
    map[AddressOf(1) := Ecrecover, AddressOf(2) := Sha256, AddressOf(3) := Ripemd160, AddressOf(4) := Identity]
  }

  function ByzantiumTable(byzantium: nat): map<Address, Builtin>
  {
    var b := Some(byzantium);
    map[AddressOf(5) := Builtin("modexp", ModExp(20), b),
        AddressOf(6) := Builtin("alt_bn128_add", Linear(LinearPricing(500, 0)), b),
        AddressOf(7) := Builtin("alt_bn128_mul", Linear(LinearPricing(40000, 0)), b),
        AddressOf(8) := Builtin("alt_bn128_pairing", AltBnPairing(100000, 80000), b)]
  }

  /** EIP-1108 repricing of the three curve operations (still active from
      Byzantium) and EIP-152's blake2_f from Istanbul on. */
  function IstanbulTable(byzantium: nat, istanbul: nat): map<Address, Builtin>
  {
    var b := Some(byzantium);
    map[AddressOf(6) := Builtin("alt_bn128_add",
                          Repriced(AltBnConstOperation(500), AltBnConstOperation(150), istanbul), b),
        AddressOf(7) := Builtin("alt_bn128_mul",
                          Repriced(AltBnConstOperation(40000), AltBnConstOperation(6000), istanbul), b),
        AddressOf(8) := Builtin("alt_bn128_pairing",
                          Repriced(AltBnPairingPrice(100000, 80000), AltBnPairingPrice(45000, 34000), istanbul), b),
        AddressOf(9) := Builtin("blake2_f", Blake2F(1), Some(istanbul))]
  }

  /** The setPrecompile calls of each phase, in the order the builder makes them. */
  function BaseEntries(): seq<(Byte, Builtin)>
  {
    [(1, Ecrecover), (2, Sha256), (3, Ripemd160), (4, Identity)]
  }

  function ByzantiumEntries(byzantium: nat): seq<(Byte, Builtin)>
  {
    var b := Some(byzantium);
    [(5, Builtin("modexp", ModExp(20), b)),
     (6, Builtin("alt_bn128_add", Linear(LinearPricing(500, 0)), b)),
     (7, Builtin("alt_bn128_mul", Linear(LinearPricing(40000, 0)), b)),
     (8, Builtin("alt_bn128_pairing", AltBnPairing(100000, 80000), b))]
  }

  function IstanbulEntries(byzantium: nat, istanbul: nat): seq<(Byte, Builtin)>
  {
    var b := Some(byzantium);
    [(6, Builtin("alt_bn128_add", Repriced(AltBnConstOperation(500), AltBnConstOperation(150), istanbul), b)),
     (7, Builtin("alt_bn128_mul", Repriced(AltBnConstOperation(40000), AltBnConstOperation(6000), istanbul), b)),
     (8, Builtin("alt_bn128_pairing",
                 Repriced(AltBnPairingPrice(100000, 80000), AltBnPairingPrice(45000, 34000), istanbul), b)),
     (9, Builtin("blake2_f", Blake2F(1), Some(istanbul)))]
  }

  function InstallBase(t: ParityTable): (r: ParityTable)
    ensures r.Some?
    ensures Installed(Entries(t), Entries(r), BaseTable(), 0)
  {
    TableOfFour(BaseEntries());
    InstallPhase(t, BaseEntries(), BaseTable(), 0);
    var r := InstallAll(t, BaseEntries(), 0);
    assert AddressOf(1) in Entries(r);
    r
  }

  function InstallByzantium(t: ParityTable, byzantium: nat): (r: ParityTable)
    ensures r.Some?
    ensures Installed(Entries(t), Entries(r), ByzantiumTable(byzantium), 0)
  {
    TableOfFour(ByzantiumEntries(byzantium));
    InstallPhase(t, ByzantiumEntries(byzantium), ByzantiumTable(byzantium), 0);
    var r := InstallAll(t, ByzantiumEntries(byzantium), 0);
    assert AddressOf(5) in Entries(r);
    r
  }

  function InstallIstanbul(t: ParityTable, byzantium: nat, istanbul: nat): (r: ParityTable)
    ensures r.Some?
    ensures Installed(Entries(t), Entries(r), IstanbulTable(byzantium, istanbul), 0)
  {
    TableOfFour(IstanbulEntries(byzantium, istanbul));
    InstallPhase(t, IstanbulEntries(byzantium, istanbul), IstanbulTable(byzantium, istanbul), 0);
    var r := InstallAll(t, IstanbulEntries(byzantium, istanbul), 0);
    assert AddressOf(9) in Entries(r);
    r
  }

  // ---------------------------------------------------------------------
  // The builder

  const ZeroParams := Params(0, 0, 0, 0, 0, 0, 0, 0, 0, 0, 0, 0, 0, 0, 0, 0, 0, 0, 0, 0, 0, 0, 0, 0, 0, 0, 0)

  const ZeroHeader := Header(0, 0, 0, 0, 0, 0, [], 0)

  /** The spec before any fork is read: name, data directory and boot nodes,
      the Frontier engine constants, and the reward schedule seeded with the
      Frontier reward at block 0. The bomb-delay schedule starts empty. */
  function Frontier(proto: Protocol, toLower: string -> string, network: string, bootnodes: seq<string>): (r: Spec)
    ensures r.engine.blockReward.Keys == {0} && r.engine.blockReward[0] == proto.frontierBlockReward
    ensures r.engine.difficultyBombDelays.Keys == {}
    ensures r.accounts == None
  {
    Spec(network, toLower(network),
         EthashParams(proto.minimumDifficulty, proto.difficultyBoundDivisor, proto.durationLimit,
                      map[0 := proto.frontierBlockReward], map[], 0, 0),
         ZeroParams, ZeroHeader, bootnodes, None)
  }

  /** Everything newParityChainSpec fills in before it touches the account
      table: the fork schedule, the constants and the genesis header. */
  function Skeleton(proto: Protocol, toLower: string -> string, network: string, g: Genesis,
                    bootnodes: seq<string>): (r: Spec)
    requires Readable(g) && g.config.ethash
    ensures r.accounts == None
    ensures r.name == network && r.datadir == toLower(network) && r.nodes == bootnodes
  {
    var c := g.config;
    var s0 := Frontier(proto, toLower, network, bootnodes);
    var s1 := s0.(engine := s0.engine.(homesteadTransition := Uint64(c.homesteadBlock.value)),
                  params := s0.params.(eip150Transition := Uint64(c.eip150Block.value),
                                       eip155Transition := Uint64(c.eip155Block.value),
                                       eip160Transition := Uint64(c.eip155Block.value),
                                       eip161abcTransition := Uint64(c.eip158Block.value),
                                       eip161dTransition := Uint64(c.eip158Block.value)));
    var s2 := if c.byzantiumBlock.Some? then SetByzantium(s1, proto, c.byzantiumBlock.value) else s1;
    var s3 := if c.constantinopleBlock.Some? then SetConstantinople(s2, proto, c.constantinopleBlock.value) else s2;
    var s4 := if c.petersburgBlock.Some? then SetConstantinopleFix(s3, c.petersburgBlock.value) else s3;
    var s5 := if c.istanbulBlock.Some? then SetIstanbul(s4, c.istanbulBlock.value) else s4;
    var s6 := s5.(params := s5.params.(maximumExtraDataSize := proto.maximumExtraDataSize,
                                       minGasLimit := proto.minGasLimit,
                                       gasLimitBoundDivisor := proto.gasLimitBoundDivisor,
                                       networkID := Uint64(c.chainID.value),
                                       chainID := Uint64(c.chainID.value),
                                       maxCodeSize := proto.maxCodeSize,
                                       maxCodeSizeTransition := 0,
                                       eip98Transition := MaxInt64));
    s6.(genesis := Header(g.nonce, g.mixhash, g.difficulty, g.coinbase, g.timestamp,
                          g.parentHash, g.extraData, g.gasLimit))
  }

  /** newParityChainSpec. `toLower` stands for strings.ToLower. It fails on a
      non-Ethash engine before reading anything else, and on Istanbul without
      Byzantium after building everything up to the Istanbul precompiles,
      discarding that work. */
  function NewParityChainSpec(proto: Protocol, toLower: string -> string, network: string, g: Genesis,
                              bootnodes: seq<string>): (r: Result<Spec, Error>)
    requires Readable(g)
    ensures r == Failure(UnsupportedConsensusEngine) <==> !g.config.ethash
    ensures r == Failure(IstanbulWithoutByzantium) <==> g.config.ethash && BreaksForkDependency(g.config)
    ensures r.Success? <==> g.config.ethash && !BreaksForkDependency(g.config)
  {
    if !g.config.ethash then Failure(UnsupportedConsensusEngine)
    else
      var c := g.config;
      var s7 := Skeleton(proto, toLower, network, g, bootnodes);
      var s8 := s7.(accounts := Some(AllocAccounts(g.alloc)));
      var s9 := s8.(accounts := InstallBase(s8.accounts));
      var s10 := if c.byzantiumBlock.Some? then s9.(accounts := InstallByzantium(s9.accounts, c.byzantiumBlock.value)) else s9;
      if c.istanbulBlock.Some? then
        if c.byzantiumBlock.None? then Failure(IstanbulWithoutByzantium)
        else Success(s10.(accounts := InstallIstanbul(s10.accounts, c.byzantiumBlock.value, c.istanbulBlock.value)))
      else Success(s10)
  }

  /** After the skeleton only the account table changes. */
  lemma SkeletonKept(proto: Protocol, toLower: string -> string, network: string, g: Genesis, bootnodes: seq<string>)
    requires Readable(g) && g.config.ethash && !BreaksForkDependency(g.config)
    ensures NewParityChainSpec(proto, toLower, network, g, bootnodes).Success?
    ensures NewParityChainSpec(proto, toLower, network, g, bootnodes).value.(accounts := None)
            == Skeleton(proto, toLower, network, g, bootnodes)
  {
  }

  // ---------------------------------------------------------------------
  // Properties of the built spec

  /** The builtin Parity expects at each address, read off the fork schedule
      address by address rather than phase by phase. */
  function PrecompileAt(c: ChainConfig, a: Address): Option<Builtin>
  {
    if a == 1 then Some(Ecrecover)
    else if a == 2 then Some(Sha256)
    else if a == 3 then Some(Ripemd160)
    else if a == 4 then Some(Identity)
    else if c.byzantiumBlock.None? || a == 0 || a > 9 then None
    else
      var b := c.byzantiumBlock;
      var i := c.istanbulBlock;
      if a == 5 then Some(Builtin("modexp", ModExp(20), b))
      else if a == 6 then
        Some(Builtin("alt_bn128_add",
                     if i.Some? then Versioned([PriceVersion(0, AltBnConstOperation(500)),
                                                PriceVersion(i.value, AltBnConstOperation(150))])
                     else Linear(LinearPricing(500, 0)), b))
      else if a == 7 then
        Some(Builtin("alt_bn128_mul",
                     if i.Some? then Versioned([PriceVersion(0, AltBnConstOperation(40000)),
                                                PriceVersion(i.value, AltBnConstOperation(6000))])
                     else Linear(LinearPricing(40000, 0)), b))
      else if a == 8 then
        Some(Builtin("alt_bn128_pairing",
                     if i.Some? then Versioned([PriceVersion(0, AltBnPairingPrice(100000, 80000)),
                                                PriceVersion(i.value, AltBnPairingPrice(45000, 34000))])
                     else AltBnPairing(100000, 80000), b))
      else if i.Some? then Some(Builtin("blake2_f", Blake2F(1), i))
      else None
  }

  function PhaseTables(c: ChainConfig): map<Address, Builtin>
  {
    var byz := if c.byzantiumBlock.Some? then ByzantiumTable(c.byzantiumBlock.value) else map[];
    var ist := if c.byzantiumBlock.Some? && c.istanbulBlock.Some?
               then IstanbulTable(c.byzantiumBlock.value, c.istanbulBlock.value) else map[];
    BaseTable() + byz + ist
  }

  lemma PhaseTablesMatch(c: ChainConfig)
    requires !BreaksForkDependency(c)
    ensures forall a :: a in PhaseTables(c) <==> PrecompileAt(c, a).Some?
    ensures forall a :: a in PhaseTables(c) ==> PhaseTables(c)[a] == PrecompileAt(c, a).value
  {
    forall a
      ensures a in PhaseTables(c) <==> PrecompileAt(c, a).Some?
      ensures a in PhaseTables(c) ==> PhaseTables(c)[a] == PrecompileAt(c, a).value
    {
      if c.byzantiumBlock.None? {
        assert PhaseTables(c) == BaseTable();
      } else if c.istanbulBlock.None? {
        assert PhaseTables(c) == BaseTable() + ByzantiumTable(c.byzantiumBlock.value);
      } else {
        assert PhaseTables(c) == BaseTable() + ByzantiumTable(c.byzantiumBlock.value)
                                 + IstanbulTable(c.byzantiumBlock.value, c.istanbulBlock.value);
      }
    }
  }

  lemma AccountsInstalled(proto: Protocol, toLower: string -> string, network: string, g: Genesis, bootnodes: seq<string>)
    requires Readable(g) && g.config.ethash && !BreaksForkDependency(g.config)
    ensures NewParityChainSpec(proto, toLower, network, g, bootnodes).Success?
    ensures Installed(AllocAccounts(g.alloc), Entries(NewParityChainSpec(proto, toLower, network, g, bootnodes).value.accounts),
                      PhaseTables(g.config), 0)
  {
    var c := g.config;
    var t0 := Some(AllocAccounts(g.alloc));
    var t1 := InstallBase(t0);
    var t2 := if c.byzantiumBlock.Some? then InstallByzantium(t1, c.byzantiumBlock.value) else t1;
    var t3 := if c.istanbulBlock.Some? then InstallIstanbul(t2, c.byzantiumBlock.value, c.istanbulBlock.value) else t2;
    var byz := if c.byzantiumBlock.Some? then ByzantiumTable(c.byzantiumBlock.value) else map[];
    var ist := if c.byzantiumBlock.Some? && c.istanbulBlock.Some?
               then IstanbulTable(c.byzantiumBlock.value, c.istanbulBlock.value) else map[];
    if c.byzantiumBlock.None? {
      InstalledNothing(Entries(t1), 0);
    }
    InstalledCompose(Entries(t0), Entries(t1), Entries(t2), BaseTable(), byz, 0);
    if c.istanbulBlock.None? {
      InstalledNothing(Entries(t2), 0);
    }
    InstalledCompose(Entries(t0), Entries(t2), Entries(t3), BaseTable() + byz, ist, 0);
    assert NewParityChainSpec(proto, toLower, network, g, bootnodes).value.accounts == t3;
  }

  /** The account table a successful build promises: the allocation's
      accounts with their balances and nonces, plus exactly the builtins
      PrecompileAt names; a builtin-only entry has balance 0 and nonce 0. */
  ghost predicate TableMatches(c: ChainConfig, alloc: map<Address, GenesisAccount>, acc: Accounts<nat, Builtin>)
  {
    && (forall a :: a in acc <==> a in alloc || PrecompileAt(c, a).Some?)
    && (forall a :: a in acc ==> acc[a].builtin == PrecompileAt(c, a))
    && (forall a :: a in alloc ==> acc[a].balance == alloc[a].balance && acc[a].nonce == alloc[a].nonce)
    && (forall a :: a in acc && a !in alloc ==> acc[a].balance == 0 && acc[a].nonce == 0)
  }

  /** The account table of a successful build. */
  lemma AccountTable(proto: Protocol, toLower: string -> string, network: string, g: Genesis, bootnodes: seq<string>)
    requires Readable(g) && g.config.ethash && !BreaksForkDependency(g.config)
    ensures NewParityChainSpec(proto, toLower, network, g, bootnodes).Success?
    ensures TableMatches(g.config, g.alloc, Entries(NewParityChainSpec(proto, toLower, network, g, bootnodes).value.accounts))
  {
    AccountsInstalled(proto, toLower, network, g, bootnodes);
    PhaseTablesMatch(g.config);
    var acc := Entries(NewParityChainSpec(proto, toLower, network, g, bootnodes).value.accounts);
    TableFromPhases(g.config, g.alloc, PhaseTables(g.config), acc);
  }

  lemma TableFromPhases(c: ChainConfig, alloc: map<Address, GenesisAccount>, table: map<Address, Builtin>,
                        acc: Accounts<nat, Builtin>)
    requires forall a :: a in table <==> PrecompileAt(c, a).Some?
    requires forall a :: a in table ==> table[a] == PrecompileAt(c, a).value
    requires Installed(AllocAccounts(alloc), acc, table, 0)
    ensures TableMatches(c, alloc, acc)
  {
    InstalledOnto(AllocAccounts(alloc), acc, table, 0);
  }

  /** The block-reward schedule holds block 0 and the Byzantium and
      Constantinople blocks and nothing else; at a block several forks
      share, the later fork's reward wins. */
  ghost predicate RewardsScheduled(proto: Protocol, c: ChainConfig, e: EthashParams)
  {
    && e.blockReward.Keys == {0} + Blocks(c.byzantiumBlock) + Blocks(c.constantinopleBlock)
    && (forall k :: k in e.blockReward ==>
          e.blockReward[k] == (if c.constantinopleBlock == Some(k) then proto.constantinopleBlockReward
                               else if c.byzantiumBlock == Some(k) then proto.byzantiumBlockReward
                               else proto.frontierBlockReward))
  }

  /** The bomb-delay schedule holds only the Byzantium and Constantinople
      blocks, Constantinople winning on a shared block. */
  ghost predicate DelaysScheduled(c: ChainConfig, e: EthashParams)
  {
    && e.difficultyBombDelays.Keys == Blocks(c.byzantiumBlock) + Blocks(c.constantinopleBlock)
    && (forall k :: k in e.difficultyBombDelays ==>
          e.difficultyBombDelays[k] == (if c.constantinopleBlock == Some(k) then BombDelayConstantinople
                                        else BombDelayByzantium))
  }

  ghost predicate ScheduledRewards(proto: Protocol, c: ChainConfig, e: EthashParams)
  {
    RewardsScheduled(proto, c, e) && DelaysScheduled(c, e)
  }

  /** Homestead, EIP-150, EIP-155/160 and EIP-158/161 come from their
      (required) fork blocks; EIP-98 is disabled with the MaxInt64 sentinel
      and the code size limit applies from genesis. */
  ghost predicate FixedTransitions(c: ChainConfig, s: Spec)
    requires c.homesteadBlock.Some? && c.eip150Block.Some? && c.eip155Block.Some? && c.eip158Block.Some?
  {
    var p := s.params;
    && s.engine.homesteadTransition == Uint64(c.homesteadBlock.value)
    && p.eip150Transition == Uint64(c.eip150Block.value)
    && p.eip155Transition == Uint64(c.eip155Block.value) && p.eip160Transition == p.eip155Transition
    && p.eip161abcTransition == Uint64(c.eip158Block.value) && p.eip161dTransition == p.eip161abcTransition
    && p.eip98Transition == MaxInt64 && p.maxCodeSizeTransition == 0
  }

  /** The Byzantium and Constantinople groups take their fork's block when
      it is scheduled and stay 0 otherwise. */
  ghost predicate EarlyForkTransitions(c: ChainConfig, s: Spec)
  {
    var p := s.params;
    && s.engine.eip100bTransition == Transition(c.byzantiumBlock)
    && p.eip140Transition == Transition(c.byzantiumBlock) && p.eip211Transition == Transition(c.byzantiumBlock)
    && p.eip214Transition == Transition(c.byzantiumBlock) && p.eip658Transition == Transition(c.byzantiumBlock)
    && p.eip145Transition == Transition(c.constantinopleBlock)
    && p.eip1014Transition == Transition(c.constantinopleBlock)
    && p.eip1052Transition == Transition(c.constantinopleBlock)
    && p.eip1283Transition == Transition(c.constantinopleBlock)
  }

  /** The Petersburg and Istanbul groups take their fork's block when it is
      scheduled and stay 0 otherwise. */
  ghost predicate LateForkTransitions(c: ChainConfig, s: Spec)
  {
    var p := s.params;
    && p.eip1283DisableTransition == Transition(c.petersburgBlock)
    && p.eip1344Transition == Transition(c.istanbulBlock) && p.eip1884Transition == Transition(c.istanbulBlock)
    && p.eip2028Transition == Transition(c.istanbulBlock)
    && p.eip1283ReenableTransition == Transition(c.istanbulBlock)
  }

  ghost predicate ForkTransitions(c: ChainConfig, s: Spec)
  {
    EarlyForkTransitions(c, s) && LateForkTransitions(c, s)
  }

  ghost predicate ScheduledTransitions(c: ChainConfig, s: Spec)
    requires c.homesteadBlock.Some? && c.eip150Block.Some? && c.eip155Block.Some? && c.eip158Block.Some?
  {
    FixedTransitions(c, s) && ForkTransitions(c, s)
  }

  /** Name, data directory and boot nodes from the caller, the network id
      equal to the (truncated) chain id, the account start nonce left 0,
      protocol constants and the genesis header copied. */
  ghost predicate CopiedFields(proto: Protocol, toLower: string -> string, network: string, g: Genesis,
                               bootnodes: seq<string>, s: Spec)
    requires g.config.chainID.Some?
  {
    var p := s.params;
    && s.name == network && s.datadir == toLower(network) && s.nodes == bootnodes
    && p.chainID == Uint64(g.config.chainID.value) && p.networkID == p.chainID
    && p.accountStartNonce == 0
    && p.maximumExtraDataSize == proto.maximumExtraDataSize && p.minGasLimit == proto.minGasLimit
    && p.gasLimitBoundDivisor == proto.gasLimitBoundDivisor && p.maxCodeSize == proto.maxCodeSize
    && s.engine.minimumDifficulty == proto.minimumDifficulty
    && s.engine.difficultyBoundDivisor == proto.difficultyBoundDivisor
    && s.engine.durationLimit == proto.durationLimit
    && s.genesis == Header(g.nonce, g.mixhash, g.difficulty, g.coinbase, g.timestamp,
                           g.parentHash, g.extraData, g.gasLimit)
  }

  lemma SkeletonSchedule(proto: Protocol, toLower: string -> string, network: string, g: Genesis, bootnodes: seq<string>)
    requires Readable(g) && g.config.ethash
    ensures ScheduledRewards(proto, g.config, Skeleton(proto, toLower, network, g, bootnodes).engine)
  {
    SkeletonRewards(proto, toLower, network, g, bootnodes);
    SkeletonDelays(proto, toLower, network, g, bootnodes);
  }

  lemma SkeletonRewards(proto: Protocol, toLower: string -> string, network: string, g: Genesis, bootnodes: seq<string>)
    requires Readable(g) && g.config.ethash
    ensures RewardsScheduled(proto, g.config, Skeleton(proto, toLower, network, g, bootnodes).engine)
  {
  }

  lemma SkeletonDelays(proto: Protocol, toLower: string -> string, network: string, g: Genesis, bootnodes: seq<string>)
    requires Readable(g) && g.config.ethash
    ensures DelaysScheduled(g.config, Skeleton(proto, toLower, network, g, bootnodes).engine)
  {
  }

  lemma SkeletonTransitions(proto: Protocol, toLower: string -> string, network: string, g: Genesis, bootnodes: seq<string>)
    requires Readable(g) && g.config.ethash
    ensures ScheduledTransitions(g.config, Skeleton(proto, toLower, network, g, bootnodes))
  {
    SkeletonFixed(proto, toLower, network, g, bootnodes);
    SkeletonForks(proto, toLower, network, g, bootnodes);
  }

  lemma SkeletonFixed(proto: Protocol, toLower: string -> string, network: string, g: Genesis, bootnodes: seq<string>)
    requires Readable(g) && g.config.ethash
    ensures FixedTransitions(g.config, Skeleton(proto, toLower, network, g, bootnodes))
  {
  }

  lemma SkeletonForks(proto: Protocol, toLower: string -> string, network: string, g: Genesis, bootnodes: seq<string>)
    requires Readable(g) && g.config.ethash
    ensures ForkTransitions(g.config, Skeleton(proto, toLower, network, g, bootnodes))
  {
    SkeletonEarlyForks(proto, toLower, network, g, bootnodes);
    SkeletonLateForks(proto, toLower, network, g, bootnodes);
  }

  lemma SkeletonEarlyForks(proto: Protocol, toLower: string -> string, network: string, g: Genesis, bootnodes: seq<string>)
    requires Readable(g) && g.config.ethash
    ensures EarlyForkTransitions(g.config, Skeleton(proto, toLower, network, g, bootnodes))
  {
  }

  lemma SkeletonLateForks(proto: Protocol, toLower: string -> string, network: string, g: Genesis, bootnodes: seq<string>)
    requires Readable(g) && g.config.ethash
    ensures LateForkTransitions(g.config, Skeleton(proto, toLower, network, g, bootnodes))
  {
  }

  lemma SkeletonCopies(proto: Protocol, toLower: string -> string, network: string, g: Genesis, bootnodes: seq<string>)
    requires Readable(g) && g.config.ethash
    ensures CopiedFields(proto, toLower, network, g, bootnodes, Skeleton(proto, toLower, network, g, bootnodes))
  {
  }

  /** The reward and bomb-delay schedules of a successful build. */
  lemma RewardSchedule(proto: Protocol, toLower: string -> string, network: string, g: Genesis, bootnodes: seq<string>)
    requires Readable(g) && g.config.ethash && !BreaksForkDependency(g.config)
    ensures NewParityChainSpec(proto, toLower, network, g, bootnodes).Success?
    ensures ScheduledRewards(proto, g.config, NewParityChainSpec(proto, toLower, network, g, bootnodes).value.engine)
  {
    SkeletonKept(proto, toLower, network, g, bootnodes);
    SkeletonSchedule(proto, toLower, network, g, bootnodes);
  }

  /** The transition fields of a successful build. */
  lemma Transitions(proto: Protocol, toLower: string -> string, network: string, g: Genesis, bootnodes: seq<string>)
    requires Readable(g) && g.config.ethash && !BreaksForkDependency(g.config)
    ensures NewParityChainSpec(proto, toLower, network, g, bootnodes).Success?
    ensures ScheduledTransitions(g.config, NewParityChainSpec(proto, toLower, network, g, bootnodes).value)
  {
    SkeletonKept(proto, toLower, network, g, bootnodes);
    SkeletonTransitions(proto, toLower, network, g, bootnodes);
  }

  /** The remaining fields of a successful build. */
  lemma ParamsAndHeader(proto: Protocol, toLower: string -> string, network: string, g: Genesis, bootnodes: seq<string>)
    requires Readable(g) && g.config.ethash && !BreaksForkDependency(g.config)
    ensures NewParityChainSpec(proto, toLower, network, g, bootnodes).Success?
    ensures CopiedFields(proto, toLower, network, g, bootnodes, NewParityChainSpec(proto, toLower, network, g, bootnodes).value)
  {
    SkeletonKept(proto, toLower, network, g, bootnodes);
    SkeletonCopies(proto, toLower, network, g, bootnodes);
  }
}
