/** Shared vocabulary of the genesis-to-chain-spec translator: the canonical
    genesis model the three builders read, the protocol constants they copy,
    and the two errors they can return. */
module Types {

  datatype Option<+T> = None | Some(value: T)

  datatype Result<+R, +E> = Success(value: R) | Failure(error: E)

  const TwoTo64: nat := 0x1_0000_0000_0000_0000

  /** Go's uint64. */
  type U64 = n: nat | n < TwoTo64

  type Byte = n: nat | n < 0x100

  /** A 20-byte account address, read as a big-endian number. */
  type Address = n: nat | n < 0x1_0000_0000_0000_0000_0000_0000_0000_0000_0000_0000

  /** A 32-byte hash, read as a big-endian number. */
  type Hash = n: nat | n < 0x1_0000_0000_0000_0000_0000_0000_0000_0000_0000_0000_0000_0000_0000_0000

  /** math.MaxInt64, the "never" sentinel of one Parity transition. */
  const MaxInt64: U64 := 0x7FFF_FFFF_FFFF_FFFF

  /** big.Int.Uint64 on a non-negative number: the low 64 bits, so the
      identity below 2^64 and a wrap by a multiple of 2^64 above. */
  function Uint64(n: nat): (r: U64)
    ensures n < TwoTo64 ==> r == n
    ensures r <= n && (n - r) % TwoTo64 == 0
  {
    n % TwoTo64
  }

  /** The two ways a builder can refuse a genesis. */
  datatype Error = UnsupportedConsensusEngine | IstanbulWithoutByzantium

  /** The text of the Go error value each error stands for. */
  function Message(e: Error): string
  {
    match e
    case UnsupportedConsensusEngine => "unsupported consensus engine"
    case IstanbulWithoutByzantium => "invalid genesis, istanbul fork is enabled while byzantium is not"
  }

  /** A caller that only sees the error text can tell the two errors apart. */
  lemma MessageIdentifiesError(e1: Error, e2: Error)
    ensures Message(e1) == Message(e2) <==> e1 == e2
  {
    if e1 != e2 {
      assert |Message(UnsupportedConsensusEngine)| == 28;
      assert |Message(e1)| != |Message(e2)|;
    }
  }

  /** The fork schedule and engine of a chain. An absent fork block is a fork
      that is not scheduled; `ethash` says whether the Ethash engine
      configuration is present. */
  datatype ChainConfig = ChainConfig(
    chainID: Option<nat>,
    homesteadBlock: Option<nat>,
    eip150Block: Option<nat>,
    eip155Block: Option<nat>,
    eip158Block: Option<nat>,
    byzantiumBlock: Option<nat>,
    constantinopleBlock: Option<nat>,
    petersburgBlock: Option<nat>,
    istanbulBlock: Option<nat>,
    ethash: bool)

  /** A prefunded account of the genesis allocation. */
  datatype GenesisAccount = GenesisAccount(
    code: seq<Byte>,
    storage: map<Hash, Hash>,
    balance: nat,
    nonce: U64,
    privateKey: seq<Byte>)

  /** The canonical genesis: chain configuration, header fields and allocation. */
  datatype Genesis = Genesis(
    config: ChainConfig,
    nonce: U64,
    timestamp: U64,
    extraData: seq<Byte>,
    gasLimit: U64,
    difficulty: nat,
    mixhash: Hash,
    coinbase: Address,
    alloc: map<Address, GenesisAccount>,
    parentHash: Hash)

  /** Protocol constants the builders copy but never compute with. */
  datatype Protocol = Protocol(
    maximumExtraDataSize: U64,
    minGasLimit: U64,
    gasLimitBoundDivisor: U64,
    minimumDifficulty: nat,
    difficultyBoundDivisor: nat,
    durationLimit: nat,
    frontierBlockReward: nat,
    byzantiumBlockReward: nat,
    constantinopleBlockReward: nat,
    maxCodeSize: U64)

  /** `keys` lists every allocated address exactly once: one order in which
      Go may range over the allocation. */
  predicate Enumerates(keys: seq<Address>, alloc: map<Address, GenesisAccount>)
  {
    && (forall i :: 0 <= i < |keys| ==> keys[i] in alloc)
    && (forall a :: a in alloc ==> a in keys)
    && (forall i, j :: 0 <= i < j < |keys| ==> keys[i] != keys[j])
  }

  /** `done` with the addresses of `keys` added one by one. */
  function AddAll(done: set<Address>, keys: seq<Address>): set<Address>
    decreases |keys|
  {
    if |keys| == 0 then done else AddAll(done + {keys[0]}, keys[1..])
  }

  lemma {:induction false} AddAllElements(done: set<Address>, keys: seq<Address>)
    ensures AddAll(done, keys) == done + (set k | k in keys)
    decreases |keys|
  {
    if |keys| == 0 {
      assert (set k | k in keys) == {};
    } else {
      assert keys == [keys[0]] + keys[1..];
      assert (set k | k in keys) == {keys[0]} + (set k | k in keys[1..]);
      AddAllElements(done + {keys[0]}, keys[1..]);
    }
  }

  /** The one fork combination the Aleth and Parity builders refuse. */
  predicate BreaksForkDependency(c: ChainConfig)
  {
    c.istanbulBlock.Some? && c.byzantiumBlock.None?
  }

  /** The blocks an optional fork contributes to a block-keyed schedule. */
  function Blocks(o: Option<nat>): set<nat>
  {
    if o.Some? then {o.value} else {}
  }

  /** A transition field filled only when its fork is scheduled; otherwise it
      keeps Go's zero value. */
  function Transition(o: Option<nat>): U64
  {
    if o.Some? then Uint64(o.value) else 0
  }
}
