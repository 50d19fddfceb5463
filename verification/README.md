# puppeth genesis translators in Dafny

go-ethereum's `puppeth` tool turns a geth genesis into the chain
specification formats of three other Ethereum clients. This project models
those translators from `cmd/puppeth/genesis.go`:

- `newAlethGenesisSpec`, for Aleth (C++ Ethereum);
- `newParityChainSpec`, for Parity;
- `newPyEthereumGenesisSpec`, for PyEthereum;
- their helpers `setPrecompile`, `setAccount`, `setByzantium`,
  `setConstantinople`, `setConstantinopleFix` and `setIstanbul`.

Each builder is a pure function from a genesis to `Result<Spec, Error>`. It
has the same branches, the same error strings and the same constants as the
Go code. The project proves the following:

- which genesis values each builder accepts and which error it returns;
- that the precompiled-contract ("builtin") table the Aleth and Parity
  builders install equals an independent reference that gives the expected builtin at each
  address;
- that allocated accounts keep their balances and nonces;
- Parity's block-reward and difficulty-bomb schedules and its EIP
  transition fields;
- that the PyEthereum spec loses nothing of the modelled genesis but the
  chain configuration.

Modules:

- `Types` is the shared vocabulary: the genesis, the chain configuration,
  the protocol constants, the two errors, and `big.Int.Uint64` truncation.
- `Registry` is the address-keyed account table. It holds the builtin upsert
  that both `setPrecompile`s perform and the `Installed` relation that
  composes phases of upserts.
- `Aleth`, `Parity` and `PyEthereum` are the three builders.
- `Translator` holds properties that relate the builders to each other, and
  a worked example.

Go features are modelled explicitly:

- A nil map is `None`, and reads as empty.
- `big.Int.Uint64()` keeps the low 64 bits.
- An unscheduled Parity transition keeps Go's zero value, 0.
- The loops over the allocation take map keys in an arbitrary order. The
  `LoadAlloc` methods pick each key with `:|`. The `AnyOrder` lemmas fold
  the loop body over any sequence that lists each key once. Both are proved
  to reach the closed-form table the builders use. The method is the loop
  as Go runs it, one nondeterministic step at a time. The fold names each
  visiting order explicitly, so a proof can quantify over all of them.

The protocol constants of go-ethereum's `params` and `ethash` packages (block
rewards, gas and difficulty bounds, maximum code size) enter as a `Protocol`
record. `strings.ToLower` enters as a function parameter `toLower`.

Some behaviours of the code are easy to get wrong, and the model follows the
code in each:

- Parity's bomb-delay map gets no entry at block 0. Only the block-reward map
  is seeded at block 0, with the Frontier reward.
- The Parity Istanbul phase reprices three curve builtins (0x06, 0x07, 0x08)
  and adds blake2_f at 0x09. Aleth's Istanbul phase redefines only 0x06 and
  0x07 and adds blake2_compression at 0x09.
- Parity reads the Homestead, EIP-150, EIP-155 and EIP-158 blocks without a
  nil check. So a configuration that lacks any of them cannot be translated
  for Parity. `Parity.Readable` states this as a precondition. A
  configuration with only Homestead set therefore falls outside the Parity
  builder.
- A Parity transition whose fork is not scheduled is written as 0, not left
  out.
- Istanbul without Byzantium is refused only after the earlier phases have
  run. Nothing built before the refusal is returned.

## Model

| member | source | states |
|---|---|---|
| Types.Uint64 | cmd/puppeth/genesis.go:137-138 | `ChainID.Uint64()` is the identity below 2^64, and otherwise differs from the chain id by a multiple of 2^64 |
| Types.Message | cmd/puppeth/genesis.go:99-101 | the text of each error value. The engine error is returned at lines 100, 368 and 611 and the fork-dependency error at 183 and 488. Translator.UnsupportedEngineRejected and Translator.ForkDependencyVerdicts tie these texts to the builders' failures |
| Types.MessageIdentifiesError | cmd/puppeth/genesis.go:181-184 | the two error texts, "unsupported consensus engine" and "invalid genesis, istanbul fork is enabled while byzantium is not", are equal only for the same error, so a caller that sees only the text can tell them apart |
| Registry.SetBuiltin | cmd/puppeth/genesis.go:549-558 | setPrecompile creates the nil map, adds the address, and sets exactly that entry's builtin. An existing balance and nonce are kept, a new entry is zero-valued, and every other entry is unchanged |
| Registry.InstalledStep | cmd/puppeth/genesis.go:201-210 | one more setPrecompile call extends a phase's table of installed builtins by that address |
| Registry.InstalledCompose | cmd/puppeth/genesis.go:181-197 | two phases of upserts in a row install the union of their tables. On a shared address the later phase wins |
| Registry.InstallAll | cmd/puppeth/genesis.go:161-168 | a run of setPrecompile calls creates the nil map unless the run is empty, and adds exactly the run's addresses to the table's keys |
| Registry.InstallAllInstalls | cmd/puppeth/genesis.go:161-168 | a run of setPrecompile calls after a phase installs the phase's table with the run's pairs on top. A later pair for the same address wins |
| Registry.InstallPhase | cmd/puppeth/genesis.go:161-168 | a run of setPrecompile calls on any table installs exactly the table its (address, builtin) pairs name |
| Registry.InstalledOnto | cmd/puppeth/genesis.go:157-197 | upserting a builtin table onto allocation entries that have no builtins leaves exactly the table's builtins, keeps the allocation's balances and nonces, and zero-fills the new entries |
| Aleth.SetPrecompile | cmd/puppeth/genesis.go:201-210 | Aleth's setPrecompile. The balance of a new entry is nil (`None`) |
| Aleth.SetAccount | cmd/puppeth/genesis.go:212-225 | setAccount writes the balance and nonce and keeps any builtin already at the address. No other entry changes |
| Aleth.AllocTable | cmd/puppeth/genesis.go:157-159 | the allocation loop's result has exactly the table's keys plus the allocation's. It stays nil only for a nil table and an empty allocation |
| Aleth.LoadAlloc | cmd/puppeth/genesis.go:157-159 | for any visiting order, each allocated address gets its balance and nonce, existing builtins survive, other entries are untouched, and the result is AllocTable |
| Aleth.Loading | cmd/puppeth/genesis.go:212-225 | once the table exists, each allocated address holds its balance and nonce with the builtin it already had, and every other entry is unchanged |
| Aleth.LoadedStep | cmd/puppeth/genesis.go:157-159 | one setAccount call on a fresh allocation key extends the set of visited keys by that key |
| Aleth.LoadedAll | cmd/puppeth/genesis.go:157-159 | the loop state after every key has been visited is the closed-form table |
| Aleth.SetAccounts | cmd/puppeth/genesis.go:157-159 | the allocation loop in one fixed visiting order adds exactly the visited addresses to the keys, and leaves the map nil only when there is none and nothing is visited |
| Aleth.SetAccountsLoads | cmd/puppeth/genesis.go:157-159 | setAccount on distinct fresh allocation keys, in the order given, extends the visited set by exactly those keys |
| Aleth.AnyOrder | cmd/puppeth/genesis.go:157-159 | every order that ranges over the allocation once per key leaves the same table, AllocTable |
| Aleth.InstallBase | cmd/puppeth/genesis.go:161-168 | ecrecover, sha256, ripemd160 and identity are upserted at 0x01 to 0x04 with their linear prices |
| Aleth.InstallByzantium | cmd/puppeth/genesis.go:169-180 | modexp, G1 add, G1 mul and pairing are upserted at 0x05 to 0x08, starting at the Byzantium block |
| Aleth.InstallIstanbul | cmd/puppeth/genesis.go:181-197 | G1 add and G1 mul are redefined without linear pricing, and blake2_compression is added at 0x09 from Istanbul |
| Aleth.ParamsOf | cmd/puppeth/genesis.go:103-146 | the network id equals the chain id, which is the genesis chain id whenever that fits in 64 bits. Each fork field is the genesis fork block, with Petersburg feeding ConstantinopleFix. The DAO fork is pinned at 0 and the maximum gas limit is MaxInt64 |
| Aleth.HeaderOf | cmd/puppeth/genesis.go:148-155 | the genesis header of the Aleth spec. What it keeps and drops is stated by HeaderKeepsFields |
| Aleth.HeaderKeepsFields | cmd/puppeth/genesis.go:148-155 | HeaderOf drops exactly the configuration and the allocation: two genesis values have equal headers if and only if they agree on every other field |
| Aleth.NewAlethGenesisSpec | cmd/puppeth/genesis.go:97-199 | fails with "unsupported consensus engine" exactly without Ethash, and with the Istanbul/Byzantium error exactly for Ethash with Istanbul but no Byzantium. Succeeds otherwise |
| Aleth.PhaseTablesMatch | cmd/puppeth/genesis.go:161-197 | the union of the phases installed for a fork schedule equals the address-by-address reference PrecompileAt |
| Aleth.AccountsInstalled | cmd/puppeth/genesis.go:157-197 | the built account table is the allocation with the phase tables upserted on top |
| Aleth.AccountTable | cmd/puppeth/genesis.go:157-197 | the built table holds the allocated addresses and exactly the builtins PrecompileAt names. Allocated balances and nonces are kept. A builtin-only entry has a nil balance and nonce 0 |
| Aleth.TableFromPhases | cmd/puppeth/genesis.go:157-197 | any upsert of a table that matches PrecompileAt onto the loaded allocation meets TableMatches |
| Aleth.ParamsAndHeader | cmd/puppeth/genesis.go:102-155 | seal engine Ethash, fixed defaults, DAO block 0. The network id equals the truncated chain id. Each fork field is present exactly when its fork is, with Petersburg giving the ConstantinopleFix block. The maximum gas limit is MaxInt64, and the constants and header fields are copied |
| Parity.SetByzantium | cmd/puppeth/genesis.go:560-569 | the Byzantium block gets the Byzantium reward and a 3,000,000 bomb delay. Other schedule entries are unchanged. EIP-100b/140/211/214/658 take the truncated block. Every other field of the spec is unchanged |
| Parity.SetConstantinople | cmd/puppeth/genesis.go:571-579 | the Constantinople block gets the Constantinople reward and a 2,000,000 delay. Other schedule entries are unchanged. EIP-145/1014/1052/1283 take the truncated block. Every other field of the spec is unchanged |
| Parity.SetConstantinopleFix | cmd/puppeth/genesis.go:581-583 | EIP-1283's disable transition takes the truncated block. Every other field of the spec is unchanged |
| Parity.SetIstanbul | cmd/puppeth/genesis.go:585-590 | EIP-1344/1884/2028 and the EIP-1283 re-enable take the truncated Istanbul block. Every other field of the spec is unchanged |
| Parity.SetPrecompile | cmd/puppeth/genesis.go:549-558 | Parity's setPrecompile. A new entry has balance 0 and nonce 0 |
| Parity.AllocAccounts | cmd/puppeth/genesis.go:434-443 | the freshly made account map holds exactly the allocated addresses, each with its balance and nonce and no builtin |
| Parity.FillAccounts | cmd/puppeth/genesis.go:434-443 | the allocation loop in one fixed visiting order adds exactly the visited addresses to the map's keys |
| Parity.LoadAlloc | cmd/puppeth/genesis.go:434-443 | for any visiting order, the fresh account map holds exactly the allocated addresses with their balances and nonces and no builtins |
| Parity.FillAccountsLoads | cmd/puppeth/genesis.go:434-443 | writing distinct fresh allocation keys, in the order given, adds exactly their balance-and-nonce entries |
| Parity.AnyOrder | cmd/puppeth/genesis.go:434-443 | every order that ranges over the allocation once per key fills the fresh map with the same accounts |
| Parity.InstallBase | cmd/puppeth/genesis.go:444-455 | the four unconditional builtins are upserted at 0x01 to 0x04 |
| Parity.InstallByzantium | cmd/puppeth/genesis.go:456-485 | modexp (divisor 20) and the three curve builtins are upserted at 0x05 to 0x08, activating at Byzantium |
| Parity.InstallIstanbul | cmd/puppeth/genesis.go:486-544 | 0x06 to 0x08 get two-version prices (500→150, 40000→6000, 100000/80000→45000/34000) switching at Istanbul, still activating at Byzantium. blake2_f is added at 0x09 |
| Parity.Frontier | cmd/puppeth/genesis.go:371-382 | before any fork is read, the reward schedule holds only block 0 with the Frontier reward, the bomb-delay schedule is empty, and there is no account table |
| Parity.Skeleton | cmd/puppeth/genesis.go:371-432 | the spec built before the account table: no account table yet, and the name, lower-cased data directory and boot nodes from the caller. Its schedules, transitions and copied fields are stated by SkeletonSchedule, SkeletonTransitions and SkeletonCopies |
| Parity.NewParityChainSpec | cmd/puppeth/genesis.go:365-547 | fails with "unsupported consensus engine" exactly without Ethash, and with the Istanbul/Byzantium error exactly for Ethash with Istanbul but no Byzantium. Succeeds otherwise |
| Parity.SkeletonKept | cmd/puppeth/genesis.go:433-545 | after the header is written, a successful build changes nothing but the account table |
| Parity.PhaseTablesMatch | cmd/puppeth/genesis.go:444-544 | the union of the installed phases equals the address-by-address reference PrecompileAt |
| Parity.AccountsInstalled | cmd/puppeth/genesis.go:434-544 | the built account table is the allocation with the phase tables upserted on top |
| Parity.AccountTable | cmd/puppeth/genesis.go:434-544 | the built table holds the allocated addresses and exactly the builtins PrecompileAt names. Allocated balances and nonces are kept. A builtin-only entry has balance 0 and nonce 0 |
| Parity.TableFromPhases | cmd/puppeth/genesis.go:434-544 | any upsert of a table that matches PrecompileAt onto the loaded allocation meets TableMatches |
| Parity.SkeletonSchedule | cmd/puppeth/genesis.go:376-406 | the reward and bomb-delay schedules of the spec before its accounts are filled |
| Parity.SkeletonRewards | cmd/puppeth/genesis.go:376-406 | rewards are keyed by block 0 and the Byzantium and Constantinople blocks, and by nothing else. On a shared block the later fork's reward wins |
| Parity.SkeletonDelays | cmd/puppeth/genesis.go:376-406 | bomb delays are keyed only by the Byzantium and Constantinople blocks. On a shared block Constantinople's 2,000,000 wins |
| Parity.RewardSchedule | cmd/puppeth/genesis.go:376-406 | the same two schedules hold for the spec a successful build returns |
| Parity.SkeletonTransitions | cmd/puppeth/genesis.go:383-424 | all transition fields of the spec before its accounts are filled |
| Parity.SkeletonFixed | cmd/puppeth/genesis.go:383-424 | Homestead, EIP-150, EIP-155/160 and EIP-158/161abc/161d come from their blocks. EIP-98 is MaxInt64 and the code-size transition is 0 |
| Parity.SkeletonForks | cmd/puppeth/genesis.go:398-413 | each fork group takes its fork's truncated block when the fork is scheduled, and is 0 otherwise |
| Parity.SkeletonEarlyForks | cmd/puppeth/genesis.go:398-405 | EIP-100b/140/211/214/658 take the truncated Byzantium block and EIP-145/1014/1052/1283 the truncated Constantinople block, each 0 when its fork is not scheduled |
| Parity.SkeletonLateForks | cmd/puppeth/genesis.go:406-413 | the EIP-1283 disable takes the truncated Petersburg block, and EIP-1344/1884/2028 and the EIP-1283 re-enable the truncated Istanbul block, each 0 when its fork is not scheduled |
| Parity.Transitions | cmd/puppeth/genesis.go:383-424 | the same transitions hold for the spec a successful build returns |
| Parity.SkeletonCopies | cmd/puppeth/genesis.go:371-432 | the name, lower-cased data directory and boot nodes come from the caller. The network id equals the truncated chain id and the start nonce is 0. The constants and header fields are copied |
| Parity.ParamsAndHeader | cmd/puppeth/genesis.go:371-432 | the same copies hold for the spec a successful build returns |
| PyEthereum.NewPyEthereumGenesisSpec | cmd/puppeth/genesis.go:608-625 | succeeds exactly for Ethash, and otherwise fails with "unsupported consensus engine". The allocation is carried over whole |
| PyEthereum.RoundTrip | cmd/puppeth/genesis.go:613-623 | the spec together with the chain configuration gives back the original genesis |
| PyEthereum.IgnoresForks | cmd/puppeth/genesis.go:608-625 | two Ethash genesis values that differ only in their configuration give the same spec |
| Translator.UnsupportedEngineRejected | cmd/puppeth/genesis.go:99-101 | without Ethash all three builders return the same error, with the text "unsupported consensus engine", whatever the rest of the configuration holds. The Parity and PyEthereum checks are at lines 367-369 and 610-612 |
| Translator.ForkDependencyVerdicts | cmd/puppeth/genesis.go:181-184 | with Istanbul but no Byzantium, Aleth refuses with the fork-dependency error and its text whenever it can read the chain id, Parity does the same whenever it can read its fork blocks (lines 486-489), and PyEthereum still succeeds |
| Translator.NoForksFourBuiltins | cmd/puppeth/genesis.go:161-180 | without Byzantium and Istanbul, Aleth carries builtins exactly at 0x01 to 0x04, and so does Parity whenever it can read its fork blocks |
| Translator.AlethBaseOnly | cmd/puppeth/genesis.go:161-180 | an Aleth table that matches a schedule without Byzantium has builtins exactly at 0x01 to 0x04 |
| Translator.ParityBaseOnly | cmd/puppeth/genesis.go:444-485 | a Parity table that matches a schedule without Byzantium has builtins exactly at 0x01 to 0x04 |
| Translator.IstanbulPhaseWins | cmd/puppeth/genesis.go:185-192 | with both forks scheduled, Aleth's 0x06 and 0x07 lose their linear pricing, and Parity's 0x06 to 0x08 (whenever Parity can read its fork blocks) carry two-version prices switching at Istanbul (lines 490-537). All of them still start at Byzantium |
| Translator.AlethIstanbul | cmd/puppeth/genesis.go:185-192 | the Aleth half of IstanbulPhaseWins, for any table that matches the schedule |
| Translator.ParityIstanbul | cmd/puppeth/genesis.go:490-537 | the Parity half of IstanbulPhaseWins, for any table that matches the schedule |
| Translator.WorkedExample | cmd/puppeth/genesis.go:97-199 | chain 1234 with Byzantium at 10, Istanbul at 20 and account 0x01 holding 100. The Aleth spec has chain and network id 1234, and 0x01 keeps its balance and also holds ecrecover. modexp is at 0x05 from block 10 and blake2_compression is at 0x09 from block 20 |
| Translator.ExampleTable | cmd/puppeth/genesis.go:157-197 | the account-table half of the worked example |

## Left out

- JSON encoding is not modelled. This covers struct tags, hex and decimal
  number codecs, `common.EncodeBig` map keys and `types.EncodeNonce`. Block
  numbers and rewards are numbers, the nonce is a `U64`, and schedule keys
  are the block numbers themselves.
- The `network` argument of the Aleth and PyEthereum builders is never read
  by them, so those models do not take it.
- go-ethereum's `params` and `ethash` constants are inputs (`Protocol`)
  rather than fixed values, because they are defined outside this file.
  `strings.ToLower` is a function parameter for the same reason.
- Parity's versioned pricing is a JSON object keyed by a `*big.Int` block
  number. It is modelled as a two-element sequence of (activation, price)
  pairs. With Istanbul at block 0 both versions sit at block 0, where the
  JSON would carry the same key twice. The `info` field of a price version
  is not modelled.
- `parityChainSpecPricing` holds optional fields (nil when unused), of
  which the code always sets exactly one. It is modelled as a sum type `Pricing`.
- PyEthereum's `Alloc` shares the genesis map. It is modelled as a value
  copy, because the model has no mutation.
- A nil or negative balance or difficulty is not modelled: balances and
  difficulty are `nat`. The Go code would panic on a nil balance in the
  Parity loop.
- A negative chain id or fork block is not modelled: both are `nat`. In Go
  they are `*big.Int`. On a negative value `Uint64()` returns the low 64
  bits of the absolute value, and `common.EncodeBig` writes a "-0x…"
  schedule key (lines 561 and 572).
- `Types.Genesis` models only the genesis fields the builders read.
  go-ethereum's `core.Genesis` also has `Number` and `GasUsed`, which are
  not modelled. newPyEthereumGenesisSpec drops them too (lines 613-623), so
  `PyEthereum.RoundTrip` is lossless over the modelled fields only.
- Aleth and Parity keep only each allocated account's balance and nonce.
  Its code, storage and private key are dropped, both by the Go code
  (lines 222-223 and 437-442) and by the model. PyEthereum carries the
  whole account over. Other forks (DAO, Muir Glacier and so on) and Clique
  are not modelled.
- Parity.NewParityChainSpec: the nil-dereference panics on the Homestead,
  EIP-150, EIP-155, EIP-158 and chain-id fields are not modelled as
  outcomes. `Parity.Readable` requires those fields for an Ethash genesis.
- All three builders read `genesis.Config` without a nil check (lines 99,
  367 and 610). The model's `Genesis` always has a configuration, so that
  panic is not modelled.
- Aleth.NewAlethGenesisSpec: the nil-dereference panic on a missing chain id
  is not modelled as an outcome. `Aleth.Readable` requires the chain id for
  an Ethash genesis.
- Idempotence and determinism need no lemma, because every builder is a
  pure function of its inputs.
- `cmd/puppeth/wizard_genesis.go` and the other callers that write these
  specs to disk are not part of this model.
