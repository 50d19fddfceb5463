/** The account table a chain spec carries: prefunded accounts and builtin
    (precompiled) contract definitions share one address-keyed map, and a
    builtin is installed by an upsert that keeps the balance and nonce already
    there. `Bal` is the balance representation of the target format and `B`
    its builtin definition. */
module Registry {
  import opened Types

  datatype Account<Bal, B> = Account(balance: Bal, nonce: U64, builtin: Option<B>)

  type Accounts<Bal, B> = map<Address, Account<Bal, B>>

  /** A Go map field: `None` is the nil map, which reads as empty. */
  type Table<Bal, B> = Option<Accounts<Bal, B>>

  function Entries<Bal, B>(t: Table<Bal, B>): Accounts<Bal, B>
  {
    if t.Some? then t.value else map[]
  }

  /** The address whose only non-zero byte is the last one. */
  function AddressOf(b: Byte): Address
  {
    b
  }

  /** The entry at `a`, or the zero-valued entry a Go struct literal gives. */
  function Existing<Bal, B>(m: Accounts<Bal, B>, a: Address, zero: Bal): Account<Bal, B>
  {
    if a in m then m[a] else Account(zero, 0, None)
  }

  /** setPrecompile: creates the map when it is nil, creates a zero entry when
      the address is new, and then replaces that entry's builtin. */
  function SetBuiltin<Bal, B>(t: Table<Bal, B>, address: Byte, data: B, zero: Bal): (r: Table<Bal, B>)
    ensures r.Some?
    ensures Entries(r).Keys == Entries(t).Keys + {AddressOf(address)}
    ensures Entries(r)[AddressOf(address)].builtin == Some(data)
    ensures AddressOf(address) in Entries(t) ==>
              && Entries(r)[AddressOf(address)].balance == Entries(t)[AddressOf(address)].balance
              && Entries(r)[AddressOf(address)].nonce == Entries(t)[AddressOf(address)].nonce
    ensures AddressOf(address) !in Entries(t) ==>
              Entries(r)[AddressOf(address)] == Account(zero, 0, Some(data))
    ensures forall a :: a in Entries(t) && a != AddressOf(address) ==> Entries(r)[a] == Entries(t)[a]
  {
    var m := Entries(t);
    var a := AddressOf(address);
    Some(m[a := Existing(m, a, zero).(builtin := Some(data))])
  }

  /** `after` is `before` with every builtin of `table` upserted. */
  ghost predicate Installed<Bal, B>(before: Accounts<Bal, B>, after: Accounts<Bal, B>, table: map<Address, B>, zero: Bal)
  {
    && after.Keys == before.Keys + table.Keys
    && (forall a :: a in table ==> after[a] == Existing(before, a, zero).(builtin := Some(table[a])))
    && (forall a :: a in before && a !in table ==> after[a] == before[a])
  }

  lemma InstalledNothing<Bal, B>(m: Accounts<Bal, B>, zero: Bal)
    ensures Installed(m, m, map[], zero)
  {
  }

  /** One more upsert extends what a phase has installed so far. */
  lemma InstalledStep<Bal, B>(m0: Accounts<Bal, B>, t: Table<Bal, B>, table: map<Address, B>,
                               address: Byte, data: B, zero: Bal)
    requires Installed(m0, Entries(t), table, zero)
    ensures Installed(m0, Entries(SetBuiltin(t, address, data, zero)), table[AddressOf(address) := data], zero)
  {
  }

  /** Two upsert phases in a row install their union, the later phase winning
      on a shared address. */
  lemma InstalledCompose<Bal, B>(m0: Accounts<Bal, B>, m1: Accounts<Bal, B>, m2: Accounts<Bal, B>,
                                  t1: map<Address, B>, t2: map<Address, B>, zero: Bal)
    requires Installed(m0, m1, t1, zero)
    requires Installed(m1, m2, t2, zero)
    ensures Installed(m0, m2, t1 + t2, zero)
  {
    forall a | a in t1 + t2
      ensures m2[a] == Existing(m0, a, zero).(builtin := Some((t1 + t2)[a]))
    {
      if a in t2 {
        var e0, e1 := Existing(m0, a, zero), Existing(m1, a, zero);
        assert e1.balance == e0.balance && e1.nonce == e0.nonce;
      }
    }
  }

  /** setPrecompile applied to each (address, builtin) pair in turn. */
  function InstallAll<Bal, B>(t: Table<Bal, B>, entries: seq<(Byte, B)>, zero: Bal): (r: Table<Bal, B>)
    ensures r.None? <==> t.None? && |entries| == 0
    ensures Entries(r).Keys == Entries(t).Keys + TableOf(entries).Keys
    decreases |entries|
  {
    if |entries| == 0 then t
    else InstallAll(SetBuiltin(t, entries[0].0, entries[0].1, zero), entries[1..], zero)
  }

  /** The builtins a list of pairs names, a later pair winning on a repeated
      address. */
  function TableOf<B>(entries: seq<(Byte, B)>): map<Address, B>
    decreases |entries|
  {
    if |entries| == 0 then map[]
    else map[AddressOf(entries[0].0) := entries[0].1] + TableOf(entries[1..])
  }

  /** Running a list of upserts after a phase installs the phase's table
      overridden by the list's. */
  lemma {:induction false} InstallAllInstalls<Bal, B>(m0: Accounts<Bal, B>, t: Table<Bal, B>, entries: seq<(Byte, B)>,
                                                       table: map<Address, B>, zero: Bal)
    requires Installed(m0, Entries(t), table, zero)
    ensures Installed(m0, Entries(InstallAll(t, entries, zero)), table + TableOf(entries), zero)
    decreases |entries|
  {
    if |entries| == 0 {
      assert table + TableOf(entries) == table;
    } else {
      var address, data := entries[0].0, entries[0].1;
      var t1 := SetBuiltin(t, address, data, zero);
      InstalledStep(m0, t, table, address, data, zero);
      InstallAllInstalls(m0, t1, entries[1..], table[AddressOf(address) := data], zero);
      OverrideFirst(table, entries);
    }
  }

  /** Three and four pairs name the map their display lists, in order. */
  lemma TableOfThree<B>(e: seq<(Byte, B)>)
    requires |e| == 3
    ensures TableOf(e) == map[AddressOf(e[0].0) := e[0].1, AddressOf(e[1].0) := e[1].1, AddressOf(e[2].0) := e[2].1]
  {
    assert TableOf(e[3..]) == map[];
    assert TableOf(e[2..]) == map[AddressOf(e[2].0) := e[2].1] + TableOf(e[3..]) by { assert e[2..][1..] == e[3..]; }
    assert TableOf(e[1..]) == map[AddressOf(e[1].0) := e[1].1] + TableOf(e[2..]) by { assert e[1..][1..] == e[2..]; }
    assert e[0..] == e;
  }

  lemma TableOfFour<B>(e: seq<(Byte, B)>)
    requires |e| == 4
    ensures TableOf(e) == map[AddressOf(e[0].0) := e[0].1, AddressOf(e[1].0) := e[1].1,
                              AddressOf(e[2].0) := e[2].1, AddressOf(e[3].0) := e[3].1]
  {
    TableOfThree(e[1..]);
    assert e[1..][0] == e[1] && e[1..][1] == e[2] && e[1..][2] == e[3];
  }

  /** A phase of upserts, run on any table, installs the pairs' table. */
  lemma InstallPhase<Bal, B>(t: Table<Bal, B>, entries: seq<(Byte, B)>, table: map<Address, B>, zero: Bal)
    requires TableOf(entries) == table
    ensures Installed(Entries(t), Entries(InstallAll(t, entries, zero)), table, zero)
  {
    InstalledNothing(Entries(t), zero);
    InstallAllInstalls(Entries(t), t, entries, map[], zero);
    assert map[] + TableOf(entries) == table;
  }

  lemma OverrideFirst<B>(table: map<Address, B>, entries: seq<(Byte, B)>)
    requires |entries| > 0
    ensures table[AddressOf(entries[0].0) := entries[0].1] + TableOf(entries[1..]) == table + TableOf(entries)
  {
    var a, d := AddressOf(entries[0].0), entries[0].1;
    var rest := TableOf(entries[1..]);
    assert TableOf(entries) == map[a := d] + rest;
    var lhs, rhs := table[a := d] + rest, table + (map[a := d] + rest);
    assert lhs.Keys == rhs.Keys;
    forall k | k in lhs ensures lhs[k] == rhs[k] {
    }
  }

  /** Upserting a table onto entries that hold no builtin: the builtins are
      exactly the table's, balances and nonces are the entries' own, and an
      entry the table added is zero-valued. */
  lemma InstalledOnto<Bal, B>(m0: Accounts<Bal, B>, acc: Accounts<Bal, B>, table: map<Address, B>, zero: Bal)
    requires Installed(m0, acc, table, zero)
    requires forall a :: a in m0 ==> m0[a].builtin == None
    ensures forall a :: a in acc <==> a in m0 || a in table
    ensures forall a :: a in acc ==> acc[a].builtin == (if a in table then Some(table[a]) else None)
    ensures forall a :: a in m0 ==> acc[a].balance == m0[a].balance && acc[a].nonce == m0[a].nonce
    ensures forall a :: a in acc && a !in m0 ==> acc[a].balance == zero && acc[a].nonce == 0
  {
  }
}
