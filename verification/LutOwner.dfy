/**
 Loading the lookup tables that oracles, feeds and queues own: the loader for one key, and the batch loader with its
 two skipping loops.
 */
module LutOwner {
  import opened Wrappers
  import opened Bytes
  import opened LookupTable

  datatype TableAccount = TableAccount(key: Pubkey, addresses: seq<Pubkey>)

  /**
   The accounts on chain, whether the node answers, and the derivations the loaders treat as black boxes: reading an
   owner's slot from its account, the signer of its table, and the address of a table.
   */
  datatype Chain = Chain(
    accounts: Pubkey -> Option<seq<byte>>,
    answers: bool,
    ownerSlot: seq<byte> -> Option<Slot>,
    lutSigner: Pubkey -> Pubkey,
    tableAddress: (Pubkey, Slot) -> Pubkey)
  {
    /** No owner type is empty, so no owner reads from no bytes. */
    predicate Valid() { ownerSlot([]).None? }

    function TableKey(owner: Pubkey, slot: Slot): Pubkey { tableAddress(lutSigner(owner), slot) }
  }

  datatype LoadError = OracleNotFound | SlicePanics | InvalidData | LutNotFound | InvalidLutData | NoAnswer

  /** `load_lookup_table`: slicing off the discriminator panics on an account of fewer than 8 bytes. */
  function LoadLookupTable(chain: Chain, key: Pubkey): Result<TableAccount, LoadError> {
    match chain.accounts(key)
    case None => Err(OracleNotFound)
    case Some(data) =>
      if |data| < 8 then Err(SlicePanics) else
      match chain.ownerSlot(data[8..])
      case None => Err(InvalidData)
      case Some(slot) =>
        var lutKey := chain.TableKey(key, slot);
        match chain.accounts(lutKey)
        case None => Err(LutNotFound)
        case Some(lut) => (
          match Deserialize(lut)
          case Err(_) => Err(InvalidLutData)
          case Ok(table) => Ok(TableAccount(lutKey, table.addresses)))
  }

  /** The address of the owner's table: derived from the signer of that owner and the slot in its account. */
  function Derived(chain: Chain, key: Pubkey, data: seq<byte>): Option<Pubkey> {
    if |data| < 8 then None else
    match chain.ownerSlot(data[8..])
    case Some(slot) => Some(chain.tableAddress(chain.lutSigner(key), slot))
    case None => None
  }

  /** `table` is the one that the owner's account leads to, with the addresses its account parses to. */
  ghost predicate Owns(chain: Chain, key: Pubkey, table: TableAccount) {
    && chain.accounts(key).Some? && Derived(chain, key, chain.accounts(key).value) == Some(table.key)
    && chain.accounts(table.key).Some?
    && exists meta :: Deserialize(chain.accounts(table.key).value) == Ok(Table(meta, table.addresses))
  }

  function TableAccountOf(chain: Chain, key: Pubkey, data: seq<byte>): Option<Option<seq<byte>>> {
    var address :- Derived(chain, key, data);
    Some(chain.accounts(address))
  }

  /** Loading a key gives exactly the table that its owner owns, and otherwise says at which step it failed. */
  lemma LoadsExactly(chain: Chain, key: Pubkey)
    ensures forall table :: LoadLookupTable(chain, key) == Ok(table) <==> Owns(chain, key, table)
    ensures var (owner, r) := (chain.accounts(key), LoadLookupTable(chain, key));
            && (r == Err(OracleNotFound) <==> owner.None?)
            && (r == Err(SlicePanics) <==> owner.Some? && |owner.value| < 8)
            && (r == Err(InvalidData) <==>
                owner.Some? && |owner.value| >= 8 && chain.ownerSlot(owner.value[8..]).None?)
            && (r == Err(LutNotFound) <==> owner.Some? && TableAccountOf(chain, key, owner.value) == Some(None))
            && (r == Err(InvalidLutData) ==>
                owner.Some? && TableAccountOf(chain, key, owner.value).Some? &&
                TableAccountOf(chain, key, owner.value).value.Some?)
            && r != Err(NoAnswer)
  {
    forall table | Owns(chain, key, table)
      ensures LoadLookupTable(chain, key) == Ok(table)
    {
      var meta :| Deserialize(chain.accounts(table.key).value) == Ok(Table(meta, table.addresses));
    }
    var r := LoadLookupTable(chain, key);
    if r.Ok? {
      var table := Deserialize(chain.accounts(r.value.key).value).value;
      assert Deserialize(chain.accounts(r.value.key).value) == Ok(Table(table.meta, r.value.addresses));
    }
  }

  predicate Loads(chain: Chain, key: Pubkey) { LoadLookupTable(chain, key).Ok? }

  /** What loading the keys one by one gives, without those that fail. */
  function Loaded(chain: Chain, keys: seq<Pubkey>): seq<TableAccount> {
    if keys == [] then [] else
    match LoadLookupTable(chain, keys[0])
    case Ok(table) => [table] + Loaded(chain, keys[1..])
    case Err(_) => Loaded(chain, keys[1..])
  }

  function AccountToVec(account: Option<seq<byte>>): seq<byte> {
    match account
    case Some(data) => if |data| >= 8 then data[8..] else []
    case None => []
  }

  /** `get_multiple_accounts`: one answer a key, in order. */
  function GetMultipleAccounts(chain: Chain, keys: seq<Pubkey>): (r: seq<Option<seq<byte>>>)
    ensures |r| == |keys| && forall i :: 0 <= i < |keys| ==> r[i] == chain.accounts(keys[i])
  {
    seq(|keys|, i requires 0 <= i < |keys| => chain.accounts(keys[i]))
  }

  // ----- the batch loader -----

  /** The table addresses of the owners that parse. */
  function OwnerTables(chain: Chain, keys: seq<Pubkey>): seq<Pubkey> {
    if keys == [] then [] else
    match chain.ownerSlot(AccountToVec(chain.accounts(keys[0])))
    case Some(slot) => [chain.TableKey(keys[0], slot)] + OwnerTables(chain, keys[1..])
    case None => OwnerTables(chain, keys[1..])
  }

  /** The tables among these addresses that parse. */
  function ParsedTables(chain: Chain, lutKeys: seq<Pubkey>): seq<TableAccount> {
    if lutKeys == [] then [] else
    match Deserialize(DataOrEmpty(chain.accounts(lutKeys[0])))
    case Ok(table) => [TableAccount(lutKeys[0], table.addresses)] + ParsedTables(chain, lutKeys[1..])
    case Err(_) => ParsedTables(chain, lutKeys[1..])
  }

  function DataOrEmpty(account: Option<seq<byte>>): seq<byte> {
    if account.Some? then account.value else []
  }

  /** The first loop of `load_lookup_tables`, over the owners' accounts. */
  method CollectTableKeys(chain: Chain, keys: seq<Pubkey>, accounts: seq<seq<byte>>) returns (lutKeys: seq<Pubkey>)
    requires |accounts| == |keys| && forall i :: 0 <= i < |keys| ==>
               accounts[i] == AccountToVec(chain.accounts(keys[i]))
    ensures lutKeys == OwnerTables(chain, keys)
  {
    lutKeys := [];
    for idx := 0 to |accounts|
      invariant lutKeys == OwnerTables(chain, keys[..idx])
    {
      OwnerTablesSnoc(chain, keys[..idx], keys[idx]);
      assert keys[..idx + 1] == keys[..idx] + [keys[idx]];
      var data := chain.ownerSlot(accounts[idx]);
      if data.None? { continue; }
      var lutSigner := chain.lutSigner(keys[idx]);
      lutKeys := lutKeys + [chain.tableAddress(lutSigner, data.value)];
    }
    assert keys[..|keys|] == keys;
  }

  /** Its second loop, over the tables' accounts. */
  method ParseTables(chain: Chain, lutKeys: seq<Pubkey>, lutDatas: seq<seq<byte>>) returns (out: seq<TableAccount>)
    requires |lutDatas| == |lutKeys|
    requires forall i :: 0 <= i < |lutKeys| ==> lutDatas[i] == DataOrEmpty(chain.accounts(lutKeys[i]))
    ensures out == ParsedTables(chain, lutKeys)
  {
    out := [];
    for idx := 0 to |lutDatas|
      invariant out == ParsedTables(chain, lutKeys[..idx])
    {
      ParsedTablesSnoc(chain, lutKeys[..idx], lutKeys[idx]);
      assert lutKeys[..idx + 1] == lutKeys[..idx] + [lutKeys[idx]];
      var parsed := Deserialize(lutDatas[idx]);
      if parsed.Ok? {
        out := out + [TableAccount(lutKeys[idx], parsed.value.addresses)];
      }
    }
    assert lutKeys[..|lutKeys|] == lutKeys;
  }

  /**
   `load_lookup_tables`: although both loops skip, and the second indexes a list the first has shortened, the batch
   is what loading each key alone gives, in the order of the keys, without the keys that fail.
   */
  method LoadLookupTables(chain: Chain, keys: seq<Pubkey>) returns (r: Result<seq<TableAccount>, LoadError>)
    requires chain.Valid()
    ensures r == if chain.answers then Ok(Loaded(chain, keys)) else Err(NoAnswer)
  {
    if !chain.answers { return Err(NoAnswer); }
    var accounts := GetMultipleAccounts(chain, keys);
    var accountsData := seq(|keys|, i requires 0 <= i < |keys| => AccountToVec(accounts[i]));
    var lutKeys := CollectTableKeys(chain, keys, accountsData);
    var answers := GetMultipleAccounts(chain, lutKeys);
    var lutDatas := seq(|lutKeys|, i requires 0 <= i < |lutKeys| => DataOrEmpty(answers[i]));
    var out := ParseTables(chain, lutKeys, lutDatas);
    TwoSkips(chain, keys);
    return Ok(out);
  }

  lemma {:induction false} OwnerTablesSnoc(chain: Chain, keys: seq<Pubkey>, key: Pubkey)
    ensures OwnerTables(chain, keys + [key]) ==
            match chain.ownerSlot(AccountToVec(chain.accounts(key)))
            { case Some(slot) => OwnerTables(chain, keys) + [chain.TableKey(key, slot)]
              case None => OwnerTables(chain, keys) }
  {
    if keys == [] {
      assert OwnerTables(chain, []) == [];
      assert ([] + [key])[1..] == [];
    } else {
      assert (keys + [key])[1..] == keys[1..] + [key];
      OwnerTablesSnoc(chain, keys[1..], key);
    }
  }

  lemma {:induction false} ParsedTablesSnoc(chain: Chain, lutKeys: seq<Pubkey>, key: Pubkey)
    ensures ParsedTables(chain, lutKeys + [key]) ==
            match Deserialize(DataOrEmpty(chain.accounts(key)))
            { case Ok(t) => ParsedTables(chain, lutKeys) + [TableAccount(key, t.addresses)]
              case Err(_) => ParsedTables(chain, lutKeys) }
  {
    if lutKeys == [] {
      assert ParsedTables(chain, []) == [];
      assert ([] + [key])[1..] == [];
    } else {
      assert (lutKeys + [key])[1..] == lutKeys[1..] + [key];
      ParsedTablesSnoc(chain, lutKeys[1..], key);
    }
  }

  /** Skipping owners first and tables after is skipping the keys that fail. */
  lemma {:induction false} TwoSkips(chain: Chain, keys: seq<Pubkey>)
    requires chain.Valid()
    ensures ParsedTables(chain, OwnerTables(chain, keys)) == Loaded(chain, keys)
  {
    if keys != [] {
      TwoSkips(chain, keys[1..]);
      var owner := chain.ownerSlot(AccountToVec(chain.accounts(keys[0])));
      if owner.Some? {
        var lutKeys := OwnerTables(chain, keys);
        assert lutKeys[0] == chain.TableKey(keys[0], owner.value) && lutKeys[1..] == OwnerTables(chain, keys[1..]);
      }
    }
  }

  // ----- what the batch holds -----

  /** The places of the keys that load. */
  function Places(chain: Chain, keys: seq<Pubkey>): (r: seq<nat>)
    ensures forall i :: 0 <= i < |r| ==> r[i] < |keys| && Loads(chain, keys[r[i]])
    ensures forall i, j :: 0 <= i < j < |r| ==> r[i] < r[j]
    ensures forall k :: 0 <= k < |keys| && Loads(chain, keys[k]) ==> k in r
  {
    if keys == [] then [] else
    var n := |keys| - 1;
    var before := Places(chain, keys[..n]);
    if Loads(chain, keys[n]) then before + [n] else before
  }

  lemma {:induction false} LoadedAppend(chain: Chain, keys: seq<Pubkey>, more: seq<Pubkey>)
    ensures Loaded(chain, keys + more) == Loaded(chain, keys) + Loaded(chain, more)
  {
    if keys == [] {
      assert keys + more == more;
    } else {
      assert (keys + more)[1..] == keys[1..] + more;
      LoadedAppend(chain, keys[1..], more);
    }
  }

  /** The batch is the tables of exactly the keys that own one, in rising order of their places. */
  lemma LoadedInOrder(chain: Chain, keys: seq<Pubkey>)
    ensures var places, tables := Places(chain, keys), Loaded(chain, keys);
            && |tables| == |places|
            && (forall i :: 0 <= i < |places| ==> Owns(chain, keys[places[i]], tables[i]))
            && (forall i, j :: 0 <= i < j < |places| ==> places[i] < places[j])
            && (forall k, table :: 0 <= k < |keys| && Owns(chain, keys[k], table) ==> k in places)
  {
    var places, tables := Places(chain, keys), Loaded(chain, keys);
    LoadedAtPlaces(chain, keys);
    forall i | 0 <= i < |places|
      ensures Owns(chain, keys[places[i]], tables[i])
    {
      LoadsExactly(chain, keys[places[i]]);
      assert LoadLookupTable(chain, keys[places[i]]) == Ok(tables[i]);
    }
    forall k, table | 0 <= k < |keys| && Owns(chain, keys[k], table)
      ensures k in places
    {
      LoadsExactly(chain, keys[k]);
      assert LoadLookupTable(chain, keys[k]) == Ok(table);
    }
  }

  lemma {:induction false} LoadedAtPlaces(chain: Chain, keys: seq<Pubkey>)
    ensures var places, tables := Places(chain, keys), Loaded(chain, keys);
            |tables| == |places| &&
            forall i :: 0 <= i < |places| ==> Ok(tables[i]) == LoadLookupTable(chain, keys[places[i]])
    decreases |keys|
  {
    if keys != [] {
      var n := |keys| - 1;
      LoadedAtPlaces(chain, keys[..n]);
      LoadedAppend(chain, keys[..n], [keys[n]]);
      assert keys == keys[..n] + [keys[n]];
      assert Loaded(chain, []) == [];
      assert Loaded(chain, [keys[n]]) == if Loads(chain, keys[n]) then [LoadLookupTable(chain, keys[n]).value] else [];
    }
  }
}
