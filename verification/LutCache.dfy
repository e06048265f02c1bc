/**
 The cache of lookup tables shared by concurrent fetches: what one fetch returns and stores, when that keeps the cache
 in agreement with direct loads, and the invariant of fetches that interleave.
 */
module LutCache {
  import opened Wrappers
  import opened LookupTable
  import opened LutOwner

  type Cache = map<Pubkey, TableAccount>

  /** Every cached table is the one a direct load of its key gives. */
  ghost predicate Right(chain: Chain, cache: Cache) {
    forall key :: key in cache ==> LoadLookupTable(chain, key) == Ok(cache[key])
  }

  function Hits(cache: Cache, keys: seq<Pubkey>): seq<TableAccount> {
    if keys == [] then []
    else if keys[|keys| - 1] in cache then Hits(cache, keys[..|keys| - 1]) + [cache[keys[|keys| - 1]]]
    else Hits(cache, keys[..|keys| - 1])
  }

  function Missed(cache: Cache, keys: seq<Pubkey>): (r: seq<Pubkey>)
    ensures forall i :: 0 <= i < |r| ==> r[i] in keys && r[i] !in cache
  {
    if keys == [] then []
    else if keys[|keys| - 1] in cache then Missed(cache, keys[..|keys| - 1])
    else Missed(cache, keys[..|keys| - 1]) + [keys[|keys| - 1]]
  }

  /** Storing the tables under the keys, place by place, up to the end of the shorter list. */
  function StoreZip(cache: Cache, keys: seq<Pubkey>, tables: seq<TableAccount>, n: nat): Cache
    requires n <= |keys| && n <= |tables|
  {
    if n == 0 then cache else StoreZip(cache, keys, tables, n - 1)[keys[n - 1] := tables[n - 1]]
  }

  function Shorter(a: nat, b: nat): nat { if a <= b then a else b }

  class SbContext {
    var lutCache: Cache

    constructor ()
      ensures lutCache == map[]
    {
      lutCache := map[];
    }

    /** `fetch_and_cache_luts`: the cached tables, then the tables loaded for the other keys. */
    method FetchAndCacheLuts(chain: Chain, keys: seq<Pubkey>) returns (r: Result<seq<TableAccount>, LoadError>)
      requires chain.Valid()
      modifies this`lutCache
      ensures var missed := Missed(old(lutCache), keys);
              var fetched := Loaded(chain, missed);
              if missed == [] || chain.answers then
                && r == Ok(Hits(old(lutCache), keys) + fetched)
                && lutCache == StoreZip(old(lutCache), missed, fetched, Shorter(|missed|, |fetched|))
              else r == Err(NoAnswer) && lutCache == old(lutCache)
    {
      var luts: seq<TableAccount> := [];
      var keysToFetch: seq<Pubkey> := [];
      for i := 0 to |keys|
        invariant luts == Hits(lutCache, keys[..i]) && keysToFetch == Missed(lutCache, keys[..i])
      {
        assert keys[..i + 1][..i] == keys[..i];
        if keys[i] in lutCache {
          luts := luts + [lutCache[keys[i]]];
        } else {
          keysToFetch := keysToFetch + [keys[i]];
        }
      }
      assert keys[..|keys|] == keys;
      if keysToFetch != [] {
        var fetchedLuts :- LoadLookupTables(chain, keysToFetch);
        LoadedShorter(chain, keysToFetch);
        assert fetchedLuts[..|fetchedLuts|] == fetchedLuts;
        luts := StoreAndPush(luts, keysToFetch, fetchedLuts);
      }
      assert Hits(old(lutCache), keys) + [] == Hits(old(lutCache), keys);
      return Ok(luts);
    }

    /** The loop over the zipped keys and tables. */
    method StoreAndPush(luts: seq<TableAccount>, keys: seq<Pubkey>, tables: seq<TableAccount>)
      returns (out: seq<TableAccount>)
      modifies this`lutCache
      ensures var n := Shorter(|keys|, |tables|);
              lutCache == StoreZip(old(lutCache), keys, tables, n) && out == luts + tables[..n]
    {
      out := luts;
      for i := 0 to Shorter(|keys|, |tables|)
        invariant lutCache == StoreZip(old(lutCache), keys, tables, i) && out == luts + tables[..i]
      {
        lutCache := lutCache[keys[i] := tables[i]];
        out := out + [tables[i]];
      }
    }
  }

  lemma {:induction false} LoadedShorter(chain: Chain, keys: seq<Pubkey>)
    ensures |Loaded(chain, keys)| <= |keys|
    ensures |Loaded(chain, keys)| == |keys| <==> forall i :: 0 <= i < |keys| ==> Loads(chain, keys[i])
  {
    if keys != [] {
      LoadedShorter(chain, keys[1..]);
      assert forall i :: 1 <= i < |keys| ==> keys[i] == keys[1..][i - 1];
    }
  }

  // ----- one fetch -----

  /** Among these keys, those that fail to load come last. */
  predicate FailuresLast(chain: Chain, keys: seq<Pubkey>) {
    forall i, j :: 0 <= i < j < |keys| && Loads(chain, keys[j]) ==> Loads(chain, keys[i])
  }

  /** Where the first key that fails to load stands, or the end. */
  function FirstFailure(chain: Chain, keys: seq<Pubkey>): (f: nat)
    ensures f <= |keys| && (f < |keys| ==> !Loads(chain, keys[f]))
    ensures forall i :: 0 <= i < f ==> Loads(chain, keys[i])
  {
    if keys == [] || !Loads(chain, keys[0]) then 0 else FirstFailure(chain, keys[1..]) + 1
  }

  /** Before the first failure the tables stand in the places of their keys; more come only from later keys. */
  lemma {:induction false} LoadedAligned(chain: Chain, keys: seq<Pubkey>)
    ensures var f, tables := FirstFailure(chain, keys), Loaded(chain, keys);
            && |tables| >= f
            && (forall i :: 0 <= i < f ==> LoadLookupTable(chain, keys[i]) == Ok(tables[i]))
            && (|tables| > f <==> exists j :: f <= j < |keys| && Loads(chain, keys[j]))
  {
    if keys != [] {
      if Loads(chain, keys[0]) {
        LoadedAligned(chain, keys[1..]);
        assert forall i :: 1 <= i < |keys| ==> keys[i] == keys[1..][i - 1];
      } else {
        SomeLoads(chain, keys);
      }
    }
  }

  lemma {:induction false} SomeLoads(chain: Chain, keys: seq<Pubkey>)
    ensures Loaded(chain, keys) != [] <==> exists j :: 0 <= j < |keys| && Loads(chain, keys[j])
  {
    if keys != [] {
      SomeLoads(chain, keys[1..]);
      assert forall i :: 1 <= i < |keys| ==> keys[i] == keys[1..][i - 1];
    }
  }

  lemma {:induction false} StoreKeepsRight(chain: Chain, cache: Cache, keys: seq<Pubkey>,
                                           tables: seq<TableAccount>, n: nat)
    requires n <= |keys| && n <= |tables| && Right(chain, cache)
    requires forall i :: 0 <= i < n ==> LoadLookupTable(chain, keys[i]) == Ok(tables[i])
    ensures Right(chain, StoreZip(cache, keys, tables, n))
  {
    if n > 0 {
      StoreKeepsRight(chain, cache, keys, tables, n - 1);
      var (before, key, table) := (StoreZip(cache, keys, tables, n - 1), keys[n - 1], tables[n - 1]);
      RightMore(chain, before, key, table);
      assert StoreZip(cache, keys, tables, n) == before[key := table];
    }
  }

  lemma RightMore(chain: Chain, cache: Cache, key: Pubkey, table: TableAccount)
    requires Right(chain, cache) && LoadLookupTable(chain, key) == Ok(table)
    ensures Right(chain, cache[key := table])
  {
  }

  /** Each of the first `n` keys is stored, with the table of its last place among them. */
  lemma {:induction false} Stored(cache: Cache, keys: seq<Pubkey>, tables: seq<TableAccount>, n: nat, i: nat)
    requires i < n <= |keys| && n <= |tables|
    ensures var after := StoreZip(cache, keys, tables, n);
            keys[i] in after && (keys[i] !in keys[i + 1..n] ==> after[keys[i]] == tables[i])
  {
    if i < n - 1 {
      Stored(cache, keys, tables, n - 1, i);
      assert keys[i + 1..n] == keys[i + 1..n - 1] + [keys[n - 1]];
    }
  }

  /** No other key is touched. */
  lemma {:induction false} NotStored(cache: Cache, keys: seq<Pubkey>, tables: seq<TableAccount>, n: nat, key: Pubkey)
    requires n <= |keys| && n <= |tables| && key !in keys[..n]
    ensures var after := StoreZip(cache, keys, tables, n);
            (key in after <==> key in cache) && (key in cache ==> after[key] == cache[key])
  {
    if n > 0 {
      assert keys[..n] == keys[..n - 1] + [keys[n - 1]];
      NotStored(cache, keys, tables, n - 1, key);
    }
  }

  lemma LastTable(chain: Chain, keys: seq<Pubkey>)
    requires keys != []
    ensures multiset(Loaded(chain, keys)) ==
            multiset(Loaded(chain, keys[..|keys| - 1])) + multiset(Loaded(chain, [keys[|keys| - 1]]))
  {
    assert keys == keys[..|keys| - 1] + [keys[|keys| - 1]];
    LoadedAppend(chain, keys[..|keys| - 1], [keys[|keys| - 1]]);
  }

  /** From a right cache, found and loaded tables together are a rearrangement of loading all keys. */
  lemma {:induction false} HitsAndLoaded(chain: Chain, cache: Cache, keys: seq<Pubkey>)
    requires Right(chain, cache)
    ensures multiset(Hits(cache, keys)) + multiset(Loaded(chain, Missed(cache, keys))) == multiset(Loaded(chain, keys))
    decreases |keys|
  {
    if keys != [] {
      var n := |keys| - 1;
      HitsAndLoaded(chain, cache, keys[..n]);
      LastTable(chain, keys);
      assert Loaded(chain, []) == [] && [keys[n]][1..] == [];
      if keys[n] in cache {
        assert Loaded(chain, [keys[n]]) == [cache[keys[n]]];
      } else {
        var missed := Missed(cache, keys);
        LastTable(chain, missed);
        assert missed[..|missed| - 1] == Missed(cache, keys[..n]);
      }
    }
  }

  /**
   After a fetch a cache that was right is still right exactly when, among the keys it missed, no failing key comes
   before one that loads: zipping keys with a list that leaves out failures shifts every later table.
   */
  lemma StaysRightExactly(chain: Chain, cache: Cache, missed: seq<Pubkey>)
    requires Right(chain, cache)
    ensures var fetched := Loaded(chain, missed);
            |fetched| <= |missed| &&
            (Right(chain, StoreZip(cache, missed, fetched, |fetched|)) <==> FailuresLast(chain, missed))
  {
    var f, fetched := FirstFailure(chain, missed), Loaded(chain, missed);
    LoadedAligned(chain, missed);
    LoadedShorter(chain, missed);
    if |fetched| == f {
      StoreKeepsRight(chain, cache, missed, fetched, f);
      assert FailuresLast(chain, missed);
    } else {
      Stored(cache, missed, fetched, |fetched|, f);
    }
  }

  /** The shift at work: a key without a table is stored with the table of the key after it, which stays uncached. */
  lemma ZipMisplaces(chain: Chain, failing: Pubkey, loading: Pubkey)
    requires !Loads(chain, failing) && Loads(chain, loading) && failing != loading
    ensures var table := LoadLookupTable(chain, loading).value;
            var missed := Missed(map[], [failing, loading]);
            var fetched := Loaded(chain, missed);
            var after := StoreZip(map[], missed, fetched, Shorter(|missed|, |fetched|));
            after == map[failing := table] && Hits(after, [failing]) == [table] && loading !in after
  {
    var missed := [failing, loading];
    assert missed[..1] == [failing] && Missed(map[], [failing]) == [failing];
    assert Missed(map[], missed) == missed;
    assert missed[1..] == [loading] && Loaded(chain, [loading]) == [LoadLookupTable(chain, loading).value];
    assert Loaded(chain, missed) == Loaded(chain, [loading]);
  }
}
