/**
 Fetches that share the cache, as a state machine: every lookup of one key, every wait for the node and every insertion
 is a step of its own, and the steps of any number of fetches interleave in any order.
 */
module LutInterleaving {
  import opened Wrappers
  import opened LookupTable
  import opened LutOwner
  import opened LutCache

  datatype Phase = Scanning | Fetching | Storing | Returned | Failed

  /** A fetch under way.  `found` lists the keys found in the cache, which the program does not keep. */
  datatype Fetch = Fetch(
    keys: seq<Pubkey>,
    phase: Phase,
    scanned: nat,
    found: seq<Pubkey>,
    keysToFetch: seq<Pubkey>,
    luts: seq<TableAccount>,
    fetched: seq<TableAccount>,
    stored: nat)

  function Fresh(keys: seq<Pubkey>): Fetch { Fetch(keys, Scanning, 0, [], [], [], [], 0) }

  function Step(chain: Chain, cache: Cache, f: Fetch, answers: bool): (Cache, Fetch) {
    match f.phase
    case Scanning =>
      if f.scanned < |f.keys| then (cache, Scan(cache, f))
      else (cache, f.(phase := if f.keysToFetch == [] then Returned else Fetching))
    case Fetching =>
      (cache, if answers then f.(phase := Storing, fetched := Loaded(chain, f.keysToFetch)) else f.(phase := Failed))
    case Storing =>
      if f.stored < |f.keysToFetch| && f.stored < |f.fetched| then
        (cache[f.keysToFetch[f.stored] := f.fetched[f.stored]],
         f.(luts := f.luts + [f.fetched[f.stored]], stored := f.stored + 1))
      else (cache, f.(phase := Returned))
    case Returned => (cache, f)
    case Failed => (cache, f)
  }

  function Scan(cache: Cache, f: Fetch): Fetch
    requires f.scanned < |f.keys|
  {
    var key := f.keys[f.scanned];
    if key in cache then f.(scanned := f.scanned + 1, found := f.found + [key], luts := f.luts + [cache[key]])
    else f.(scanned := f.scanned + 1, keysToFetch := f.keysToFetch + [key])
  }

  datatype State = State(cache: Cache, fetches: seq<Fetch>)

  function Start(cache: Cache, requests: seq<seq<Pubkey>>): State {
    State(cache, seq(|requests|, i requires 0 <= i < |requests| => Fresh(requests[i])))
  }

  /** Which fetch moves, and whether the node answers if that fetch is waiting for it. */
  datatype Event = Event(fetch: nat, answers: bool)

  function Move(chain: Chain, s: State, e: Event): State {
    if e.fetch >= |s.fetches| then s else
    var (cache, f) := Step(chain, s.cache, s.fetches[e.fetch], e.answers);
    State(cache, s.fetches[e.fetch := f])
  }

  function Run(chain: Chain, s: State, events: seq<Event>): State
    decreases |events|
  {
    if events == [] then s else Move(chain, Run(chain, s, events[..|events| - 1]), events[|events| - 1])
  }

  // ----- splitting the keys -----

  /** The keys, in order, each went to one of the two lists. */
  ghost predicate Split(keys: seq<Pubkey>, a: seq<Pubkey>, b: seq<Pubkey>)
    decreases |keys|
  {
    if keys == [] then a == [] && b == [] else
    var n := |keys| - 1;
    || (a != [] && a[|a| - 1] == keys[n] && Split(keys[..n], a[..|a| - 1], b))
    || (b != [] && b[|b| - 1] == keys[n] && Split(keys[..n], a, b[..|b| - 1]))
  }

  /** Both lists of a split together are the keys, rearranged. */
  lemma {:induction false} SplitKeys(keys: seq<Pubkey>, a: seq<Pubkey>, b: seq<Pubkey>)
    requires Split(keys, a, b)
    ensures multiset(a) + multiset(b) == multiset(keys)
    decreases |keys|
  {
    if keys != [] {
      var n := |keys| - 1;
      assert keys == keys[..n] + [keys[n]];
      if a != [] && a[|a| - 1] == keys[n] && Split(keys[..n], a[..|a| - 1], b) {
        assert a == a[..|a| - 1] + [keys[n]];
        SplitKeys(keys[..n], a[..|a| - 1], b);
      } else {
        assert b == b[..|b| - 1] + [keys[n]];
        SplitKeys(keys[..n], a, b[..|b| - 1]);
      }
    }
  }

  /** The tables of both lists of a split together are those of the keys. */
  lemma {:induction false} SplitTables(chain: Chain, keys: seq<Pubkey>, a: seq<Pubkey>, b: seq<Pubkey>)
    requires Split(keys, a, b)
    ensures multiset(Loaded(chain, a)) + multiset(Loaded(chain, b)) == multiset(Loaded(chain, keys))
    decreases |keys|
  {
    if keys != [] {
      var n := |keys| - 1;
      LastTable(chain, keys);
      if a != [] && a[|a| - 1] == keys[n] && Split(keys[..n], a[..|a| - 1], b) {
        LastTable(chain, a);
        SplitTables(chain, keys[..n], a[..|a| - 1], b);
      } else {
        LastTable(chain, b);
        SplitTables(chain, keys[..n], a, b[..|b| - 1]);
      }
    }
  }

  /** `a` is `b` with some elements left out. */
  ghost predicate Within(a: seq<Pubkey>, b: seq<Pubkey>)
    decreases |b|
  {
    if b == [] then a == [] else
    var n := |b| - 1;
    Within(a, b[..n]) || (a != [] && a[|a| - 1] == b[n] && Within(a[..|a| - 1], b[..n]))
  }

  lemma WithinMore(a: seq<Pubkey>, b: seq<Pubkey>, key: Pubkey)
    requires Within(a, b)
    ensures Within(a, b + [key]) && Within(a + [key], b + [key])
  {
    var a', b' := a + [key], b + [key];
    assert b'[..|b'| - 1] == b && a'[..|a'| - 1] == a;
  }

  lemma {:induction false} WithinFailuresLast(chain: Chain, a: seq<Pubkey>, b: seq<Pubkey>)
    requires Within(a, b) && FailuresLast(chain, b)
    ensures FailuresLast(chain, a)
    ensures forall key :: key in a ==> key in b
    decreases |b|
  {
    if b != [] {
      var n := |b| - 1;
      if Within(a, b[..n]) {
        WithinFailuresLast(chain, a, b[..n]);
      } else {
        var rest := a[..|a| - 1];
        WithinFailuresLast(chain, rest, b[..n]);
        assert a == rest + [b[n]];
        forall i, j | 0 <= i < j < |a| && Loads(chain, a[j])
          ensures Loads(chain, a[i])
        {
          assert a[i] == rest[i] && rest[i] in b[..n];
        }
      }
    }
  }

  lemma SplitMore(keys: seq<Pubkey>, a: seq<Pubkey>, b: seq<Pubkey>, key: Pubkey)
    requires Split(keys, a, b)
    ensures Split(keys + [key], a + [key], b) && Split(keys + [key], a, b + [key])
  {
    var keys', a', b' := keys + [key], a + [key], b + [key];
    assert keys'[..|keys'| - 1] == keys && a'[..|a'| - 1] == a && b'[..|b'| - 1] == b;
    assert a'[|a'| - 1] == key && b'[|b'| - 1] == key && keys'[|keys'| - 1] == key;
  }

  // ----- the invariant -----

  /** Every scanned key was found or is to be fetched, and what is to be fetched was missing from the start. */
  ghost predicate KeysRight(first: Cache, f: Fetch) {
    && f.scanned <= |f.keys|
    && (f.phase != Scanning ==> f.scanned == |f.keys|)
    && Split(f.keys[..f.scanned], f.found, f.keysToFetch)
    && Within(f.keysToFetch, Missed(first, f.keys[..f.scanned]))
  }

  /** The tables collected are those of the keys found, then those fetched and stored so far. */
  ghost predicate TablesRight(chain: Chain, f: Fetch) {
    && (f.phase in {Scanning, Fetching, Failed} ==> f.fetched == [] && f.stored == 0)
    && (f.phase in {Storing, Returned} ==> f.fetched == Loaded(chain, f.keysToFetch))
    && (f.phase == Returned ==> f.stored == |f.fetched|)
    && f.stored <= |f.fetched|
    && f.luts == Loaded(chain, f.found) + f.fetched[..f.stored]
  }

  /** What holds of a fetch at every moment, whatever the others do; `first` is the cache all began with. */
  ghost predicate FetchRight(chain: Chain, first: Cache, f: Fetch) {
    KeysRight(first, f) && TablesRight(chain, f)
  }

  lemma LoadedInPlace(chain: Chain, keys: seq<Pubkey>)
    requires FailuresLast(chain, keys)
    ensures |Loaded(chain, keys)| <= |keys|
    ensures forall i :: 0 <= i < |Loaded(chain, keys)| ==> LoadLookupTable(chain, keys[i]) == Ok(Loaded(chain, keys)[i])
  {
    LoadedAligned(chain, keys);
  }

  lemma FoundKeeps(first: Cache, f: Fetch, key: Pubkey, luts: seq<TableAccount>)
    requires KeysRight(first, f) && f.phase == Scanning && f.scanned < |f.keys| && key == f.keys[f.scanned]
    ensures KeysRight(first, f.(scanned := f.scanned + 1, found := f.found + [key], luts := luts))
  {
    SplitMore(f.keys[..f.scanned], f.found, f.keysToFetch, key);
    WithinMore(f.keysToFetch, Missed(first, f.keys[..f.scanned]), key);
    MissedMore(first, f.keys, f.scanned);
  }

  lemma MissedKeeps(first: Cache, f: Fetch, key: Pubkey)
    requires KeysRight(first, f) && f.phase == Scanning && f.scanned < |f.keys| && key == f.keys[f.scanned]
    requires key !in first
    ensures KeysRight(first, f.(scanned := f.scanned + 1, keysToFetch := f.keysToFetch + [key]))
  {
    SplitMore(f.keys[..f.scanned], f.found, f.keysToFetch, key);
    WithinMore(f.keysToFetch, Missed(first, f.keys[..f.scanned]), key);
    MissedMore(first, f.keys, f.scanned);
  }

  lemma MissedMore(cache: Cache, keys: seq<Pubkey>, n: nat)
    requires n < |keys|
    ensures keys[..n + 1] == keys[..n] + [keys[n]]
    ensures Missed(cache, keys[..n + 1]) == Missed(cache, keys[..n]) + if keys[n] in cache then [] else [keys[n]]
  {
    assert keys[..n + 1][..n] == keys[..n];
  }

  lemma FoundTables(chain: Chain, f: Fetch, key: Pubkey, table: TableAccount)
    requires TablesRight(chain, f) && f.phase == Scanning && LoadLookupTable(chain, key) == Ok(table)
    ensures TablesRight(chain, f.(scanned := f.scanned + 1, found := f.found + [key], luts := f.luts + [table]))
  {
    FoundMore(chain, f.found, key, table);
  }

  lemma ScanFound(chain: Chain, first: Cache, f: Fetch, key: Pubkey, table: TableAccount)
    requires FetchRight(chain, first, f) && f.phase == Scanning && f.scanned < |f.keys| && key == f.keys[f.scanned]
    requires LoadLookupTable(chain, key) == Ok(table)
    ensures FetchRight(chain, first, f.(scanned := f.scanned + 1, found := f.found + [key], luts := f.luts + [table]))
  {
    FoundKeeps(first, f, key, f.luts + [table]);
    FoundTables(chain, f, key, table);
  }

  lemma ScanMissed(chain: Chain, first: Cache, f: Fetch, key: Pubkey)
    requires FetchRight(chain, first, f) && f.phase == Scanning && f.scanned < |f.keys| && key == f.keys[f.scanned]
    requires key !in first
    ensures FetchRight(chain, first, f.(scanned := f.scanned + 1, keysToFetch := f.keysToFetch + [key]))
  {
    MissedKeeps(first, f, key);
  }

  lemma ScanKeeps(chain: Chain, first: Cache, cache: Cache, f: Fetch)
    requires Right(chain, cache) && first.Keys <= cache.Keys
    requires FetchRight(chain, first, f) && f.phase == Scanning && f.scanned < |f.keys|
    ensures FetchRight(chain, first, Scan(cache, f))
  {
    var key := f.keys[f.scanned];
    if key in cache {
      ScanFound(chain, first, f, key, cache[key]);
    } else {
      ScanMissed(chain, first, f, key);
    }
  }

  lemma FoundMore(chain: Chain, found: seq<Pubkey>, key: Pubkey, table: TableAccount)
    requires LoadLookupTable(chain, key) == Ok(table)
    ensures Loaded(chain, found + [key]) == Loaded(chain, found) + [table]
  {
    LoadedAppend(chain, found, [key]);
    assert Loaded(chain, []) == [];
  }

  lemma StoreKeepsCache(chain: Chain, first: Cache, cache: Cache, f: Fetch, answers: bool)
    requires Right(chain, cache) && FetchRight(chain, first, f) && f.phase == Storing
    requires FailuresLast(chain, Missed(first, f.keys))
    ensures Right(chain, Step(chain, cache, f, answers).0)
    ensures |f.fetched| <= |f.keysToFetch|
  {
    assert f.keys[..|f.keys|] == f.keys;
    WithinFailuresLast(chain, f.keysToFetch, Missed(first, f.keys));
    LoadedInPlace(chain, f.keysToFetch);
  }

  lemma StoreKeeps(chain: Chain, first: Cache, cache: Cache, f: Fetch, answers: bool)
    requires FetchRight(chain, first, f) && f.phase == Storing && |f.fetched| <= |f.keysToFetch|
    ensures FetchRight(chain, first, Step(chain, cache, f, answers).1)
  {
    if f.stored < |f.fetched| {
      assert f.fetched[..f.stored + 1] == f.fetched[..f.stored] + [f.fetched[f.stored]];
    }
  }

  lemma StepKeeps(chain: Chain, first: Cache, cache: Cache, f: Fetch, answers: bool)
    requires Right(chain, cache) && first.Keys <= cache.Keys
    requires FetchRight(chain, first, f) && FailuresLast(chain, Missed(first, f.keys))
    ensures Right(chain, Step(chain, cache, f, answers).0) && first.Keys <= Step(chain, cache, f, answers).0.Keys
    ensures FetchRight(chain, first, Step(chain, cache, f, answers).1)
  {
    if f.phase == Storing {
      StoreKeepsCache(chain, first, cache, f, answers);
      StoreKeeps(chain, first, cache, f, answers);
    } else if f.phase == Scanning && f.scanned < |f.keys| {
      ScanKeeps(chain, first, cache, f);
    }
  }

  ghost predicate StateRight(chain: Chain, first: Cache, requests: seq<seq<Pubkey>>, s: State) {
    && Right(chain, s.cache) && first.Keys <= s.cache.Keys && |s.fetches| == |requests|
    && forall i :: 0 <= i < |requests| ==> s.fetches[i].keys == requests[i] && FetchRight(chain, first, s.fetches[i])
  }

  lemma MoveKeeps(chain: Chain, first: Cache, requests: seq<seq<Pubkey>>, s: State, e: Event)
    requires StateRight(chain, first, requests, s)
    requires forall i :: 0 <= i < |requests| ==> FailuresLast(chain, Missed(first, requests[i]))
    ensures StateRight(chain, first, requests, Move(chain, s, e))
  {
    if e.fetch < |s.fetches| {
      var f := s.fetches[e.fetch];
      assert FailuresLast(chain, Missed(first, requests[e.fetch]));
      StepKeeps(chain, first, s.cache, f, e.answers);
      StepSameKeys(chain, s.cache, f, e.answers);
    }
  }

  lemma StepSameKeys(chain: Chain, cache: Cache, f: Fetch, answers: bool)
    ensures Step(chain, cache, f, answers).1.keys == f.keys
  {
  }

  /**
   Whatever the order of the steps, if among the keys each request misses at the start those that fail come last, the
   cache agrees with direct loads at every moment, and every fetch is as `FetchRight` says.
   */
  lemma {:induction false} RunsStayRight(chain: Chain, requests: seq<seq<Pubkey>>, cache: Cache, events: seq<Event>)
    requires Right(chain, cache)
    requires forall i :: 0 <= i < |requests| ==> FailuresLast(chain, Missed(cache, requests[i]))
    ensures StateRight(chain, cache, requests, Run(chain, Start(cache, requests), events))
    decreases |events|
  {
    if events != [] {
      var earlier, e := events[..|events| - 1], events[|events| - 1];
      RunsStayRight(chain, requests, cache, earlier);
      MoveKeeps(chain, cache, requests, Run(chain, Start(cache, requests), earlier), e);
    }
  }

  /**
   The answer of a fetch that has returned: the tables of the keys it found, then those of the others, a permutation
   of loading all of its keys directly.
   */
  lemma ReturnsAll(chain: Chain, first: Cache, f: Fetch)
    requires FetchRight(chain, first, f) && f.phase == Returned
    ensures Split(f.keys, f.found, f.keysToFetch)
    ensures f.luts == Loaded(chain, f.found) + Loaded(chain, f.keysToFetch)
    ensures multiset(f.luts) == multiset(Loaded(chain, f.keys))
    ensures multiset(f.found) + multiset(f.keysToFetch) == multiset(f.keys)
  {
    assert f.keys[..|f.keys|] == f.keys;
    SplitKeys(f.keys, f.found, f.keysToFetch);
    assert f.fetched[..|f.fetched|] == f.fetched;
    SplitTables(chain, f.keys, f.found, f.keysToFetch);
  }

  // ----- a fetch nobody interrupts -----

  function Complete(chain: Chain, cache: Cache, f: Fetch, answers: bool): (Cache, Fetch)
    decreases PhasesLeft(f), StepsLeft(f)
  {
    if f.phase == Returned || f.phase == Failed then (cache, f) else
    var (c, next) := Step(chain, cache, f, answers);
    Complete(chain, c, next, answers)
  }

  function PhasesLeft(f: Fetch): nat {
    match f.phase
    case Scanning => 2
    case Fetching => 1
    case _ => 0
  }

  function StepsLeft(f: Fetch): nat {
    match f.phase
    case Scanning => if f.scanned < |f.keys| then |f.keys| - f.scanned else 0
    case Storing => if f.stored < |f.keysToFetch| then |f.keysToFetch| - f.stored + 1 else 1
    case _ => 0
  }

  /** What `FetchAndCacheLuts` returns and stores. */
  ghost predicate OneCall(chain: Chain, cache: Cache, keys: seq<Pubkey>, answers: bool, end: (Cache, Fetch)) {
    var missed := Missed(cache, keys);
    var tables := Loaded(chain, missed);
    if missed == [] || answers then
      && |tables| <= |missed|
      && end.0 == StoreZip(cache, missed, tables, |tables|)
      && end.1.phase == Returned && end.1.luts == Hits(cache, keys) + tables
    else end.0 == cache && end.1.phase == Failed
  }

  lemma {:induction false} CompleteStoring(chain: Chain, cache: Cache, keys: seq<Pubkey>, f: Fetch)
    requires f.phase == Storing && f.keysToFetch == Missed(cache, keys) && f.fetched == Loaded(chain, f.keysToFetch)
    requires f.stored <= |f.fetched| <= |f.keysToFetch|
    requires f.luts == Hits(cache, keys) + f.fetched[..f.stored]
    ensures OneCall(chain, cache, keys, true,
                    Complete(chain, StoreZip(cache, f.keysToFetch, f.fetched, f.stored), f, true))
    decreases |f.fetched| - f.stored
  {
    if f.stored < |f.fetched| {
      assert f.fetched[..f.stored + 1] == f.fetched[..f.stored] + [f.fetched[f.stored]];
      CompleteStoring(chain, cache, keys, f.(luts := f.luts + [f.fetched[f.stored]], stored := f.stored + 1));
    } else {
      assert f.fetched[..f.stored] == f.fetched;
    }
  }

  lemma CompleteFetching(chain: Chain, cache: Cache, keys: seq<Pubkey>, f: Fetch, answers: bool)
    requires f.phase == Fetching && f.keysToFetch == Missed(cache, keys) != []
    requires f.luts == Hits(cache, keys) && f.stored == 0
    ensures OneCall(chain, cache, keys, answers, Complete(chain, cache, f, answers))
  {
    if answers {
      LoadedShorter(chain, f.keysToFetch);
      CompleteStoring(chain, cache, keys, f.(phase := Storing, fetched := Loaded(chain, f.keysToFetch)));
    } else {
      assert Complete(chain, cache, f.(phase := Failed), false) == (cache, f.(phase := Failed));
    }
  }

  lemma {:induction false} CompleteScanning(chain: Chain, cache: Cache, keys: seq<Pubkey>, f: Fetch, answers: bool)
    requires f.phase == Scanning && f.keys == keys && f.scanned <= |keys| && f.stored == 0
    requires f.luts == Hits(cache, keys[..f.scanned]) && f.keysToFetch == Missed(cache, keys[..f.scanned])
    ensures OneCall(chain, cache, keys, answers, Complete(chain, cache, f, answers))
    decreases |keys| - f.scanned
  {
    if f.scanned < |keys| {
      ScanMore(cache, keys, f);
      assert Step(chain, cache, f, answers) == (cache, Scan(cache, f));
      CompleteScanning(chain, cache, keys, Scan(cache, f), answers);
    } else {
      CompleteScanned(chain, cache, keys, f, answers);
    }
  }

  lemma ScanMore(cache: Cache, keys: seq<Pubkey>, f: Fetch)
    requires f.keys == keys && f.scanned < |keys|
    requires f.luts == Hits(cache, keys[..f.scanned]) && f.keysToFetch == Missed(cache, keys[..f.scanned])
    ensures var next := Scan(cache, f);
            next.luts == Hits(cache, keys[..next.scanned]) && next.keysToFetch == Missed(cache, keys[..next.scanned])
  {
    assert keys[..f.scanned + 1][..f.scanned] == keys[..f.scanned];
  }

  lemma CompleteScanned(chain: Chain, cache: Cache, keys: seq<Pubkey>, f: Fetch, answers: bool)
    requires f.phase == Scanning && f.keys == keys && f.scanned == |keys| && f.stored == 0
    requires f.luts == Hits(cache, keys[..f.scanned]) && f.keysToFetch == Missed(cache, keys[..f.scanned])
    ensures OneCall(chain, cache, keys, answers, Complete(chain, cache, f, answers))
  {
    assert keys[..f.scanned] == keys;
    if f.keysToFetch != [] {
      CompleteFetching(chain, cache, keys, f.(phase := Fetching), answers);
    }
  }

  /** Without interruption the steps of a fetch come to what one call of the method does, whether the node answers. */
  lemma AloneIsOneCall(chain: Chain, cache: Cache, keys: seq<Pubkey>, answers: bool)
    ensures OneCall(chain, cache, keys, answers, Complete(chain, cache, Fresh(keys), answers))
  {
    CompleteScanning(chain, cache, keys, Fresh(keys), answers);
  }

  // ----- exactly when every run stays right -----

  /** After a run, one fetch can be brought to its end with the others at rest. */
  lemma {:induction false} RunToEnd(chain: Chain, start: State, before: seq<Event>, i: nat) returns (events: seq<Event>)
    requires i < |Run(chain, start, before).fetches|
    ensures var s := Run(chain, start, before);
            Run(chain, start, events).cache == Complete(chain, s.cache, s.fetches[i], true).0
    decreases PhasesLeft(Run(chain, start, before).fetches[i]), StepsLeft(Run(chain, start, before).fetches[i])
  {
    var s := Run(chain, start, before);
    if s.fetches[i].phase in {Returned, Failed} {
      events := before;
    } else {
      var after := before + [Event(i, true)];
      assert after[..|after| - 1] == before;
      assert Run(chain, start, after) == Move(chain, s, Event(i, true));
      events := RunToEnd(chain, start, after, i);
    }
  }

  /**
   Every run from a right cache stays right at every moment exactly when, in each request, no failing key precedes one
   that loads among the keys the cache misses at the start.
   */
  lemma RunsStayRightExactly(chain: Chain, requests: seq<seq<Pubkey>>, cache: Cache)
    requires Right(chain, cache)
    ensures (forall events :: Right(chain, Run(chain, Start(cache, requests), events).cache)) <==>
            (forall i :: 0 <= i < |requests| ==> FailuresLast(chain, Missed(cache, requests[i])))
  {
    var start := Start(cache, requests);
    if forall i :: 0 <= i < |requests| ==> FailuresLast(chain, Missed(cache, requests[i])) {
      forall events
        ensures Right(chain, Run(chain, start, events).cache)
      {
        RunsStayRight(chain, requests, cache, events);
      }
    } else {
      var i :| 0 <= i < |requests| && !FailuresLast(chain, Missed(cache, requests[i]));
      var events := RunToEnd(chain, start, [], i);
      AloneIsOneCall(chain, cache, requests[i], true);
      StaysRightExactly(chain, cache, Missed(cache, requests[i]));
      assert !Right(chain, Run(chain, start, events).cache);
    }
  }
}
