/** When the order of the entries of a document matters to the parser. */
module JobOrder {
  import opened Wrappers
  import opened Descriptor
  import opened Json
  import opened JobCodec
  import opened JobAcceptance

  // ----- reordering the entries of any objects, at any level -----

  ghost predicate Inverse(p: seq<nat>, q: seq<nat>, n: nat) {
    && |p| == n && |q| == n
    && (forall i :: 0 <= i < n ==> p[i] < n && q[p[i]] == i)
    && (forall i :: 0 <= i < n ==> q[i] < n && p[q[i]] == i)
  }

  /** `b` is `a` with the entries of some of its objects in another order. */
  ghost predicate Reordered(a: Json, b: Json)
    decreases a
  {
    match a
    case Arr(items) =>
      b.Arr? && |items| == |b.items| && forall k :: 0 <= k < |items| ==> Reordered(items[k], b.items[k])
    case Obj(es) =>
      && b.Obj? && |es| == |b.entries|
      && exists p, q :: Inverse(p, q, |es|) && forall i :: 0 <= i < |es| ==>
           es[i].key == b.entries[p[i]].key && Reordered(es[i].value, b.entries[p[i]].value)
    case _ => a == b
  }

  /** In no object of the document does a null share its slot with a non-null value. */
  ghost predicate NullsApart(d: Descriptor, kind: Kind, j: Json)
    decreases j, 0
  {
    kind.Nested? && j.Obj? ==>
      && NullsApartHere(d, kind.message, j.entries)
      && forall i :: 0 <= i < |j.entries| ==> NullsApartIn(d, kind.message, j.entries[i])
  }

  ghost predicate NullsApartHere(d: Descriptor, m: MessageName, es: seq<Entry>) {
    forall i, k :: 0 <= i < |es| && 0 <= k < |es| && SameSlot(d, m, es[i], es[k]) && es[i].value.Null? ==>
      es[k].value.Null?
  }

  ghost predicate NullsApartIn(d: Descriptor, m: MessageName, e: Entry)
    decreases e, 0
  {
    var f := Resolve(d.fields(m), e.key);
    f.Some? ==>
      if d.fields(m)[f.value].repeated
      then e.value.Arr? ==>
        forall k :: 0 <= k < |e.value.items| ==> NullsApart(d, d.fields(m)[f.value].kind, e.value.items[k])
      else NullsApart(d, d.fields(m)[f.value].kind, e.value)
  }

  // ----- reordering keeps the outcome -----

  /** Both rejected, or both accepted with the same result. */
  ghost predicate Agree<T(!new), E(!new), F(!new)>(a: Result<T, E>, b: Result<T, F>) {
    if a.Ok? then b.Ok? && a.value == b.value else b.Err?
  }

  lemma {:induction false} ReorderAgrees(d: Descriptor, kind: Kind, a: Json, b: Json)
    requires Valid(d) && Reordered(a, b) && NullsApart(d, kind, a)
    ensures Agree(Parse(d, kind, a), Parse(d, kind, b))
    decreases a, 0
  {
    if kind.Nested? && a.Obj? {
      var m := kind.message;
      var p, q :| Inverse(p, q, |a.entries|) && forall i :: 0 <= i < |a.entries| ==>
        a.entries[i].key == b.entries[p[i]].key && Reordered(a.entries[i].value, b.entries[p[i]].value);
      forall i | 0 <= i < |a.entries|
        ensures Read(d, m, a.entries[i]) == Read(d, m, b.entries[p[i]])
      {
        ReorderEntry(d, m, a.entries[i], b.entries[p[i]]);
      }
      assert Shuffled(ReadAll(d, m, a.entries), ReadAll(d, m, b.entries), p, q);
      ReorderObject(d, m, a.entries, b.entries, p, q);
    }
  }

  lemma {:induction false} ReorderEntry(d: Descriptor, m: MessageName, a: Entry, b: Entry)
    requires Valid(d) && a.key == b.key && Reordered(a.value, b.value) && NullsApartIn(d, m, a)
    ensures Read(d, m, a) == Read(d, m, b)
    decreases a, 1
  {
    var f := Resolve(d.fields(m), a.key);
    if f.Some? {
      ReorderField(d, m, f.value, a, b);
      ReadSame(d, m, a, b);
    }
  }

  lemma ReadSame(d: Descriptor, m: MessageName, a: Entry, b: Entry)
    requires SlotsInRange(d) && a.key == b.key && Resolve(d.fields(m), a.key).Some?
    requires var f := Resolve(d.fields(m), a.key).value;
             Agree(ParseField(d, m, f, a.value), ParseField(d, m, f, b.value))
    ensures Read(d, m, a) == Read(d, m, b)
  {
  }

  lemma {:induction false} ReorderField(d: Descriptor, m: MessageName, f: nat, a: Entry, b: Entry)
    requires Valid(d) && Resolve(d.fields(m), a.key) == Some(f) && Reordered(a.value, b.value) && NullsApartIn(d, m, a)
    ensures Agree(ParseField(d, m, f, a.value), ParseField(d, m, f, b.value))
    decreases a, 0
  {
    if d.fields(m)[f].repeated {
      ReorderVec(d, d.fields(m)[f].kind, a.value, b.value);
    } else {
      ReorderOption(d, d.fields(m)[f].kind, f, a.value, b.value);
    }
  }

  lemma {:induction false} ReorderOption(d: Descriptor, kind: Kind, f: nat, a: Json, b: Json)
    requires Valid(d) && Reordered(a, b) && NullsApart(d, kind, a)
    ensures Agree(ParseOption(d, kind, f, a), ParseOption(d, kind, f, b))
    decreases a, 1
  {
    ReorderAgrees(d, kind, a, b);
  }

  lemma {:induction false} ReorderVec(d: Descriptor, kind: Kind, a: Json, b: Json)
    requires Valid(d) && Reordered(a, b)
    requires a.Arr? ==> forall k :: 0 <= k < |a.items| ==> NullsApart(d, kind, a.items[k])
    ensures Agree(ParseVec(d, kind, a), ParseVec(d, kind, b))
    decreases a, 1
  {
    if a.Arr? {
      ReorderList(d, kind, a.items, b.items);
    }
  }

  lemma {:induction false} ReorderList(d: Descriptor, kind: Kind, a: seq<Json>, b: seq<Json>)
    requires Valid(d) && |a| == |b|
    requires forall k :: 0 <= k < |a| ==> Reordered(a[k], b[k]) && NullsApart(d, kind, a[k])
    ensures Agree(ParseList(d, kind, a), ParseList(d, kind, b))
    decreases a, 0
  {
    if a != [] {
      ReorderAgrees(d, kind, a[0], b[0]);
      ReorderList(d, kind, a[1..], b[1..]);
    }
  }

  ghost predicate Shuffled(ra: seq<Option<Reading>>, rb: seq<Option<Reading>>, p: seq<nat>, q: seq<nat>) {
    |ra| == |rb| && Inverse(p, q, |ra|) && forall i :: 0 <= i < |ra| ==> ra[i] == rb[p[i]]
  }

  lemma ReorderObject(d: Descriptor, m: MessageName, a: seq<Entry>, b: seq<Entry>, p: seq<nat>, q: seq<nat>)
    requires SlotsInRange(d) && NullsApartHere(d, m, a) && Shuffled(ReadAll(d, m, a), ReadAll(d, m, b), p, q)
    ensures Agree(VisitEntries(d, m, a, Blank(d.slots(m))), VisitEntries(d, m, b, Blank(d.slots(m))))
  {
    var ra, rb := ReadAll(d, m, a), ReadAll(d, m, b);
    var x := VisitBlank(d, m, a);
    var y := VisitBlank(d, m, b);
    NullsShareNothing(d, m, a);
    ShuffledReadings(ra, rb, p, q);
    if x.Ok? {
      AcceptedInRange(d, m, a);
      AcceptedInRange(d, m, b);
      LeavesUnique(ra, rb, p, q, Blank(d.slots(m)), x.value, y.value);
    }
  }

  lemma AcceptedInRange(d: Descriptor, m: MessageName, es: seq<Entry>)
    requires SlotsInRange(d) && Accepts(ReadAll(d, m, es))
    ensures var rs := ReadAll(d, m, es); forall i :: 0 <= i < |rs| ==> rs[i].Some? && rs[i].value.at < d.slots(m)
  {
  }

  /** Readings for one slot are all null or none is. */
  ghost predicate NullsUniform(rs: seq<Option<Reading>>) {
    forall i, k :: 0 <= i < |rs| && 0 <= k < |rs| && rs[i].Some? && rs[k].Some? && rs[i].value.at == rs[k].value.at
      ==> rs[i].value.slot == Unset ==> rs[k].value.slot == Unset
  }

  lemma NullsShareNothing(d: Descriptor, m: MessageName, es: seq<Entry>)
    requires SlotsInRange(d) && NullsApartHere(d, m, es)
    ensures NullsUniform(ReadAll(d, m, es))
  {
    var rs := ReadAll(d, m, es);
    forall i, k | 0 <= i < |rs| && 0 <= k < |rs| && rs[i].Some? && rs[k].Some? && rs[i].value.at == rs[k].value.at
      ensures rs[i].value.slot == Unset ==> rs[k].value.slot == Unset
    {
      ReadNull(d, m, es[i]);
      ReadNull(d, m, es[k]);
      assert SameSlot(d, m, es[i], es[k]);
    }
  }

  lemma ShuffledReadings(ra: seq<Option<Reading>>, rb: seq<Option<Reading>>, p: seq<nat>, q: seq<nat>)
    requires Shuffled(ra, rb, p, q)
    requires NullsUniform(ra)
    ensures Accepts(ra) <==> Accepts(rb)
  {
    forall i | 0 <= i < |ra|
      ensures rb[i] == ra[q[i]]
    {
      assert ra[q[i]] == rb[p[q[i]]];
    }
    if Accepts(ra) {
      forall i, k | 0 <= i < k < |rb| && rb[i].value.at == rb[k].value.at
        ensures rb[i].value.slot == Unset
      {
        assert q[i] != q[k];
      }
    }
    if Accepts(rb) {
      forall i, k | 0 <= i < k < |ra| && ra[i].value.at == ra[k].value.at
        ensures ra[i].value.slot == Unset
      {
        assert p[i] != p[k];
      }
    }
  }

  lemma LeavesUnique(ra: seq<Option<Reading>>, rb: seq<Option<Reading>>, p: seq<nat>, q: seq<nat>, before: seq<Slot>,
                     x: seq<Slot>, y: seq<Slot>)
    requires Shuffled(ra, rb, p, q)
    requires forall i :: 0 <= i < |ra| ==> ra[i].Some? && ra[i].value.at < |before|
    requires forall i :: 0 <= i < |rb| ==> rb[i].Some? && rb[i].value.at < |before|
    requires Leaves(ra, before, x) && Leaves(rb, before, y)
    ensures x == y
  {
    forall s | 0 <= s < |before|
      ensures x[s] == y[s]
    {
      if Untouched(ra, s) {
        forall i | 0 <= i < |rb| && rb[i].value.at == s
          ensures rb[i].value.slot == Unset
        {
          assert ra[q[i]] == rb[p[q[i]]];
        }
        assert Untouched(rb, s);
      } else {
        var i :| 0 <= i < |ra| && ra[i].value.at == s && ra[i].value.slot != Unset;
        assert rb[p[i]] == ra[i];
      }
    }
  }

  // ----- a null that shares its slot does make order matter -----

  lemma {:induction false} ReorderRefl(j: Json)
    ensures Reordered(j, j)
    decreases j
  {
    match j {
      case Arr(items) =>
        forall k | 0 <= k < |items|
          ensures Reordered(items[k], items[k])
        {
          ReorderRefl(items[k]);
        }
      case Obj(es) =>
        forall i | 0 <= i < |es|
          ensures Reordered(es[i].value, es[i].value)
        {
          ReorderRefl(es[i].value);
        }
        var p := Identity(|es|);
        assert Inverse(p, p, |es|);
      case _ =>
    }
  }

  function Identity(n: nat): (p: seq<nat>)
    ensures |p| == n && forall i :: 0 <= i < n ==> p[i] == i
  {
    seq(n, i requires 0 <= i < n => i)
  }

  /** Replacing the value of one entry by a reordering of it reorders the object. */
  lemma ReorderOneEntry(es: seq<Entry>, i: nat, e: Entry)
    requires i < |es| && e.key == es[i].key && Reordered(es[i].value, e.value)
    ensures Reordered(Obj(es), Obj(es[i := e]))
  {
    var p, other := Identity(|es|), es[i := e];
    forall k | 0 <= k < |es|
      ensures es[k].key == other[p[k]].key && Reordered(es[k].value, other[p[k]].value)
    {
      ReorderRefl(es[k].value);
    }
    assert Inverse(p, p, |es|);
  }

  lemma ReorderSwap(es: seq<Entry>, i: nat, k: nat)
    requires i < k < |es|
    ensures Reordered(Obj(es), Obj(es[i := es[k]][k := es[i]]))
  {
    var p, other := Identity(|es|)[i := k][k := i], es[i := es[k]][k := es[i]];
    forall n | 0 <= n < |es|
      ensures es[n].key == other[p[n]].key && Reordered(es[n].value, other[p[n]].value)
    {
      ReorderRefl(es[n].value);
    }
    assert Inverse(p, p, |es|);
  }

  lemma {:induction false} Spoil(d: Descriptor, kind: Kind, j: Json) returns (b: Json)
    requires Valid(d) && Parse(d, kind, j).Ok? && !NullsApart(d, kind, j)
    ensures Reordered(j, b) && Parse(d, kind, b).Err?
    decreases j, 0
  {
    var m, es := kind.message, j.entries;
    if !NullsApartHere(d, m, es) {
      b := SpoilHere(d, m, j);
    } else {
      AcceptedExactly(d, m, j);
      var i :| 0 <= i < |es| && !NullsApartIn(d, m, es[i]);
      var e := SpoilEntry(d, m, es[i]);
      b := Obj(es[i := e]);
      ReorderOneEntry(es, i, e);
      AcceptedExactly(d, m, b);
      assert Read(d, m, b.entries[i]).None?;
    }
  }

  lemma NullComesFirst(d: Descriptor, m: MessageName, j: Json, i: nat, k: nat)
    requires SlotsInRange(d) && j.Obj? && i < |j.entries| && k < |j.entries| &&
               SameSlot(d, m, j.entries[i], j.entries[k])
    requires i != k && !j.entries[k].value.Null? && Parse(d, Nested(m), j).Ok?
    ensures i < k
  {
    AcceptedExactly(d, m, j);
    assert SameSlot(d, m, j.entries[k], j.entries[i]);
  }

  /** Moving the value before the null that precedes it gets the object rejected. */
  lemma SpoilHere(d: Descriptor, m: MessageName, j: Json) returns (b: Json)
    requires Valid(d) && j.Obj? && Parse(d, Nested(m), j).Ok? && !NullsApartHere(d, m, j.entries)
    ensures Reordered(j, b) && Parse(d, Nested(m), b).Err?
  {
    var es := j.entries;
    var i, k :| 0 <= i < |es| && 0 <= k < |es| && SameSlot(d, m, es[i], es[k]) &&
                es[i].value.Null? && !es[k].value.Null?;
    NullComesFirst(d, m, j, i, k);
    b := Obj(es[i := es[k]][k := es[i]]);
    ReorderSwap(es, i, k);
    if Parse(d, Nested(m), b).Ok? {
      NullComesFirst(d, m, b, k, i);
    }
  }

  lemma {:induction false} SpoilEntry(d: Descriptor, m: MessageName, e: Entry) returns (e': Entry)
    requires Valid(d) && Read(d, m, e).Some? && !NullsApartIn(d, m, e)
    ensures e'.key == e.key && Reordered(e.value, e'.value) && Read(d, m, e').None?
    decreases e, 1
  {
    var f := Resolve(d.fields(m), e.key).value;
    var kind := d.fields(m)[f].kind;
    var b: Json;
    if d.fields(m)[f].repeated {
      b := SpoilVec(d, kind, e.value);
    } else {
      b := SpoilOption(d, kind, f, e.value);
    }
    e' := Entry(e.key, b);
    assert ParseField(d, m, f, b).Err?;
  }

  lemma {:induction false} SpoilOption(d: Descriptor, kind: Kind, f: nat, j: Json) returns (b: Json)
    requires Valid(d) && ParseOption(d, kind, f, j).Ok? && !NullsApart(d, kind, j)
    ensures Reordered(j, b) && ParseOption(d, kind, f, b).Err?
    decreases j, 1
  {
    b := Spoil(d, kind, j);
  }

  lemma {:induction false} SpoilVec(d: Descriptor, kind: Kind, j: Json) returns (b: Json)
    requires Valid(d) && ParseVec(d, kind, j).Ok?
    requires j.Arr? ==> exists k :: 0 <= k < |j.items| && !NullsApart(d, kind, j.items[k])
    ensures Reordered(j, b) && ParseVec(d, kind, b).Err?
    decreases j, 1
  {
    var k :| 0 <= k < |j.items| && !NullsApart(d, kind, j.items[k]);
    ListElement(d, kind, j.items, k);
    var x := Spoil(d, kind, j.items[k]);
    b := Arr(j.items[k := x]);
    ListElement(d, kind, b.items, k);
    forall n | 0 <= n < |j.items|
      ensures Reordered(j.items[n], b.items[n])
    {
      ReorderRefl(j.items[n]);
    }
  }

  lemma {:induction false} ListElement(d: Descriptor, kind: Kind, items: seq<Json>, k: nat)
    requires SlotsInRange(d) && k < |items|
    ensures ParseList(d, kind, items).Ok? ==> Parse(d, kind, items[k]).Ok?
    decreases k
  {
    if k > 0 {
      ListElement(d, kind, items[1..], k - 1);
    }
  }

  /**
   For an accepted document, every reordering of its objects is accepted with the same result exactly when no null
   shares a slot with a non-null value.  For documents without nulls order therefore never matters.
   */
  lemma OrderMattersExactly(d: Descriptor, m: MessageName, j: Json)
    requires Valid(d) && Parse(d, Nested(m), j).Ok?
    ensures (forall b :: Reordered(j, b) ==> Parse(d, Nested(m), b) == Parse(d, Nested(m), j)) <==>
              NullsApart(d, Nested(m), j)
  {
    if NullsApart(d, Nested(m), j) {
      forall b | Reordered(j, b)
        ensures Parse(d, Nested(m), b) == Parse(d, Nested(m), j)
      {
        ReorderAgrees(d, Nested(m), j, b);
      }
    } else {
      var b := Spoil(d, Nested(m), j);
    }
  }

  ghost predicate NullFree(j: Json) {
    match j
    case Null => false
    case Arr(items) => forall k :: 0 <= k < |items| ==> NullFree(items[k])
    case Obj(es) => forall i :: 0 <= i < |es| ==> NullFree(es[i].value)
    case _ => true
  }

  lemma {:induction false} NullFreeApart(d: Descriptor, kind: Kind, j: Json)
    requires NullFree(j)
    ensures NullsApart(d, kind, j)
    decreases j, 0
  {
    if kind.Nested? && j.Obj? {
      forall i | 0 <= i < |j.entries|
        ensures NullsApartIn(d, kind.message, j.entries[i])
      {
        NullFreeEntry(d, kind.message, j.entries[i]);
      }
    }
  }

  lemma {:induction false} NullFreeEntry(d: Descriptor, m: MessageName, e: Entry)
    requires NullFree(e.value)
    ensures NullsApartIn(d, m, e)
    decreases e, 0
  {
    var f := Resolve(d.fields(m), e.key);
    if f.Some? {
      var kind := d.fields(m)[f.value].kind;
      NullFreeApart(d, kind, e.value);
      if e.value.Arr? {
        forall k | 0 <= k < |e.value.items|
          ensures NullsApart(d, kind, e.value.items[k])
        {
          NullFreeApart(d, kind, e.value.items[k]);
        }
      }
    }
  }

  /** Reordering a document without nulls never changes whether it is accepted nor what it means. */
  lemma NullFreeOrder(d: Descriptor, m: MessageName, a: Json, b: Json)
    requires Valid(d) && NullFree(a) && Reordered(a, b)
    ensures Agree(Parse(d, Nested(m), a), Parse(d, Nested(m), b))
  {
    NullFreeApart(d, Nested(m), a);
    ReorderAgrees(d, Nested(m), a, b);
  }
}
