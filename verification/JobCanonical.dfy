/** The documents the printer writes, said without the printer, and what parsing and printing does to them. */
module JobCanonical {
  import opened Wrappers
  import opened Descriptor
  import opened Json
  import opened JobCodec
  import opened JobRoundTrip
  import opened JobDocuments
  import opened JobAcceptance

  /**
   Keys are in camelCase and in the order of the fields, one for each slot that holds something; enum values are
   names, numbers are numbers; there are no nulls and no empty lists.
   */
  predicate Canonical(d: Descriptor, kind: Kind, j: Json)
    decreases j, 0
  {
    match kind
    case Text => j.Str?
    case Flag => j.Bool?
    case Number(w) => if w.Float64? then j.Float? else j.Int?
    case Enumeration(_) => j.Str?
    case Nested(m) =>
      && j.Obj?
      && (forall i :: 0 <= i < |j.entries| ==> CanonicalEntry(d, m, j.entries[i]))
      && InSlotOrder(d, m, j.entries)
  }

  predicate CanonicalEntry(d: Descriptor, m: MessageName, e: Entry)
    decreases e, 0
  {
    var f := Resolve(d.fields(m), e.key);
    && f.Some?
    && var field := d.fields(m)[f.value];
       && e.key == field.camel
       && if field.repeated
          then e.value.Arr? && e.value.items != [] &&
               forall k :: 0 <= k < |e.value.items| ==> Canonical(d, field.kind, e.value.items[k])
          else Canonical(d, field.kind, e.value)
  }

  predicate InSlotOrder(d: Descriptor, m: MessageName, es: seq<Entry>) {
    forall i, k :: 0 <= i < k < |es| ==> At(d, m, es[i]) < At(d, m, es[k])
  }

  // ----- what is printed is canonical -----

  lemma {:induction false} PrintCanonical(d: Descriptor, kind: Kind, v: Value)
    requires Valid(d) && Typed(d, kind, v) && AllFinite(v) && Print(d, kind, v).Ok?
    ensures Canonical(d, kind, Print(d, kind, v).value)
    decreases v, 1
  {
    if v.Tree? {
      PrintSlotsCanonical(d, kind.message, v.slots, 0);
    }
  }

  /** The entries printed from slot `i` on. */
  ghost predicate CanonicalFrom(d: Descriptor, m: MessageName, es: seq<Entry>, i: nat) {
    && InSlotOrder(d, m, es)
    && forall k :: 0 <= k < |es| ==> CanonicalEntry(d, m, es[k]) && At(d, m, es[k]) >= i
  }

  lemma CanonicalMore(d: Descriptor, m: MessageName, here: seq<Entry>, rest: seq<Entry>, i: nat)
    requires CanonicalAt(d, m, here, i)
    requires CanonicalFrom(d, m, rest, i + 1)
    ensures CanonicalFrom(d, m, here + rest, i)
  {
    var es := here + rest;
    forall k | 0 <= k < |es|
      ensures CanonicalEntry(d, m, es[k]) && At(d, m, es[k]) >= i
      ensures k >= |here| ==> At(d, m, es[k]) >= i + 1
    {
      assert es[k] == if k < |here| then here[k] else rest[k - |here|];
    }
    forall a, b | 0 <= a < b < |es|
      ensures At(d, m, es[a]) < At(d, m, es[b])
    {
      assert a >= |here| ==> es[a] == rest[a - |here|] && es[b] == rest[b - |here|];
    }
  }

  lemma {:induction false} PrintSlotsCanonical(d: Descriptor, m: MessageName, slots: seq<Slot>, i: nat)
    requires Valid(d) && SlotsTyped(d, m, slots) && i <= |slots| && PrintSlots(d, m, slots, i).Ok?
    requires forall k :: 0 <= k < |slots| ==> SlotFinite(slots[k])
    ensures CanonicalFrom(d, m, PrintSlots(d, m, slots, i).value, i)
    decreases slots, |slots| - i
  {
    if i < |slots| {
      PrintSlotCanonical(d, m, i, slots[i]);
      PrintSlotsCanonical(d, m, slots, i + 1);
      CanonicalMore(d, m, PrintSlot(d, m, i, slots[i]).value, PrintSlots(d, m, slots, i + 1).value, i);
    }
  }

  ghost predicate CanonicalAt(d: Descriptor, m: MessageName, es: seq<Entry>, i: nat) {
    |es| <= 1 && forall k :: 0 <= k < |es| ==> CanonicalEntry(d, m, es[k]) && At(d, m, es[k]) == i
  }

  lemma CanonicalOne(d: Descriptor, m: MessageName, f: nat, j: Json)
    requires Valid(d) && f < |d.fields(m)|
    requires var field := d.fields(m)[f];
             if field.repeated then j.Arr? && j.items != [] && forall k :: 0 <= k < |j.items| ==>
               Canonical(d, field.kind, j.items[k])
             else Canonical(d, field.kind, j)
    ensures CanonicalAt(d, m, [Entry(d.fields(m)[f].camel, j)], d.fields(m)[f].slot)
  {
    ResolveSpelling(d.fields(m), f, d.fields(m)[f].camel);
  }

  lemma {:induction false} PrintSlotCanonical(d: Descriptor, m: MessageName, i: nat, slot: Slot)
    requires Valid(d) && SlotTyped(d, m, i, slot) && SlotFinite(slot) && PrintSlot(d, m, i, slot).Ok?
    ensures CanonicalAt(d, m, PrintSlot(d, m, i, slot).value, i)
    decreases slot, 1
  {
    match slot {
      case Unset =>
      case Set(f, v) => PrintSetCanonical(d, m, f, v);
      case Many(vs) => PrintManyCanonical(d, m, Owner(d.fields(m), i).value, vs);
    }
  }

  lemma {:induction false} PrintSetCanonical(d: Descriptor, m: MessageName, f: nat, v: Value)
    requires Valid(d) && f < |d.fields(m)| && !d.fields(m)[f].repeated && Typed(d, d.fields(m)[f].kind, v) &&
               AllFinite(v)
    requires PrintSet(d, d.fields(m)[f], v).Ok?
    ensures CanonicalAt(d, m, PrintSet(d, d.fields(m)[f], v).value, d.fields(m)[f].slot)
    decreases v, 2
  {
    PrintCanonical(d, d.fields(m)[f].kind, v);
    CanonicalOne(d, m, f, Print(d, d.fields(m)[f].kind, v).value);
  }

  lemma {:induction false} PrintManyCanonical(d: Descriptor, m: MessageName, f: nat, vs: seq<Value>)
    requires Valid(d) && f < |d.fields(m)| && d.fields(m)[f].repeated
    requires forall k :: 0 <= k < |vs| ==> Typed(d, d.fields(m)[f].kind, vs[k]) && AllFinite(vs[k])
    requires PrintMany(d, d.fields(m)[f], vs).Ok?
    ensures CanonicalAt(d, m, PrintMany(d, d.fields(m)[f], vs).value, d.fields(m)[f].slot)
    decreases vs, 1
  {
    if vs != [] {
      PrintListCanonical(d, d.fields(m)[f].kind, vs);
      CanonicalOne(d, m, f, Arr(PrintList(d, d.fields(m)[f].kind, vs).value));
    }
  }

  lemma {:induction false} PrintListCanonical(d: Descriptor, kind: Kind, vs: seq<Value>)
    requires Valid(d) && forall k :: 0 <= k < |vs| ==> Typed(d, kind, vs[k]) && AllFinite(vs[k])
    ensures PrintList(d, kind, vs).Ok? ==> var js := PrintList(d, kind, vs).value;
              |js| == |vs| && forall k :: 0 <= k < |js| ==> Canonical(d, kind, js[k])
    decreases vs, 0
  {
    if vs != [] && PrintList(d, kind, vs).Ok? {
      PrintCanonical(d, kind, vs[0]);
      PrintListCanonical(d, kind, vs[1..]);
    }
  }

  // ----- only finite trees are printed so -----

  ghost predicate CanonicalAll(d: Descriptor, m: MessageName, es: seq<Entry>) {
    forall k :: 0 <= k < |es| ==> CanonicalEntry(d, m, es[k])
  }

  lemma SplitAll(d: Descriptor, m: MessageName, here: seq<Entry>, rest: seq<Entry>)
    requires CanonicalAll(d, m, here + rest)
    ensures CanonicalAll(d, m, here) && CanonicalAll(d, m, rest)
  {
    var es := here + rest;
    assert forall k :: 0 <= k < |here| ==> here[k] == es[k];
    assert forall k :: 0 <= k < |rest| ==> rest[k] == es[|here| + k];
  }

  lemma {:induction false} CanonicalFinite(d: Descriptor, kind: Kind, v: Value)
    requires Valid(d) && Typed(d, kind, v) && Print(d, kind, v).Ok? && Canonical(d, kind, Print(d, kind, v).value)
    ensures AllFinite(v)
    decreases v, 1
  {
    if v.Tree? {
      CanonicalSlotsFinite(d, kind.message, v.slots, 0);
    }
  }

  lemma {:induction false} CanonicalSlotsFinite(d: Descriptor, m: MessageName, slots: seq<Slot>, i: nat)
    requires Valid(d) && SlotsTyped(d, m, slots) && i <= |slots| && PrintSlots(d, m, slots, i).Ok?
    requires CanonicalAll(d, m, PrintSlots(d, m, slots, i).value)
    ensures forall k :: i <= k < |slots| ==> SlotFinite(slots[k])
    decreases slots, |slots| - i
  {
    if i < |slots| {
      SplitAll(d, m, PrintSlot(d, m, i, slots[i]).value, PrintSlots(d, m, slots, i + 1).value);
      CanonicalSlotFinite(d, m, i, slots[i]);
      CanonicalSlotsFinite(d, m, slots, i + 1);
    }
  }

  lemma {:induction false} CanonicalSlotFinite(d: Descriptor, m: MessageName, i: nat, slot: Slot)
    requires Valid(d) && SlotTyped(d, m, i, slot) && PrintSlot(d, m, i, slot).Ok?
    requires CanonicalAll(d, m, PrintSlot(d, m, i, slot).value)
    ensures SlotFinite(slot)
    decreases slot, 1
  {
    match slot {
      case Unset =>
      case Set(f, v) => CanonicalSetFinite(d, m, f, v);
      case Many(vs) => CanonicalManyFinite(d, m, Owner(d.fields(m), i).value, vs);
    }
  }

  lemma {:induction false} CanonicalSetFinite(d: Descriptor, m: MessageName, f: nat, v: Value)
    requires Valid(d) && f < |d.fields(m)| && !d.fields(m)[f].repeated && Typed(d, d.fields(m)[f].kind, v)
    requires PrintSet(d, d.fields(m)[f], v).Ok? && CanonicalAll(d, m, PrintSet(d, d.fields(m)[f], v).value)
    ensures AllFinite(v)
    decreases v, 2
  {
    ResolveSpelling(d.fields(m), f, d.fields(m)[f].camel);
    assert CanonicalEntry(d, m, PrintSet(d, d.fields(m)[f], v).value[0]);
    CanonicalFinite(d, d.fields(m)[f].kind, v);
  }

  lemma {:induction false} CanonicalManyFinite(d: Descriptor, m: MessageName, f: nat, vs: seq<Value>)
    requires Valid(d) && f < |d.fields(m)| && d.fields(m)[f].repeated
    requires forall k :: 0 <= k < |vs| ==> Typed(d, d.fields(m)[f].kind, vs[k])
    requires PrintMany(d, d.fields(m)[f], vs).Ok? && CanonicalAll(d, m, PrintMany(d, d.fields(m)[f], vs).value)
    ensures forall k :: 0 <= k < |vs| ==> AllFinite(vs[k])
    decreases vs, 1
  {
    if vs != [] {
      ResolveSpelling(d.fields(m), f, d.fields(m)[f].camel);
      assert CanonicalEntry(d, m, PrintMany(d, d.fields(m)[f], vs).value[0]);
      CanonicalListFinite(d, d.fields(m)[f].kind, vs);
    }
  }

  lemma {:induction false} CanonicalListFinite(d: Descriptor, kind: Kind, vs: seq<Value>)
    requires Valid(d) && (forall k :: 0 <= k < |vs| ==> Typed(d, kind, vs[k])) && PrintList(d, kind, vs).Ok?
    requires forall k :: 0 <= k < |PrintList(d, kind, vs).value| ==> Canonical(d, kind, PrintList(d, kind, vs).value[k])
    ensures forall k :: 0 <= k < |vs| ==> AllFinite(vs[k])
    decreases vs, 0
  {
    if vs != [] {
      var js, rest := PrintList(d, kind, vs).value, PrintList(d, kind, vs[1..]).value;
      assert Canonical(d, kind, js[0]);
      assert forall k :: 0 <= k < |rest| ==> rest[k] == js[k + 1];
      CanonicalFinite(d, kind, vs[0]);
      CanonicalListFinite(d, kind, vs[1..]);
      assert forall k :: 1 <= k < |vs| ==> vs[k] == vs[1..][k - 1];
    }
  }

  /** A printed message is canonical exactly when its doubles are finite: any other double is printed as a null. */
  lemma PrintsCanonicalExactly(d: Descriptor, m: MessageName, v: Value)
    requires Valid(d) && Typed(d, Nested(m), v) && Print(d, Nested(m), v).Ok?
    ensures Canonical(d, Nested(m), Print(d, Nested(m), v).value) <==> AllFinite(v)
  {
    if AllFinite(v) {
      PrintCanonical(d, Nested(m), v);
    }
    if Canonical(d, Nested(m), Print(d, Nested(m), v).value) {
      CanonicalFinite(d, Nested(m), v);
    }
  }

  // ----- what is canonical is printed back -----

  lemma {:induction false} CanonicalPrints(d: Descriptor, kind: Kind, j: Json)
    requires Valid(d) && Canonical(d, kind, j) && Parse(d, kind, j).Ok?
    ensures Typed(d, kind, Parse(d, kind, j).value) && Print(d, kind, Parse(d, kind, j).value) == Ok(j)
    decreases j, 0
  {
    ParsedTyped(d, kind, j);
    match kind {
      case Enumeration(e) =>
        VariantInverse(d.variants(e), Variant(j.s, FindName(d.variants(e), j.s).value));
      case Nested(m) =>
        var slots := Parse(d, kind, j).value.slots;
        AcceptedExactly(d, m, j);
        forall i | 0 <= i < |j.entries|
          ensures Prints(d, m, slots, j.entries[i])
        {
          EntryPrints(d, m, j.entries[i], slots);
        }
        CanonicalSlots(d, m, slots, j.entries, 0, 0);
        assert j.entries[0..] == j.entries;
      case _ =>
    }
  }

  /** The slot this entry addresses prints as this entry. */
  ghost predicate Prints(d: Descriptor, m: MessageName, slots: seq<Slot>, e: Entry)
    requires SlotsTyped(d, m, slots)
  {
    At(d, m, e) < |slots| && PrintSlot(d, m, At(d, m, e), slots[At(d, m, e)]) == Ok([e])
  }

  ghost predicate Silent(d: Descriptor, m: MessageName, slots: seq<Slot>, s: nat)
    requires SlotsTyped(d, m, slots) && s < |slots|
  {
    PrintSlot(d, m, s, slots[s]) == Ok([])
  }

  lemma {:induction false} EntryPrints(d: Descriptor, m: MessageName, e: Entry, slots: seq<Slot>)
    requires Valid(d) && CanonicalEntry(d, m, e) && SlotsTyped(d, m, slots) && Read(d, m, e).Some?
    requires !e.value.Null? ==> slots[Read(d, m, e).value.at] == Read(d, m, e).value.slot
    ensures Prints(d, m, slots, e)
    decreases e, 0
  {
    var f := Resolve(d.fields(m), e.key).value;
    OwnerOfRepeated(d.fields(m), f);
    if d.fields(m)[f].repeated {
      VecPrints(d, d.fields(m)[f], e.value);
    } else {
      OptionPrints(d, d.fields(m)[f], f, e.value);
    }
  }

  lemma {:induction false} OptionPrints(d: Descriptor, field: Field, f: nat, j: Json)
    requires Valid(d) && Canonical(d, field.kind, j) && ParseOption(d, field.kind, f, j).Ok?
    ensures !j.Null? && var slot := ParseOption(d, field.kind, f, j).value;
            slot.Set? && slot.field == f && Typed(d, field.kind, slot.value)
            && PrintSet(d, field, slot.value) == Ok([Entry(field.camel, j)])
    decreases j, 1
  {
    CanonicalPrints(d, field.kind, j);
  }

  lemma {:induction false} VecPrints(d: Descriptor, field: Field, j: Json)
    requires Valid(d) && j.Arr? && j.items != [] && ParseVec(d, field.kind, j).Ok?
    requires forall k :: 0 <= k < |j.items| ==> Canonical(d, field.kind, j.items[k])
    ensures var slot := ParseVec(d, field.kind, j).value;
            slot.Many? && (forall k :: 0 <= k < |slot.values| ==> Typed(d, field.kind, slot.values[k]))
            && PrintMany(d, field, slot.values) == Ok([Entry(field.camel, j)])
    decreases j, 1
  {
    ListPrints(d, field.kind, j.items);
  }

  lemma {:induction false} ListPrints(d: Descriptor, kind: Kind, items: seq<Json>)
    requires Valid(d) && ParseList(d, kind, items).Ok?
    requires forall k :: 0 <= k < |items| ==> Canonical(d, kind, items[k])
    ensures var vs := ParseList(d, kind, items).value;
            && |vs| == |items| && (forall k :: 0 <= k < |vs| ==> Typed(d, kind, vs[k]))
            && PrintList(d, kind, vs) == Ok(items)
    decreases items, 0
  {
    if items != [] {
      CanonicalPrints(d, kind, items[0]);
      ListPrints(d, kind, items[1..]);
      var v, vs := Parse(d, kind, items[0]).value, ParseList(d, kind, items[1..]).value;
      assert ([v] + vs)[1..] == vs;
      assert items == [items[0]] + items[1..];
    }
  }

  lemma SlotsStep(d: Descriptor, m: MessageName, slots: seq<Slot>, i: nat, here: seq<Entry>, rest: seq<Entry>)
    requires SlotsTyped(d, m, slots) && i < |slots|
    requires PrintSlot(d, m, i, slots[i]) == Ok(here) && PrintSlots(d, m, slots, i + 1) == Ok(rest)
    ensures PrintSlots(d, m, slots, i) == Ok(here + rest)
  {
  }

  /** From slot `i` and entry `k` on, each entry is what its slot prints, and the other slots print nothing. */
  ghost predicate Covers(d: Descriptor, m: MessageName, slots: seq<Slot>, es: seq<Entry>, i: nat, k: nat)
    requires SlotsTyped(d, m, slots)
  {
    && i <= |slots| && k <= |es|
    && (forall a :: k <= a < |es| ==> i <= At(d, m, es[a]) && Prints(d, m, slots, es[a]))
    && (forall s :: i <= s < |slots| ==> Silent(d, m, slots, s) || exists a :: k <= a < |es| && At(d, m, es[a]) == s)
  }

  lemma CoversNext(d: Descriptor, m: MessageName, slots: seq<Slot>, es: seq<Entry>, i: nat, k: nat)
    requires SlotsTyped(d, m, slots) && InSlotOrder(d, m, es) && Covers(d, m, slots, es, i, k) && i < |slots|
    ensures if k < |es| && At(d, m, es[k]) == i then Prints(d, m, slots, es[k]) && Covers(d, m, slots, es, i + 1, k + 1)
            else Silent(d, m, slots, i) && Covers(d, m, slots, es, i + 1, k)
  {
  }

  lemma CoversInside(d: Descriptor, m: MessageName, slots: seq<Slot>, es: seq<Entry>, i: nat, k: nat)
    requires SlotsTyped(d, m, slots) && Covers(d, m, slots, es, i, k) && k < |es|
    ensures i < |slots|
  {
    assert Prints(d, m, slots, es[k]);
  }

  lemma FirstAndRest<T>(s: seq<T>, k: nat)
    requires k < |s|
    ensures [s[k]] + s[k + 1..] == s[k..]
  {
  }

  lemma {:induction false} CanonicalSlots(d: Descriptor, m: MessageName, slots: seq<Slot>, es: seq<Entry>,
                                          i: nat, k: nat)
    requires SlotsTyped(d, m, slots) && InSlotOrder(d, m, es) && Covers(d, m, slots, es, i, k)
    ensures PrintSlots(d, m, slots, i) == Ok(es[k..])
    decreases |slots| - i
  {
    if k < |es| {
      CoversInside(d, m, slots, es, i, k);
    }
    if i < |slots| {
      CoversNext(d, m, slots, es, i, k);
      if k < |es| && At(d, m, es[k]) == i {
        CanonicalSlots(d, m, slots, es, i + 1, k + 1);
        FirstAndRest(es, k);
        SlotsStep(d, m, slots, i, [es[k]], es[k + 1..]);
      } else {
        CanonicalSlots(d, m, slots, es, i + 1, k);
        assert [] + es[k..] == es[k..];
        SlotsStep(d, m, slots, i, [], es[k..]);
      }
    } else {
      assert es[k..] == [];
    }
  }

  // ----- main result -----

  /**
   Printing what was parsed gives back the document itself exactly when the document is canonical; so the canonical
   documents the parser accepts are exactly those the printer writes for trees that survive it.
   */
  lemma CanonicalExactly(d: Descriptor, m: MessageName, j: Json)
    requires Valid(d) && Parse(d, Nested(m), j).Ok?
    ensures Typed(d, Nested(m), Parse(d, Nested(m), j).value)
    ensures Print(d, Nested(m), Parse(d, Nested(m), j).value) == Ok(j) <==> Canonical(d, Nested(m), j)
  {
    var v := Parse(d, Nested(m), j).value;
    ParsedTyped(d, Nested(m), j);
    if Canonical(d, Nested(m), j) {
      CanonicalPrints(d, Nested(m), j);
    }
    if Print(d, Nested(m), v) == Ok(j) {
      RoundTrip(d, m, v);
      PrintCanonical(d, Nested(m), v);
    }
  }
}
