/**
 With which error the codec fails: the printer on the first undefined enum number that it would write, the parser on
 the first entry that does not follow the ones before it.
 */
module JobFailures {
  import opened Wrappers
  import opened Descriptor
  import opened Json
  import opened JobCodec
  import opened JobRoundTrip
  import opened JobAcceptance
  import opened JobMeaning

  // ----- printing -----

  /** Of the enum numbers in the tree, in the order of writing, `n` is the first that is undefined. */
  ghost predicate FirstUndefined(d: Descriptor, kind: Kind, v: Value, n: int)
    requires Typed(d, kind, v)
    decreases v, 0
  {
    match v
    case EnumV(k) => k == n && forall x :: x in d.variants(kind.enum) ==> x.number != n
    case Tree(slots) =>
      exists i :: 0 <= i < |slots| && SlotFirstUndefined(d, kind.message, i, slots[i], n) &&
                  forall k :: 0 <= k < i ==> SlotEnumsDefined(d, kind.message, k, slots[k])
    case _ => false
  }

  ghost predicate SlotFirstUndefined(d: Descriptor, m: MessageName, i: nat, slot: Slot, n: int)
    requires SlotTyped(d, m, i, slot)
    decreases slot, 0
  {
    match slot
    case Unset => false
    case Set(f, v) => FirstUndefined(d, d.fields(m)[f].kind, v, n)
    case Many(vs) => ListFirstUndefined(d, RepeatedKind(d.fields(m), i), vs, n)
  }

  ghost predicate ListFirstUndefined(d: Descriptor, kind: Kind, vs: seq<Value>, n: int)
    requires forall k :: 0 <= k < |vs| ==> Typed(d, kind, vs[k])
    decreases vs, 0
  {
    exists i :: 0 <= i < |vs| && FirstUndefined(d, kind, vs[i], n) &&
                forall k :: 0 <= k < i ==> EnumsDefined(d, kind, vs[k])
  }

  /** Printing fails with a number exactly when it is the first undefined one. */
  lemma {:induction false} PrintFailsExactly(d: Descriptor, kind: Kind, v: Value, n: int)
    requires Typed(d, kind, v)
    ensures Print(d, kind, v) == Err(InvalidVariant(n)) <==> FirstUndefined(d, kind, v, n)
    decreases v, 1
  {
    if v.Tree? {
      SlotsFail(d, kind.message, v.slots, 0, n);
    }
  }

  lemma {:induction false} SlotsFail(d: Descriptor, m: MessageName, slots: seq<Slot>, i: nat, n: int)
    requires SlotsTyped(d, m, slots) && i <= |slots|
    ensures PrintSlots(d, m, slots, i) == Err(InvalidVariant(n)) <==>
            exists k :: i <= k < |slots| && SlotFirstUndefined(d, m, k, slots[k], n) &&
                        forall l :: i <= l < k ==> SlotEnumsDefined(d, m, l, slots[l])
    decreases slots, |slots| - i
  {
    if i < |slots| {
      PrintSlotsStep(d, m, slots, i);
      PrintSlotSucceeds(d, m, i, slots[i]);
      SlotFails(d, m, i, slots[i], n);
      SlotsFail(d, m, slots, i + 1, n);
    }
  }

  lemma {:induction false} SlotFails(d: Descriptor, m: MessageName, i: nat, slot: Slot, n: int)
    requires SlotTyped(d, m, i, slot)
    ensures PrintSlot(d, m, i, slot) == Err(InvalidVariant(n)) <==> SlotFirstUndefined(d, m, i, slot, n)
    decreases slot, 1
  {
    match slot {
      case Unset =>
      case Set(f, v) => SetFails(d, d.fields(m)[f], v, n);
      case Many(vs) => ManyFails(d, d.fields(m)[Owner(d.fields(m), i).value], vs, n);
    }
  }

  lemma {:induction false} SetFails(d: Descriptor, field: Field, v: Value, n: int)
    requires Typed(d, field.kind, v)
    ensures PrintSet(d, field, v) == Err(InvalidVariant(n)) <==> FirstUndefined(d, field.kind, v, n)
    decreases v, 2
  {
    PrintFailsExactly(d, field.kind, v, n);
  }

  lemma {:induction false} ManyFails(d: Descriptor, field: Field, vs: seq<Value>, n: int)
    requires forall k :: 0 <= k < |vs| ==> Typed(d, field.kind, vs[k])
    ensures PrintMany(d, field, vs) == Err(InvalidVariant(n)) <==> ListFirstUndefined(d, field.kind, vs, n)
    decreases vs, 1
  {
    ListFails(d, field.kind, vs, n);
  }

  lemma {:induction false} ListFails(d: Descriptor, kind: Kind, vs: seq<Value>, n: int)
    requires forall k :: 0 <= k < |vs| ==> Typed(d, kind, vs[k])
    ensures PrintList(d, kind, vs) == Err(InvalidVariant(n)) <==> ListFirstUndefined(d, kind, vs, n)
    decreases vs, 0
  {
    if vs != [] {
      PrintSucceeds(d, kind, vs[0]);
      PrintFailsExactly(d, kind, vs[0], n);
      ListFails(d, kind, vs[1..], n);
      LaterUndefined(d, kind, vs, n);
    }
  }

  lemma LaterUndefined(d: Descriptor, kind: Kind, vs: seq<Value>, n: int)
    requires vs != [] && forall k :: 0 <= k < |vs| ==> Typed(d, kind, vs[k])
    requires FirstUndefined(d, kind, vs[0], n) ==> !EnumsDefined(d, kind, vs[0])
    ensures ListFirstUndefined(d, kind, vs, n) <==>
            FirstUndefined(d, kind, vs[0], n) ||
            (EnumsDefined(d, kind, vs[0]) && ListFirstUndefined(d, kind, vs[1..], n))
  {
    assert forall i :: 1 <= i < |vs| ==> vs[i] == vs[1..][i - 1];
  }

  // ----- parsing -----

  /** What is wrong with the document: `e` is about the first thing in it that is. */
  ghost predicate Faulty(d: Descriptor, kind: Kind, j: Json, e: ParseError)
    decreases j, 0
  {
    match kind
    case Text => !j.Str? && e == InvalidType
    case Flag => !j.Bool? && e == InvalidType
    case Number(w) => !NumberAccepted(d.text, w, j) && e == if j.Str? then InvalidValue else InvalidType
    case Enumeration(n) =>
      !EnumAccepted(d.variants(n), j) &&
      e == if j.Str? then UnknownVariant(j.s) else if j.Int? then InvalidValue else InvalidType
    case Nested(m) =>
      if !j.Obj? then e == InvalidType
      else exists i :: 0 <= i < |j.entries| && Acceptable(d, kind, Obj(j.entries[..i])) &&
                       if Taken(d, m, j.entries[..i], j.entries[i])
                       then e == DuplicateField(d.fields(m)[Resolve(d.fields(m), j.entries[i].key).value].camel)
                       else FaultyEntry(d, m, j.entries[i], e)
  }

  /** One of the entries before has given the slot of `e` a value. */
  ghost predicate Taken(d: Descriptor, m: MessageName, before: seq<Entry>, e: Entry) {
    exists k :: 0 <= k < |before| && SameSlot(d, m, before[k], e) && !before[k].value.Null?
  }

  /** The key is unknown, or the value does not fit the field. */
  ghost predicate FaultyEntry(d: Descriptor, m: MessageName, x: Entry, e: ParseError)
    decreases x, 0
  {
    match Resolve(d.fields(m), x.key)
    case None => e == UnknownField(x.key)
    case Some(f) =>
      if d.fields(m)[f].repeated then FaultyVec(d, d.fields(m)[f].kind, x.value, e)
      else !x.value.Null? && Faulty(d, d.fields(m)[f].kind, x.value, e)
  }

  ghost predicate FaultyVec(d: Descriptor, kind: Kind, j: Json, e: ParseError)
    decreases j, 1
  {
    if !j.Arr? then e == InvalidType
    else exists k :: 0 <= k < |j.items| && Faulty(d, kind, j.items[k], e) &&
                     forall l :: 0 <= l < k ==> Acceptable(d, kind, j.items[l])
  }

  /** The parser fails with an error exactly when that is what is first wrong with the document. */
  lemma {:induction false} FailsExactly(d: Descriptor, kind: Kind, j: Json, e: ParseError)
    requires SlotsInRange(d)
    ensures Parse(d, kind, j) == Err(e) <==> Faulty(d, kind, j, e)
    decreases j, 0
  {
    if !kind.Nested? {
      LeafFails(d, kind, j, e);
    } else if j.Obj? {
      var m := kind.message;
      EntriesFail(d, m, j.entries, Blank(d.slots(m)), e);
      forall i | 0 <= i < |j.entries|
        ensures FailsAt(d, m, j.entries, Blank(d.slots(m)), i, e) <==>
                Acceptable(d, kind, Obj(j.entries[..i])) &&
                if Taken(d, m, j.entries[..i], j.entries[i])
                then e == DuplicateField(d.fields(m)[Resolve(d.fields(m), j.entries[i].key).value].camel)
                else FaultyEntry(d, m, j.entries[i], e)
      {
        EntryFails(d, m, j.entries[i], e);
        TurnFails(d, m, j.entries[..i], j.entries[i], e);
      }
    }
  }

  lemma LeafFails(d: Descriptor, kind: Kind, j: Json, e: ParseError)
    requires SlotsInRange(d) && !kind.Nested?
    ensures Parse(d, kind, j) == Err(e) <==> Faulty(d, kind, j, e)
  {
  }

  /** The entries before `i` are read, and entry `i` fails. */
  ghost predicate FailsAt(d: Descriptor, m: MessageName, es: seq<Entry>, state: seq<Slot>, i: nat, e: ParseError)
    requires SlotsInRange(d) && |state| == d.slots(m) && i < |es|
  {
    var before := VisitEntries(d, m, es[..i], state);
    before.Ok? && VisitEntry(d, m, es[i], before.value) == Err(e)
  }

  lemma {:induction false} EntriesFail(d: Descriptor, m: MessageName, es: seq<Entry>, state: seq<Slot>, e: ParseError)
    requires SlotsInRange(d) && |state| == d.slots(m)
    ensures VisitEntries(d, m, es, state) == Err(e) <==> exists i :: 0 <= i < |es| && FailsAt(d, m, es, state, i, e)
    decreases |es|
  {
    if es != [] {
      var first := VisitEntry(d, m, es[0], state);
      FailsFirst(d, m, es, state, e);
      assert es == [es[0]] + es[1..];
      VisitStep(d, m, es[0], es[1..], state);
      forall i | 1 <= i < |es|
        ensures FailsAt(d, m, es, state, i, e) <==> first.Ok? && FailsAt(d, m, es[1..], first.value, i - 1, e)
      {
        FailsLater(d, m, es, state, i, e);
      }
      if first.Ok? {
        EntriesFail(d, m, es[1..], first.value, e);
        if i :| 0 <= i < |es| - 1 && FailsAt(d, m, es[1..], first.value, i, e) {
          assert FailsAt(d, m, es, state, i + 1, e);
        }
      }
    }
  }

  lemma FailsFirst(d: Descriptor, m: MessageName, es: seq<Entry>, state: seq<Slot>, e: ParseError)
    requires SlotsInRange(d) && |state| == d.slots(m) && es != []
    ensures FailsAt(d, m, es, state, 0, e) <==> VisitEntry(d, m, es[0], state) == Err(e)
  {
    VisitNone(d, m, state);
    assert es[..0] == [];
  }

  lemma FailsLater(d: Descriptor, m: MessageName, es: seq<Entry>, state: seq<Slot>, i: nat, e: ParseError)
    requires SlotsInRange(d) && |state| == d.slots(m) && 1 <= i < |es|
    ensures var first := VisitEntry(d, m, es[0], state);
            FailsAt(d, m, es, state, i, e) <==> first.Ok? && FailsAt(d, m, es[1..], first.value, i - 1, e)
  {
    assert es[..i] == [es[0]] + es[1..][..i - 1];
    VisitStep(d, m, es[0], es[1..][..i - 1], state);
  }

  /** One turn of the loop after entries that are acceptable so far. */
  lemma TurnFails(d: Descriptor, m: MessageName, before: seq<Entry>, x: Entry, e: ParseError)
    requires SlotsInRange(d)
    requires var f := Resolve(d.fields(m), x.key);
             FaultyEntry(d, m, x, e) <==>
             match f { case None => e == UnknownField(x.key) case Some(f) => ParseField(d, m, f, x.value) == Err(e) }
    ensures var state := VisitEntries(d, m, before, Blank(d.slots(m)));
            state.Ok? && VisitEntry(d, m, x, state.value) == Err(e) <==>
            Acceptable(d, Nested(m), Obj(before)) &&
            if Taken(d, m, before, x)
            then e == DuplicateField(d.fields(m)[Resolve(d.fields(m), x.key).value].camel)
            else FaultyEntry(d, m, x, e)
  {
    var state := VisitEntries(d, m, before, Blank(d.slots(m)));
    AcceptsExactly(d, Nested(m), Obj(before));
    var f := Resolve(d.fields(m), x.key);
    if state.Ok? && f.Some? {
      TakenMeans(d, m, before, x);
    }
  }

  lemma TakenMeans(d: Descriptor, m: MessageName, before: seq<Entry>, x: Entry)
    requires SlotsInRange(d) && VisitEntries(d, m, before, Blank(d.slots(m))).Ok?
    requires Resolve(d.fields(m), x.key).Some?
    ensures Taken(d, m, before, x) <==> VisitEntries(d, m, before, Blank(d.slots(m))).value[At(d, m, x)] != Unset
  {
    var rs := ReadAll(d, m, before);
    var r := VisitBlank(d, m, before);
    SlotsLeft(d, m, before);
    forall k | 0 <= k < |before|
      ensures SameSlot(d, m, before[k], x) <==> Read(d, m, before[k]).value.at == At(d, m, x)
      ensures before[k].value.Null? <==> Read(d, m, before[k]).value.slot == Unset
    {
      assert rs[k] == Read(d, m, before[k]);
      ReadNull(d, m, before[k]);
    }
  }

  lemma {:induction false} EntryFails(d: Descriptor, m: MessageName, x: Entry, e: ParseError)
    requires SlotsInRange(d)
    ensures FaultyEntry(d, m, x, e) <==>
            match Resolve(d.fields(m), x.key)
            { case None => e == UnknownField(x.key) case Some(f) => ParseField(d, m, f, x.value) == Err(e) }
    decreases x, 1
  {
    var f := Resolve(d.fields(m), x.key);
    if f.Some? {
      FieldFails(d, m, f.value, x, e);
    }
  }

  lemma {:induction false} FieldFails(d: Descriptor, m: MessageName, f: nat, x: Entry, e: ParseError)
    requires SlotsInRange(d) && Resolve(d.fields(m), x.key) == Some(f)
    ensures FaultyEntry(d, m, x, e) <==> ParseField(d, m, f, x.value) == Err(e)
    decreases x, 0
  {
    FaultyField(d, m, f, x, e);
    if d.fields(m)[f].repeated {
      VecFails(d, d.fields(m)[f].kind, x.value, e);
    } else {
      OptionFails(d, d.fields(m)[f].kind, f, x.value, e);
    }
  }

  lemma FaultyField(d: Descriptor, m: MessageName, f: nat, x: Entry, e: ParseError)
    requires SlotsInRange(d) && Resolve(d.fields(m), x.key) == Some(f)
    ensures FaultyEntry(d, m, x, e) <==>
            if d.fields(m)[f].repeated then FaultyVec(d, d.fields(m)[f].kind, x.value, e)
            else !x.value.Null? && Faulty(d, d.fields(m)[f].kind, x.value, e)
    ensures ParseField(d, m, f, x.value) ==
            if d.fields(m)[f].repeated then ParseVec(d, d.fields(m)[f].kind, x.value)
            else ParseOption(d, d.fields(m)[f].kind, f, x.value)
  {
  }

  lemma {:induction false} VecFails(d: Descriptor, kind: Kind, j: Json, e: ParseError)
    requires SlotsInRange(d)
    ensures ParseVec(d, kind, j) == Err(e) <==> FaultyVec(d, kind, j, e)
    decreases j, 1
  {
    if j.Arr? {
      ItemsFail(d, kind, j.items, e);
    }
  }

  lemma {:induction false} OptionFails(d: Descriptor, kind: Kind, f: nat, j: Json, e: ParseError)
    requires SlotsInRange(d)
    ensures ParseOption(d, kind, f, j) == Err(e) <==> !j.Null? && Faulty(d, kind, j, e)
    decreases j, 1
  {
    FailsExactly(d, kind, j, e);
  }

  lemma {:induction false} ItemsFail(d: Descriptor, kind: Kind, items: seq<Json>, e: ParseError)
    requires SlotsInRange(d)
    ensures ParseList(d, kind, items) == Err(e) <==>
            exists k :: 0 <= k < |items| && Faulty(d, kind, items[k], e) &&
                        forall l :: 0 <= l < k ==> Acceptable(d, kind, items[l])
    decreases items, 0
  {
    if items != [] {
      AcceptsExactly(d, kind, items[0]);
      FailsExactly(d, kind, items[0], e);
      ItemsFail(d, kind, items[1..], e);
      assert forall k :: 1 <= k < |items| ==> items[k] == items[1..][k - 1];
    }
  }
}
