/** What the parser accepts, and which differences between two documents it does not see. */
module JobDocuments {
  import opened Wrappers
  import opened Descriptor
  import opened Json
  import opened JobCodec
  import opened JobRoundTrip

  // ----- an accepted document is a well-typed tree that prints -----

  lemma {:induction false} ParsedTyped(d: Descriptor, kind: Kind, j: Json)
    requires Valid(d) && Parse(d, kind, j).Ok?
    ensures Typed(d, kind, Parse(d, kind, j).value) && EnumsDefined(d, kind, Parse(d, kind, j).value)
    decreases j, 0
  {
    match kind {
      case Enumeration(e) => ParsedEnum(d.variants(e), j);
      case Nested(m) =>
        var blank := Blank(d.slots(m));
        ParsedEntries(d, m, j.entries, blank);
        var state := VisitEntries(d, m, j.entries, blank).value;
        var slots := Finish(d.fields(m), state);
        forall i | 0 <= i < |slots|
          ensures SlotTyped(d, m, i, slots[i]) && SlotEnumsDefined(d, m, i, slots[i])
        {
          assert state[i] == Unset || Good(d, m, i, state[i]);
        }
      case _ =>
    }
  }

  lemma ParsedEnum(vs: seq<Variant>, j: Json)
    requires ValidEnum(vs) && ParseEnum(vs, j).Ok?
    ensures var v := ParseEnum(vs, j).value; v.EnumV? && InRange(Int32, v.n) && FindNumber(vs, v.n).Some?
  {
    if j.Str? {
      VariantInverse(vs, Variant(j.s, FindName(vs, j.s).value));
    }
  }

  ghost predicate Good(d: Descriptor, m: MessageName, i: nat, slot: Slot) {
    SlotTyped(d, m, i, slot) && SlotEnumsDefined(d, m, i, slot)
  }

  ghost predicate GoodState(d: Descriptor, m: MessageName, state: seq<Slot>) {
    |state| == d.slots(m) && forall i :: 0 <= i < |state| ==> state[i] == Unset || Good(d, m, i, state[i])
  }

  lemma {:induction false} ParsedEntries(d: Descriptor, m: MessageName, entries: seq<Entry>, state: seq<Slot>)
    requires Valid(d) && GoodState(d, m, state) && VisitEntries(d, m, entries, state).Ok?
    ensures GoodState(d, m, VisitEntries(d, m, entries, state).value)
    decreases entries, 3
  {
    if entries != [] {
      var f := Resolve(d.fields(m), entries[0].key).value;
      ParsedField(d, m, f, entries[0].value);
      var slot := ParseField(d, m, f, entries[0].value).value;
      ParsedEntries(d, m, entries[1..], state[d.fields(m)[f].slot := slot]);
    }
  }

  lemma {:induction false} ParsedField(d: Descriptor, m: MessageName, f: nat, j: Json)
    requires Valid(d) && f < |d.fields(m)| && ParseField(d, m, f, j).Ok?
    ensures var slot := ParseField(d, m, f, j).value;
            slot == Unset || Good(d, m, d.fields(m)[f].slot, slot)
    decreases j, 2
  {
    if d.fields(m)[f].repeated {
      ParsedVec(d, d.fields(m)[f].kind, j);
      GoodMany(d, m, f, ParseVec(d, d.fields(m)[f].kind, j).value);
    } else {
      ParsedOption(d, d.fields(m)[f].kind, f, j);
      GoodSet(d, m, f, ParseOption(d, d.fields(m)[f].kind, f, j).value);
    }
  }

  ghost predicate SetOf(d: Descriptor, kind: Kind, f: nat, slot: Slot) {
    slot.Set? && slot.field == f && Typed(d, kind, slot.value) && EnumsDefined(d, kind, slot.value)
  }

  ghost predicate ManyOf(d: Descriptor, kind: Kind, slot: Slot) {
    slot.Many? && forall k :: 0 <= k < |slot.values| ==>
      Typed(d, kind, slot.values[k]) && EnumsDefined(d, kind, slot.values[k])
  }

  lemma GoodSet(d: Descriptor, m: MessageName, f: nat, slot: Slot)
    requires Valid(d) && f < |d.fields(m)| && !d.fields(m)[f].repeated
    requires slot == Unset || SetOf(d, d.fields(m)[f].kind, f, slot)
    ensures slot == Unset || Good(d, m, d.fields(m)[f].slot, slot)
  {
  }

  lemma GoodMany(d: Descriptor, m: MessageName, f: nat, slot: Slot)
    requires Valid(d) && f < |d.fields(m)| && d.fields(m)[f].repeated
    requires ManyOf(d, d.fields(m)[f].kind, slot)
    ensures Good(d, m, d.fields(m)[f].slot, slot)
  {
    OwnerOfRepeated(d.fields(m), f);
  }

  lemma {:induction false} ParsedOption(d: Descriptor, kind: Kind, f: nat, j: Json)
    requires Valid(d) && ParseOption(d, kind, f, j).Ok?
    ensures var slot := ParseOption(d, kind, f, j).value; slot == Unset || SetOf(d, kind, f, slot)
    decreases j, 1
  {
    if !j.Null? {
      ParsedTyped(d, kind, j);
    }
  }

  lemma {:induction false} ParsedVec(d: Descriptor, kind: Kind, j: Json)
    requires Valid(d) && ParseVec(d, kind, j).Ok?
    ensures ManyOf(d, kind, ParseVec(d, kind, j).value)
    decreases j, 1
  {
    ParsedList(d, kind, j.items);
  }

  lemma {:induction false} ParsedList(d: Descriptor, kind: Kind, items: seq<Json>)
    requires Valid(d) && ParseList(d, kind, items).Ok?
    ensures var vs := ParseList(d, kind, items).value;
            forall k :: 0 <= k < |vs| ==> Typed(d, kind, vs[k]) && EnumsDefined(d, kind, vs[k])
    decreases items, 0
  {
    if items != [] {
      ParsedTyped(d, kind, items[0]);
      ParsedList(d, kind, items[1..]);
    }
  }

  /**
   One pass through the codec normalises: the tree of an accepted document prints, and what is printed parses to
   the tree without its non-finite doubles, which further passes leave alone.
   */
  lemma Normalises(d: Descriptor, m: MessageName, j: Json)
    requires Valid(d) && Parse(d, Nested(m), j).Ok?
    ensures var v := Parse(d, Nested(m), j).value;
            && Typed(d, Nested(m), v) && Typed(d, Nested(m), Scrub(v))
            && var once := Print(d, Nested(m), v);
            && once.Ok?
            && Parse(d, Nested(m), once.value) == Ok(Scrub(v))
            && Print(d, Nested(m), Scrub(v)).Ok?
            && Parse(d, Nested(m), Print(d, Nested(m), Scrub(v)).value) == Ok(Scrub(v))
            && (Parse(d, Nested(m), once.value) == Ok(v) <==> AllFinite(v))
  {
    var v := Parse(d, Nested(m), j).value;
    ParsedTyped(d, Nested(m), j);
    RoundTrip(d, m, v);
    ScrubFinite(d, Nested(m), v);
    ScrubFinite(d, Nested(m), Scrub(v));
    ParsedTyped(d, Nested(m), Print(d, Nested(m), v).value);
    RoundTrip(d, m, Scrub(v));
  }
}
