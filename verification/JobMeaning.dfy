/**
 What the parser accepts and what it makes of it, for whole documents and without its loops: a document is read by
 recursion on the document itself.
 */
module JobMeaning {
  import opened Wrappers
  import opened Descriptor
  import opened Json
  import opened JobCodec
  import opened JobAcceptance

  // ----- acceptance -----

  /** The integer that a number, or the text of one, denotes. */
  function IntegerIn(text: NumberText, j: Json): Option<int> {
    match j
    case Int(n) => Some(n)
    case Str(s) => text.asInt(s)
    case _ => None
  }

  /** The double that a number, with or without a fraction, or the text of one, denotes. */
  function DoubleIn(text: NumberText, j: Json): Option<Double> {
    match j
    case Int(n) => Some(Finite(n as real))
    case Float(x) => Some(Finite(x))
    case Str(s) => text.asDouble(s)
    case _ => None
  }

  /** A number of the type, or the text of one. */
  predicate NumberAccepted(text: NumberText, w: NumberType, j: Json) {
    match w
    case Int32 => IntegerIn(text, j).Some? && -0x8000_0000 <= IntegerIn(text, j).value < 0x8000_0000
    case UInt32 => IntegerIn(text, j).Some? && 0 <= IntegerIn(text, j).value < 0x1_0000_0000
    case Float64 => DoubleIn(text, j).Some?
  }

  /** The name or the number of a variant. */
  predicate EnumAccepted(vs: seq<Variant>, j: Json) {
    match j
    case Str(s) => exists v :: v in vs && v.name == s
    case Int(n) => -0x8000_0000 <= n < 0x8000_0000 && exists v :: v in vs && v.number == n
    case _ => false
  }

  /** In every object every entry is acceptable, and of two entries for one slot the earlier is null. */
  ghost predicate Acceptable(d: Descriptor, kind: Kind, j: Json)
    decreases j, 0
  {
    match kind
    case Text => j.Str?
    case Flag => j.Bool?
    case Number(w) => NumberAccepted(d.text, w, j)
    case Enumeration(e) => EnumAccepted(d.variants(e), j)
    case Nested(m) =>
      && j.Obj?
      && (forall i :: 0 <= i < |j.entries| ==> AcceptableEntry(d, m, j.entries[i]))
      && (forall i, k :: 0 <= i < k < |j.entries| && SameSlot(d, m, j.entries[i], j.entries[k]) ==>
            j.entries[i].value.Null?)
  }

  /** The key is known, and the value a list of acceptable values, or null or an acceptable value. */
  ghost predicate AcceptableEntry(d: Descriptor, m: MessageName, e: Entry)
    decreases e, 0
  {
    var f := Resolve(d.fields(m), e.key);
    && f.Some?
    && var field := d.fields(m)[f.value];
       if field.repeated then AcceptableVec(d, field.kind, e.value)
       else e.value.Null? || Acceptable(d, field.kind, e.value)
  }

  ghost predicate AcceptableVec(d: Descriptor, kind: Kind, j: Json)
    decreases j, 1
  {
    j.Arr? && forall k :: 0 <= k < |j.items| ==> Acceptable(d, kind, j.items[k])
  }

  lemma LeafAccepted(d: Descriptor, kind: Kind, j: Json)
    requires SlotsInRange(d) && !kind.Nested?
    ensures Parse(d, kind, j).Ok? <==> Acceptable(d, kind, j)
  {
  }

  /** The parser accepts exactly the acceptable documents. */
  lemma {:induction false} AcceptsExactly(d: Descriptor, kind: Kind, j: Json)
    requires SlotsInRange(d)
    ensures Parse(d, kind, j).Ok? <==> Acceptable(d, kind, j)
    decreases j, 0
  {
    if !kind.Nested? {
      LeafAccepted(d, kind, j);
    } else if j.Obj? {
      AcceptedExactly(d, kind.message, j);
      forall i | 0 <= i < |j.entries|
        ensures Read(d, kind.message, j.entries[i]).Some? <==> AcceptableEntry(d, kind.message, j.entries[i])
      {
        EntryAccepted(d, kind.message, j.entries[i]);
      }
    }
  }

  lemma ReadExactly(d: Descriptor, m: MessageName, e: Entry)
    requires SlotsInRange(d)
    ensures var f := Resolve(d.fields(m), e.key);
            Read(d, m, e).Some? <==> f.Some? && ParseField(d, m, f.value, e.value).Ok?
  {
  }

  lemma {:induction false} EntryAccepted(d: Descriptor, m: MessageName, e: Entry)
    requires SlotsInRange(d)
    ensures Read(d, m, e).Some? <==> AcceptableEntry(d, m, e)
    decreases e, 1
  {
    ReadExactly(d, m, e);
    var f := Resolve(d.fields(m), e.key);
    if f.Some? {
      FieldAccepted(d, m, f.value, e);
    }
  }

  lemma {:induction false} FieldAccepted(d: Descriptor, m: MessageName, f: nat, e: Entry)
    requires SlotsInRange(d) && Resolve(d.fields(m), e.key) == Some(f)
    ensures ParseField(d, m, f, e.value).Ok? <==> AcceptableEntry(d, m, e)
    decreases e, 0
  {
    AcceptableField(d, m, f, e);
    if d.fields(m)[f].repeated {
      VecAccepted(d, d.fields(m)[f].kind, e.value);
    } else {
      OptionAccepted(d, d.fields(m)[f].kind, f, e.value);
    }
  }

  lemma AcceptableField(d: Descriptor, m: MessageName, f: nat, e: Entry)
    requires SlotsInRange(d) && Resolve(d.fields(m), e.key) == Some(f)
    ensures AcceptableEntry(d, m, e) <==>
            var field := d.fields(m)[f];
            if field.repeated then AcceptableVec(d, field.kind, e.value)
            else e.value.Null? || Acceptable(d, field.kind, e.value)
  {
  }

  lemma {:induction false} OptionAccepted(d: Descriptor, kind: Kind, f: nat, j: Json)
    requires SlotsInRange(d)
    ensures ParseOption(d, kind, f, j).Ok? <==> j.Null? || Acceptable(d, kind, j)
    decreases j, 1
  {
    AcceptsExactly(d, kind, j);
  }

  lemma {:induction false} VecAccepted(d: Descriptor, kind: Kind, j: Json)
    requires SlotsInRange(d)
    ensures ParseVec(d, kind, j).Ok? <==> AcceptableVec(d, kind, j)
    decreases j, 1
  {
    if j.Arr? {
      ListAccepted(d, kind, j.items);
    }
  }

  lemma {:induction false} ListAccepted(d: Descriptor, kind: Kind, items: seq<Json>)
    requires SlotsInRange(d)
    ensures ParseList(d, kind, items).Ok? <==> forall k :: 0 <= k < |items| ==> Acceptable(d, kind, items[k])
    decreases items, 0
  {
    if items != [] {
      AcceptsExactly(d, kind, items[0]);
      ListAccepted(d, kind, items[1..]);
      assert forall k :: 1 <= k < |items| ==> items[k] == items[1..][k - 1];
    }
  }

  // ----- one member for each oneof -----

  /** In every object of the document, two non-null entries for one slot are the same entry. */
  ghost predicate OneMember(d: Descriptor, kind: Kind, j: Json)
    decreases j, 0
  {
    kind.Nested? && j.Obj? ==>
      && (forall i, k :: 0 <= i < k < |j.entries| && SameSlot(d, kind.message, j.entries[i], j.entries[k]) ==>
            j.entries[i].value.Null? || j.entries[k].value.Null?)
      && forall i :: 0 <= i < |j.entries| ==> OneMemberIn(d, kind.message, j.entries[i])
  }

  ghost predicate OneMemberIn(d: Descriptor, m: MessageName, e: Entry)
    decreases e, 0
  {
    var f := Resolve(d.fields(m), e.key);
    f.Some? ==>
      if d.fields(m)[f.value].repeated
      then e.value.Arr? ==>
        forall k :: 0 <= k < |e.value.items| ==> OneMember(d, d.fields(m)[f.value].kind, e.value.items[k])
      else OneMember(d, d.fields(m)[f.value].kind, e.value)
  }

  lemma {:induction false} AcceptableOneMember(d: Descriptor, kind: Kind, j: Json)
    requires Acceptable(d, kind, j)
    ensures OneMember(d, kind, j)
    decreases j, 0
  {
    if kind.Nested? {
      forall i | 0 <= i < |j.entries|
        ensures OneMemberIn(d, kind.message, j.entries[i])
      {
        EntryOneMember(d, kind.message, j.entries[i]);
      }
    }
  }

  lemma {:induction false} EntryOneMember(d: Descriptor, m: MessageName, e: Entry)
    requires AcceptableEntry(d, m, e)
    ensures OneMemberIn(d, m, e)
    decreases e, 0
  {
    var field := d.fields(m)[Resolve(d.fields(m), e.key).value];
    if field.repeated {
      forall k | 0 <= k < |e.value.items|
        ensures OneMember(d, field.kind, e.value.items[k])
      {
        AcceptableOneMember(d, field.kind, e.value.items[k]);
      }
    } else if !e.value.Null? {
      AcceptableOneMember(d, field.kind, e.value);
    }
  }

  /** In an accepted document every oneof, at every level, has at most one non-null member. */
  lemma OneMemberEverywhere(d: Descriptor, kind: Kind, j: Json)
    requires SlotsInRange(d) && Parse(d, kind, j).Ok?
    ensures OneMember(d, kind, j)
  {
    AcceptsExactly(d, kind, j);
    AcceptableOneMember(d, kind, j);
  }

  // ----- meaning -----

  function Default(fields: seq<Field>, s: nat): Slot {
    if IsRepeated(fields, s) then Many([]) else Unset
  }

  /** The variant with this number is the one that the document names first, or by its number. */
  predicate Names(vs: seq<Variant>, j: Json, n: int) {
    match j
    case Str(s) => exists i :: 0 <= i < |vs| && vs[i] == Variant(s, n) && forall k :: 0 <= k < i ==> vs[k].name != s
    case Int(k) => k == n && exists v :: v in vs && v.number == n
    case _ => false
  }

  /** A text or a flag as it stands, the number that is denoted, the variant that is named. */
  predicate LeafHolds(d: Descriptor, kind: Kind, j: Json, v: Value) {
    match v
    case TextV(s) => kind.Text? && j == Str(s)
    case FlagV(b) => kind.Flag? && j == Bool(b)
    case IntV(n) => kind in {Number(Int32), Number(UInt32)} && IntegerIn(d.text, j) == Some(n)
    case DoubleV(x) => kind == Number(Float64) && DoubleIn(d.text, j) == Some(x)
    case EnumV(n) => kind.Enumeration? && Names(d.variants(kind.enum), j, n)
    case Tree(_) => false
  }

  /**
   The tree holds what the document says, at every level: in each object at most one non-null entry addresses a slot,
   which holds exactly what that entry says; a slot that no such entry addresses holds its default.
   */
  ghost predicate Holds(d: Descriptor, kind: Kind, j: Json, v: Value)
    decreases j, 0
  {
    if kind.Nested? then
      var m := kind.message;
      && j.Obj? && v.Tree? && |v.slots| == d.slots(m)
      && (forall i, k :: 0 <= i < k < |j.entries| && SameSlot(d, m, j.entries[i], j.entries[k]) ==>
            j.entries[i].value.Null? || j.entries[k].value.Null?)
      && (forall i :: 0 <= i < |j.entries| && !j.entries[i].value.Null? ==> Held(d, m, j.entries[i], v.slots))
      && (forall s :: 0 <= s < |v.slots| ==>
            v.slots[s] == Default(d.fields(m), s) ||
            exists i :: 0 <= i < |j.entries| && Addresses(d, m, j.entries[i], s))
    else LeafHolds(d, kind, j, v)
  }

  /** A non-null entry for slot `s`. */
  ghost predicate Addresses(d: Descriptor, m: MessageName, e: Entry, s: nat) {
    !e.value.Null? && Resolve(d.fields(m), e.key).Some? && At(d, m, e) == s
  }

  /** The slot that the entry addresses holds the member it names, with the value it gives. */
  ghost predicate Held(d: Descriptor, m: MessageName, e: Entry, slots: seq<Slot>)
    decreases e, 0
  {
    var f := Resolve(d.fields(m), e.key);
    && f.Some? && At(d, m, e) < |slots|
    && var field, slot := d.fields(m)[f.value], slots[At(d, m, e)];
       if field.repeated
       then && e.value.Arr? && slot.Many? && |slot.values| == |e.value.items|
            && forall k :: 0 <= k < |slot.values| ==> Holds(d, field.kind, e.value.items[k], slot.values[k])
       else slot.Set? && slot.field == f.value && Holds(d, field.kind, e.value, slot.value)
  }

  /** `FindName` finds the first variant of the name. */
  lemma {:induction false} FindsFirst(vs: seq<Variant>, s: string, n: int)
    ensures FindName(vs, s) == Some(n) <==> Names(vs, Str(s), n)
  {
    if vs != [] && vs[0].name == s {
      assert Names(vs, Str(s), n) <==> vs[0] == Variant(s, n);
    } else if vs != [] {
      FindsFirst(vs[1..], s, n);
      NamesLater(vs, s, n);
    }
  }

  lemma NamesLater(vs: seq<Variant>, s: string, n: int)
    requires vs != [] && vs[0].name != s
    ensures Names(vs, Str(s), n) <==> Names(vs[1..], Str(s), n)
  {
    assert forall i :: 1 <= i < |vs| ==> vs[i] == vs[1..][i - 1];
    if i :| 0 <= i < |vs| && vs[i] == Variant(s, n) && forall k :: 0 <= k < i ==> vs[k].name != s {
      assert vs[1..][i - 1] == Variant(s, n);
    }
  }

  /** A document that is no message reads as exactly what it says. */
  lemma LeafMeans(d: Descriptor, kind: Kind, j: Json, v: Value)
    requires SlotsInRange(d) && !kind.Nested?
    ensures Parse(d, kind, j) == Ok(v) <==> Acceptable(d, kind, j) && LeafHolds(d, kind, j, v)
  {
    if kind.Enumeration? && j.Str? && v.EnumV? {
      FindsFirst(d.variants(kind.enum), j.s, v.n);
    }
  }

  lemma {:induction false} ParsedHolds(d: Descriptor, kind: Kind, j: Json)
    requires SlotsInRange(d) && Parse(d, kind, j).Ok?
    ensures Holds(d, kind, j, Parse(d, kind, j).value)
    decreases j, 0
  {
    if kind.Nested? {
      var m, slots := kind.message, Parse(d, kind, j).value.slots;
      AcceptedExactly(d, m, j);
      forall i | 0 <= i < |j.entries| && !j.entries[i].value.Null?
        ensures Held(d, m, j.entries[i], slots)
      {
        EntryHeld(d, m, j.entries[i], slots);
      }
      forall s | 0 <= s < |slots| && slots[s] != Default(d.fields(m), s)
        ensures exists i :: 0 <= i < |j.entries| && Addresses(d, m, j.entries[i], s)
      {
        var i :| 0 <= i < |j.entries| && !j.entries[i].value.Null? && Read(d, m, j.entries[i]).value.at == s;
        assert Addresses(d, m, j.entries[i], s);
      }
    } else {
      LeafMeans(d, kind, j, Parse(d, kind, j).value);
    }
  }

  lemma {:induction false} EntryHeld(d: Descriptor, m: MessageName, e: Entry, slots: seq<Slot>)
    requires SlotsInRange(d) && !e.value.Null? && Read(d, m, e).Some?
    requires |slots| == d.slots(m) && slots[Read(d, m, e).value.at] == Read(d, m, e).value.slot
    ensures Held(d, m, e, slots)
    decreases e, 0
  {
    var f := Resolve(d.fields(m), e.key).value;
    var field := d.fields(m)[f];
    if field.repeated {
      VecHolds(d, field.kind, e.value);
    } else {
      OptionHolds(d, field.kind, f, e.value);
    }
  }

  lemma {:induction false} OptionHolds(d: Descriptor, kind: Kind, f: nat, j: Json)
    requires SlotsInRange(d) && !j.Null? && ParseOption(d, kind, f, j).Ok?
    ensures var slot := ParseOption(d, kind, f, j).value;
            slot.Set? && slot.field == f && Holds(d, kind, j, slot.value)
    decreases j, 1
  {
    ParsedHolds(d, kind, j);
  }

  lemma {:induction false} VecHolds(d: Descriptor, kind: Kind, j: Json)
    requires SlotsInRange(d) && ParseVec(d, kind, j).Ok?
    ensures var slot := ParseVec(d, kind, j).value;
            && j.Arr? && slot.Many? && |slot.values| == |j.items|
            && forall k :: 0 <= k < |slot.values| ==> Holds(d, kind, j.items[k], slot.values[k])
    decreases j, 1
  {
    ListHolds(d, kind, j.items);
  }

  lemma {:induction false} ListHolds(d: Descriptor, kind: Kind, items: seq<Json>)
    requires SlotsInRange(d) && ParseList(d, kind, items).Ok?
    ensures var vs := ParseList(d, kind, items).value;
            |vs| == |items| && forall k :: 0 <= k < |vs| ==> Holds(d, kind, items[k], vs[k])
    decreases items, 0
  {
    if items != [] {
      ParsedHolds(d, kind, items[0]);
      ListHolds(d, kind, items[1..]);
    }
  }

  /** A document determines the tree that holds what it says. */
  lemma {:induction false} HoldsOnce(d: Descriptor, kind: Kind, j: Json, v: Value, w: Value)
    requires SlotsInRange(d) && Holds(d, kind, j, v) && Holds(d, kind, j, w)
    ensures v == w
    decreases j, 0
  {
    if kind.Nested? {
      var m := kind.message;
      forall s | 0 <= s < |v.slots|
        ensures v.slots[s] == w.slots[s]
      {
        if i :| 0 <= i < |j.entries| && Addresses(d, m, j.entries[i], s) {
          HeldOnce(d, m, j.entries[i], v.slots, w.slots);
        }
      }
    }
  }

  lemma {:induction false} HeldOnce(d: Descriptor, m: MessageName, e: Entry, a: seq<Slot>, b: seq<Slot>)
    requires SlotsInRange(d) && Held(d, m, e, a) && Held(d, m, e, b)
    ensures a[At(d, m, e)] == b[At(d, m, e)]
    decreases e, 0
  {
    var field := d.fields(m)[Resolve(d.fields(m), e.key).value];
    var x, y := a[At(d, m, e)], b[At(d, m, e)];
    if field.repeated {
      forall k | 0 <= k < |x.values|
        ensures x.values[k] == y.values[k]
      {
        HoldsOnce(d, field.kind, e.value.items[k], x.values[k], y.values[k]);
      }
    } else {
      HoldsOnce(d, field.kind, e.value, x.value, y.value);
    }
  }

  // ----- main result -----

  /** The parser gives a tree exactly when the document is acceptable and the tree holds what it says. */
  lemma MeansExactly(d: Descriptor, kind: Kind, j: Json, v: Value)
    requires SlotsInRange(d)
    ensures Parse(d, kind, j) == Ok(v) <==> Acceptable(d, kind, j) && Holds(d, kind, j, v)
  {
    AcceptsExactly(d, kind, j);
    if Parse(d, kind, j).Ok? {
      ParsedHolds(d, kind, j);
      if Holds(d, kind, j, v) {
        HoldsOnce(d, kind, j, v, Parse(d, kind, j).value);
      }
    }
  }
}
