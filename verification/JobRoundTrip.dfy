/** Printing then parsing a tree: what comes back, and when it is the tree itself. */
module JobRoundTrip {
  import opened Wrappers
  import opened Descriptor
  import opened Json
  import opened JobCodec

  // ----- the two conditions a caller can check on the tree -----

  /** Every enum field holds a number its enum defines. */
  predicate EnumsDefined(d: Descriptor, kind: Kind, v: Value)
    requires Typed(d, kind, v)
    decreases v, 0
  {
    match v
    case EnumV(n) => FindNumber(d.variants(kind.enum), n).Some?
    case Tree(slots) => forall i :: 0 <= i < |slots| ==> SlotEnumsDefined(d, kind.message, i, slots[i])
    case _ => true
  }

  predicate SlotEnumsDefined(d: Descriptor, m: MessageName, i: nat, slot: Slot)
    requires SlotTyped(d, m, i, slot)
    decreases slot, 0
  {
    match slot
    case Unset => true
    case Set(f, v) => EnumsDefined(d, d.fields(m)[f].kind, v)
    case Many(vs) => forall k :: 0 <= k < |vs| ==> EnumsDefined(d, RepeatedKind(d.fields(m), i), vs[k])
  }

  predicate Lost(v: Value) {
    v.DoubleV? && !v.x.Finite?
  }

  /** No `f64` of the tree is NaN or infinite. */
  predicate AllFinite(v: Value)
    decreases v, 0
  {
    match v
    case DoubleV(x) => x.Finite?
    case Tree(slots) => forall i :: 0 <= i < |slots| ==> SlotFinite(slots[i])
    case _ => true
  }

  predicate SlotFinite(slot: Slot)
    decreases slot, 0
  {
    match slot
    case Unset => true
    case Set(_, v) => AllFinite(v)
    case Many(vs) => forall k :: 0 <= k < |vs| ==> AllFinite(vs[k])
  }

  /** The tree with every field that holds a NaN or an infinity removed. */
  function Scrub(v: Value): (r: Value)
    decreases v, 0
  {
    match v
    case Tree(slots) => Tree(ScrubSlots(slots))
    case _ => v
  }

  function ScrubSlots(slots: seq<Slot>): (r: seq<Slot>)
    ensures |r| == |slots|
    ensures forall i :: 0 <= i < |r| ==> r[i] == ScrubSlot(slots[i])
    decreases slots, 0
  {
    if slots == [] then [] else [ScrubSlot(slots[0])] + ScrubSlots(slots[1..])
  }

  function ScrubSlot(slot: Slot): Slot
    decreases slot, 0
  {
    match slot
    case Unset => Unset
    case Set(f, v) => if Lost(v) then Unset else Set(f, Scrub(v))
    case Many(vs) => Many(ScrubList(vs))
  }

  function ScrubList(vs: seq<Value>): (r: seq<Value>)
    ensures |r| == |vs|
    ensures forall i :: 0 <= i < |r| ==> r[i] == Scrub(vs[i])
    decreases vs, 0
  {
    if vs == [] then [] else [Scrub(vs[0])] + ScrubList(vs[1..])
  }

  /** What scrubbing leaves is a tree of the same type without NaN or infinity, and only those are touched. */
  lemma {:induction false} ScrubFinite(d: Descriptor, kind: Kind, v: Value)
    requires Valid(d) && Typed(d, kind, v)
    ensures Typed(d, kind, Scrub(v))
    ensures !Lost(v) ==> AllFinite(Scrub(v))
    ensures AllFinite(v) <==> !Lost(v) && Scrub(v) == v
    decreases v, 1
  {
    if v.Tree? {
      var after := ScrubSlots(v.slots);
      forall i | 0 <= i < |v.slots|
        ensures SlotTyped(d, kind.message, i, after[i]) && SlotFinite(after[i])
        ensures SlotFinite(v.slots[i]) <==> after[i] == v.slots[i]
      {
        ScrubSlotFinite(d, kind.message, i, v.slots[i]);
      }
      assert (forall i :: 0 <= i < |v.slots| ==> after[i] == v.slots[i]) <==> after == v.slots;
    }
  }

  lemma {:induction false} ScrubSlotFinite(d: Descriptor, m: MessageName, i: nat, slot: Slot)
    requires Valid(d) && SlotTyped(d, m, i, slot)
    ensures SlotTyped(d, m, i, ScrubSlot(slot))
    ensures SlotFinite(ScrubSlot(slot))
    ensures SlotFinite(slot) <==> ScrubSlot(slot) == slot
    decreases slot, 1
  {
    match slot {
      case Unset =>
      case Set(f, v) =>
        OwnerOfRepeated(d.fields(m), f);
        ScrubFinite(d, d.fields(m)[f].kind, v);
      case Many(vs) =>
        var kind, after := RepeatedKind(d.fields(m), i), ScrubList(vs);
        forall k | 0 <= k < |vs|
          ensures Typed(d, kind, after[k]) && AllFinite(after[k])
          ensures AllFinite(vs[k]) <==> after[k] == vs[k]
        {
          ScrubFinite(d, kind, vs[k]);
        }
        assert (forall k :: 0 <= k < |vs| ==> after[k] == vs[k]) <==> after == vs;
    }
  }

  // ----- printing succeeds exactly when the enums are defined -----

  lemma {:induction false} PrintSucceeds(d: Descriptor, kind: Kind, v: Value)
    requires Typed(d, kind, v)
    ensures Print(d, kind, v).Ok? <==> EnumsDefined(d, kind, v)
    decreases v, 1
  {
    if v.Tree? {
      PrintSlotsSucceeds(d, kind.message, v.slots, 0);
    }
  }

  lemma {:induction false} PrintSlotsSucceeds(d: Descriptor, m: MessageName, slots: seq<Slot>, i: nat)
    requires SlotsTyped(d, m, slots) && i <= |slots|
    ensures PrintSlots(d, m, slots, i).Ok? <==> forall k :: i <= k < |slots| ==> SlotEnumsDefined(d, m, k, slots[k])
    decreases slots, |slots| - i
  {
    if i < |slots| {
      PrintSlotsStep(d, m, slots, i);
      PrintSlotSucceeds(d, m, i, slots[i]);
      PrintSlotsSucceeds(d, m, slots, i + 1);
    }
  }

  lemma {:induction false} PrintSlotSucceeds(d: Descriptor, m: MessageName, i: nat, slot: Slot)
    requires SlotTyped(d, m, i, slot)
    ensures PrintSlot(d, m, i, slot).Ok? <==> SlotEnumsDefined(d, m, i, slot)
    decreases slot, 1
  {
    match slot {
      case Unset =>
      case Set(f, v) => PrintSetSucceeds(d, d.fields(m)[f], v);
      case Many(vs) => PrintManySucceeds(d, d.fields(m)[Owner(d.fields(m), i).value], vs);
    }
  }

  lemma {:induction false} PrintSetSucceeds(d: Descriptor, field: Field, v: Value)
    requires Typed(d, field.kind, v)
    ensures PrintSet(d, field, v).Ok? <==> EnumsDefined(d, field.kind, v)
    decreases v, 2
  {
    PrintSucceeds(d, field.kind, v);
  }

  lemma {:induction false} PrintManySucceeds(d: Descriptor, field: Field, vs: seq<Value>)
    requires forall k :: 0 <= k < |vs| ==> Typed(d, field.kind, vs[k])
    ensures PrintMany(d, field, vs).Ok? <==> forall k :: 0 <= k < |vs| ==> EnumsDefined(d, field.kind, vs[k])
    decreases vs, 1
  {
    PrintListSucceeds(d, field.kind, vs);
  }

  lemma {:induction false} PrintListSucceeds(d: Descriptor, kind: Kind, vs: seq<Value>)
    requires forall k :: 0 <= k < |vs| ==> Typed(d, kind, vs[k])
    ensures PrintList(d, kind, vs).Ok? <==> forall k :: 0 <= k < |vs| ==> EnumsDefined(d, kind, vs[k])
    decreases vs, 0
  {
    if vs != [] {
      PrintSucceeds(d, kind, vs[0]);
      PrintListSucceeds(d, kind, vs[1..]);
      assert forall k :: 1 <= k < |vs| ==> vs[k] == vs[1..][k - 1];
    }
  }

  // ----- parsing what was printed -----

  lemma {:induction false} ReparsePrinted(d: Descriptor, kind: Kind, v: Value)
    requires Valid(d) && Typed(d, kind, v) && !Lost(v) && Print(d, kind, v).Ok?
    ensures Parse(d, kind, Print(d, kind, v).value) == Ok(Scrub(v))
    decreases v, 1
  {
    match kind {
      case Enumeration(e) =>
        VariantInverse(d.variants(e), Variant(FindNumber(d.variants(e), v.n).value, v.n));
      case Nested(m) =>
        ReparseSlots(d, m, v.slots);
        FinishPending(d, m, v.slots);
      case _ =>
    }
  }

  /** The slots as `visit_map` leaves them: an empty list is printed as nothing and so is never seen. */
  function Pending(slots: seq<Slot>): (r: seq<Slot>)
    ensures |r| == |slots|
    ensures forall i :: 0 <= i < |r| ==> r[i] == if slots[i] == Many([]) then Unset else slots[i]
  {
    seq(|slots|, i requires 0 <= i < |slots| => if slots[i] == Many([]) then Unset else slots[i])
  }

  lemma FinishPending(d: Descriptor, m: MessageName, slots: seq<Slot>)
    requires Valid(d) && SlotsTyped(d, m, slots)
    ensures Finish(d.fields(m), Pending(ScrubSlots(slots))) == ScrubSlots(slots)
  {
    var after := ScrubSlots(slots);
    forall i | 0 <= i < |slots|
      ensures Finish(d.fields(m), Pending(after))[i] == after[i]
    {
      ScrubSlotFinite(d, m, i, slots[i]);
    }
  }

  /** Reading `es` puts `slot` at place `i` and does nothing else. */
  ghost predicate Fills(d: Descriptor, m: MessageName, i: nat, es: seq<Entry>, slot: Slot)
    requires SlotsInRange(d)
  {
    if es == [] then slot == Unset else
    && |es| == 1
    && var f := Resolve(d.fields(m), es[0].key);
    && f.Some?
    && d.fields(m)[f.value].slot == i
    && ParseField(d, m, f.value, es[0].value) == Ok(slot)
  }

  lemma VisitFilling(d: Descriptor, m: MessageName, i: nat, es: seq<Entry>, rest: seq<Entry>, state: seq<Slot>,
                     slot: Slot)
    requires SlotsInRange(d) && |state| == d.slots(m) && i < |state| && state[i] == Unset
    requires Fills(d, m, i, es, slot)
    ensures VisitEntries(d, m, es + rest, state) == VisitEntries(d, m, rest, state[i := slot])
  {
    if es == [] {
      assert es + rest == rest && state[i := slot] == state;
    } else {
      assert (es + rest)[1..] == rest;
    }
  }

  lemma FillNext<T>(state: seq<T>, target: seq<T>, i: nat)
    requires i < |state| == |target|
    ensures state[i := target[i]][..i + 1] + target[i + 1..] == state[..i] + target[i..]
  {
  }

  /** If the entries are made of one part for each slot, reading them fills the slots one after another. */
  lemma {:induction false} VisitParts(d: Descriptor, m: MessageName, parts: seq<seq<Entry>>, target: seq<Slot>,
                                      i: nat, state: seq<Slot>)
    requires SlotsInRange(d) && |parts| == |target| == |state| == d.slots(m) && i <= |parts|
    requires forall k :: i <= k < |parts| ==> state[k] == Unset && Fills(d, m, k, parts[k], target[k])
    ensures VisitEntries(d, m, Concat(parts, i), state) == Ok(state[..i] + target[i..])
    decreases |parts| - i
  {
    if i == |parts| {
      assert state[..i] + target[i..] == state;
    } else {
      var state' := state[i := target[i]];
      VisitParts(d, m, parts, target, i + 1, state');
      FillNext(state, target, i);
      VisitFilling(d, m, i, parts[i], Concat(parts, i + 1), state, target[i]);
    }
  }

  function Concat(parts: seq<seq<Entry>>, i: nat): seq<Entry>
    requires i <= |parts|
    decreases |parts| - i
  {
    if i == |parts| then [] else parts[i] + Concat(parts, i + 1)
  }

  /** The printed slots, one part for each. */
  lemma {:induction false} PrintedParts(d: Descriptor, m: MessageName, slots: seq<Slot>, i: nat)
    returns (parts: seq<seq<Entry>>)
    requires SlotsTyped(d, m, slots) && i <= |slots| && PrintSlots(d, m, slots, i).Ok?
    ensures |parts| == |slots| && PrintSlots(d, m, slots, i) == Ok(Concat(parts, i))
    ensures forall k :: i <= k < |slots| ==> PrintSlot(d, m, k, slots[k]) == Ok(parts[k])
    decreases |slots| - i
  {
    if i == |slots| {
      parts := seq(|slots|, _ => []);
    } else {
      PrintSlotsStep(d, m, slots, i);
      var rest := PrintedParts(d, m, slots, i + 1);
      parts := rest[i := PrintSlot(d, m, i, slots[i]).value];
      ConcatLater(rest, parts, i + 1);
    }
  }

  lemma {:induction false} ConcatLater(a: seq<seq<Entry>>, b: seq<seq<Entry>>, i: nat)
    requires |a| == |b| && i <= |a| && forall k :: i <= k < |a| ==> a[k] == b[k]
    ensures Concat(a, i) == Concat(b, i)
    decreases |a| - i
  {
    if i < |a| {
      ConcatLater(a, b, i + 1);
    }
  }

  lemma {:induction false} ReparseSlots(d: Descriptor, m: MessageName, slots: seq<Slot>)
    requires Valid(d) && SlotsTyped(d, m, slots) && PrintSlots(d, m, slots, 0).Ok?
    ensures VisitEntries(d, m, PrintSlots(d, m, slots, 0).value, Blank(d.slots(m))) == Ok(Pending(ScrubSlots(slots)))
    decreases slots, 1
  {
    var parts := PrintedParts(d, m, slots, 0);
    var target := Pending(ScrubSlots(slots));
    forall k | 0 <= k < |slots|
      ensures Fills(d, m, k, parts[k], target[k])
    {
      ReparseSlot(d, m, k, slots[k]);
    }
    var blank := Blank(d.slots(m));
    VisitParts(d, m, parts, target, 0, blank);
    assert blank[..0] + target[0..] == target;
  }

  lemma {:induction false} ReparseSlot(d: Descriptor, m: MessageName, i: nat, slot: Slot)
    requires Valid(d) && SlotTyped(d, m, i, slot) && PrintSlot(d, m, i, slot).Ok?
    ensures var after := ScrubSlot(slot);
            Fills(d, m, i, PrintSlot(d, m, i, slot).value, if after == Many([]) then Unset else after)
    decreases slot, 1
  {
    match slot {
      case Unset =>
      case Set(f, v) => ReparseSet(d, m, f, v);
      case Many(vs) => ReparseMany(d, m, Owner(d.fields(m), i).value, vs);
    }
  }

  lemma {:induction false} ReparseMany(d: Descriptor, m: MessageName, f: nat, vs: seq<Value>)
    requires Valid(d) && f < |d.fields(m)| && d.fields(m)[f].repeated
    requires forall k :: 0 <= k < |vs| ==> Typed(d, d.fields(m)[f].kind, vs[k])
    requires PrintMany(d, d.fields(m)[f], vs).Ok?
    ensures var after := ScrubList(vs);
            Fills(d, m, d.fields(m)[f].slot, PrintMany(d, d.fields(m)[f], vs).value,
                  if after == [] then Unset else Many(after))
    decreases vs, 1
  {
    ResolveSpelling(d.fields(m), f, d.fields(m)[f].camel);
    ReparseList(d, d.fields(m)[f].kind, vs);
  }

  lemma {:induction false} ReparseSet(d: Descriptor, m: MessageName, f: nat, v: Value)
    requires Valid(d) && f < |d.fields(m)| && !d.fields(m)[f].repeated
    requires Typed(d, d.fields(m)[f].kind, v) && Print(d, d.fields(m)[f].kind, v).Ok?
    ensures Fills(d, m, d.fields(m)[f].slot, PrintSet(d, d.fields(m)[f], v).value,
                  if Lost(v) then Unset else Set(f, Scrub(v)))
    decreases v, 3
  {
    ResolveSpelling(d.fields(m), f, d.fields(m)[f].camel);
    ReparseOption(d, d.fields(m)[f].kind, f, v);
  }

  lemma {:induction false} ReparseOption(d: Descriptor, kind: Kind, f: nat, v: Value)
    requires Valid(d) && Typed(d, kind, v) && Print(d, kind, v).Ok?
    ensures ParseOption(d, kind, f, Print(d, kind, v).value) == Ok(if Lost(v) then Unset else Set(f, Scrub(v)))
    decreases v, 2
  {
    if !Lost(v) {
      ReparsePrinted(d, kind, v);
      NotNull(d, kind, v);
    }
  }

  lemma NotNull(d: Descriptor, kind: Kind, v: Value)
    requires Typed(d, kind, v) && !Lost(v) && Print(d, kind, v).Ok?
    ensures !Print(d, kind, v).value.Null?
  {
  }

  lemma {:induction false} ReparseList(d: Descriptor, kind: Kind, vs: seq<Value>)
    requires kind.Text? || kind.Nested?
    requires Valid(d) && forall k :: 0 <= k < |vs| ==> Typed(d, kind, vs[k])
    requires PrintList(d, kind, vs).Ok?
    ensures ParseList(d, kind, PrintList(d, kind, vs).value) == Ok(ScrubList(vs))
    decreases vs, 0
  {
    if vs != [] {
      ReparsePrinted(d, kind, vs[0]);
      ReparseList(d, kind, vs[1..]);
      var j := Print(d, kind, vs[0]).value;
      var rest := PrintList(d, kind, vs[1..]).value;
      assert ([j] + rest)[1..] == rest;
    }
  }

  // ----- main results -----

  /**
   Parsing a printed message gives back the message without its NaN and infinite fields.  So it gives back the
   message itself exactly when all its enum numbers are defined and all its doubles are finite.
   */
  lemma RoundTrip(d: Descriptor, m: MessageName, v: Value)
    requires Valid(d) && Typed(d, Nested(m), v)
    ensures Print(d, Nested(m), v).Ok? <==> EnumsDefined(d, Nested(m), v)
    ensures Print(d, Nested(m), v).Ok? ==> Parse(d, Nested(m), Print(d, Nested(m), v).value) == Ok(Scrub(v))
    ensures (Print(d, Nested(m), v).Ok? && Parse(d, Nested(m), Print(d, Nested(m), v).value) == Ok(v))
       <==> EnumsDefined(d, Nested(m), v) && AllFinite(v)
  {
    PrintSucceeds(d, Nested(m), v);
    ScrubFinite(d, Nested(m), v);
    if Print(d, Nested(m), v).Ok? {
      ReparsePrinted(d, Nested(m), v);
    }
  }
}
