/** JSON documents as a serde visitor sees them: an object is a sequence of entries, keys may repeat. */
module Json {
  datatype Json =
    | Null
    | Bool(b: bool)
    | Int(n: int)
    | Float(x: real)
    | Str(s: string)
    | Arr(items: seq<Json>)
    | Obj(entries: seq<Entry>)

  datatype Entry = Entry(key: string, value: Json)
}

/**
 The JSON printer and parser generated for the job messages.  `Print` and `Parse` say what the codec computes;
 `Serialize` and `Deserialize` compute it as the generated code does, counting and pushing fields, and looping
 over the entries of an object while filling the slots.
 */
module JobCodec {
  import opened Wrappers
  import opened Descriptor
  import opened Json

  /** A message value.  A tree holds one `Slot` for each field or oneof of its message. */
  datatype Value =
    | TextV(s: string)
    | FlagV(b: bool)
    | IntV(n: int)
    | DoubleV(x: Double)
    | EnumV(n: int)
    | Tree(slots: seq<Slot>)

  /** `Unset` is an absent `Option`, `Set` an `Option` or oneof holding the value of one field, `Many` a `Vec`. */
  datatype Slot = Unset | Set(field: nat, value: Value) | Many(values: seq<Value>)

  datatype PrintError = InvalidVariant(number: int)

  datatype ParseError =
    | UnknownField(key: string)
    | DuplicateField(name: string)
    | UnknownVariant(name: string)
    | InvalidValue
    | InvalidType

  // ----- the Rust type of a value -----

  predicate InRange(w: NumberType, n: int) {
    match w
    case Int32 => -0x8000_0000 <= n < 0x8000_0000
    case UInt32 => 0 <= n < 0x1_0000_0000
    case Float64 => false
  }

  predicate Typed(d: Descriptor, kind: Kind, v: Value)
    decreases v
  {
    match kind
    case Text => v.TextV?
    case Flag => v.FlagV?
    case Number(w) => if w.Float64? then v.DoubleV? else v.IntV? && InRange(w, v.n)
    case Enumeration(e) => v.EnumV? && InRange(Int32, v.n)
    case Nested(m) =>
      && v.Tree?
      && |v.slots| == d.slots(m)
      && forall i :: 0 <= i < |v.slots| ==> SlotTyped(d, m, i, v.slots[i])
  }

  predicate SlotTyped(d: Descriptor, m: MessageName, i: nat, slot: Slot)
    decreases slot
  {
    var fields := d.fields(m);
    match slot
    case Unset => !IsRepeated(fields, i)
    case Set(f, v) =>
      f < |fields| && fields[f].slot == i && !fields[f].repeated && Typed(d, fields[f].kind, v)
    case Many(vs) =>
      IsRepeated(fields, i) && forall k :: 0 <= k < |vs| ==> Typed(d, RepeatedKind(fields, i), vs[k])
  }

  predicate SlotsTyped(d: Descriptor, m: MessageName, slots: seq<Slot>) {
    |slots| == d.slots(m) && forall i :: 0 <= i < |slots| ==> SlotTyped(d, m, i, slots[i])
  }

  function RepeatedKind(fields: seq<Field>, i: nat): Kind
    requires IsRepeated(fields, i)
  {
    fields[Owner(fields, i).value].kind
  }

  // ----- printing -----

  function Print(d: Descriptor, kind: Kind, v: Value): Result<Json, PrintError>
    requires Typed(d, kind, v)
    decreases v, 0
  {
    match v
    case TextV(s) => Ok(Str(s))
    case FlagV(b) => Ok(Bool(b))
    case IntV(n) => Ok(Int(n))
    case DoubleV(x) => Ok(if x.Finite? then Float(x.x) else Null)
    case EnumV(n) =>
      (match FindNumber(d.variants(kind.enum), n)
       case Some(name) => Ok(Str(name))
       case None => Err(InvalidVariant(n)))
    case Tree(slots) =>
      var entries :- PrintSlots(d, kind.message, slots, 0);
      Ok(Obj(entries))
  }

  function PrintSlots(d: Descriptor, m: MessageName, slots: seq<Slot>, i: nat): Result<seq<Entry>, PrintError>
    requires SlotsTyped(d, m, slots) && i <= |slots|
    decreases slots, |slots| - i
  {
    if i == |slots| then Ok([]) else
    var here :- PrintSlot(d, m, i, slots[i]);
    var rest :- PrintSlots(d, m, slots, i + 1);
    Ok(here + rest)
  }

  function PrintSlot(d: Descriptor, m: MessageName, i: nat, slot: Slot): Result<seq<Entry>, PrintError>
    requires SlotTyped(d, m, i, slot)
    decreases slot, 0
  {
    var fields := d.fields(m);
    match slot
    case Unset => Ok([])
    case Set(f, v) => PrintSet(d, fields[f], v)
    case Many(vs) => PrintMany(d, fields[Owner(fields, i).value], vs)
  }

  function PrintSet(d: Descriptor, field: Field, v: Value): Result<seq<Entry>, PrintError>
    requires Typed(d, field.kind, v)
    decreases v, 1
  {
    var j :- Print(d, field.kind, v);
    Ok([Entry(field.camel, j)])
  }

  function PrintMany(d: Descriptor, field: Field, vs: seq<Value>): Result<seq<Entry>, PrintError>
    requires forall k :: 0 <= k < |vs| ==> Typed(d, field.kind, vs[k])
    decreases vs, 1
  {
    if vs == [] then Ok([]) else
    var items :- PrintList(d, field.kind, vs);
    Ok([Entry(field.camel, Arr(items))])
  }

  function PrintList(d: Descriptor, kind: Kind, vs: seq<Value>): (r: Result<seq<Json>, PrintError>)
    requires forall k :: 0 <= k < |vs| ==> Typed(d, kind, vs[k])
    decreases vs, 0
  {
    if vs == [] then Ok([]) else
    var j :- Print(d, kind, vs[0]);
    var rest :- PrintList(d, kind, vs[1..]);
    Ok([j] + rest)
  }

  // ----- parsing -----

  function Parse(d: Descriptor, kind: Kind, j: Json): Result<Value, ParseError>
    requires SlotsInRange(d)
    decreases j, 0
  {
    match kind
    case Text => if j.Str? then Ok(TextV(j.s)) else Err(InvalidType)
    case Flag => if j.Bool? then Ok(FlagV(j.b)) else Err(InvalidType)
    case Number(w) => ParseNumber(d.text, w, j)
    case Enumeration(e) => ParseEnum(d.variants(e), j)
    case Nested(m) =>
      if !j.Obj? then Err(InvalidType) else
      var state :- VisitEntries(d, m, j.entries, Blank(d.slots(m)));
      Ok(Tree(Finish(d.fields(m), state)))
  }

  /** pbjson's `NumberDeserialize`: a JSON number of the type, or the text of one. */
  function ParseNumber(text: NumberText, w: NumberType, j: Json): Result<Value, ParseError> {
    match w
    case Float64 =>
      (match j
       case Int(n) => Ok(DoubleV(Finite(n as real)))
       case Float(x) => Ok(DoubleV(Finite(x)))
       case Str(s) => (match text.asDouble(s) case Some(x) => Ok(DoubleV(x)) case None => Err(InvalidValue))
       case _ => Err(InvalidType))
    case _ =>
      match j
      case Int(n) => if InRange(w, n) then Ok(IntV(n)) else Err(InvalidType)
      case Str(s) =>
        (match text.asInt(s)
         case Some(n) => if InRange(w, n) then Ok(IntV(n)) else Err(InvalidValue)
         case None => Err(InvalidValue))
      case _ => Err(InvalidType)
  }

  /** `visit_str`, `visit_i64` and `visit_u64` of an enum. */
  function ParseEnum(vs: seq<Variant>, j: Json): Result<Value, ParseError> {
    match j
    case Str(s) => (match FindName(vs, s) case Some(n) => Ok(EnumV(n)) case None => Err(UnknownVariant(s)))
    case Int(n) => if InRange(Int32, n) && FindNumber(vs, n).Some? then Ok(EnumV(n)) else Err(InvalidValue)
    case _ => Err(InvalidType)
  }

  function Blank(n: nat): (r: seq<Slot>)
    ensures |r| == n && forall i :: 0 <= i < n ==> r[i] == Unset
  {
    seq(n, _ => Unset)
  }

  /** `visit_map`: the entries one after another. */
  function VisitEntries(d: Descriptor, m: MessageName, entries: seq<Entry>, state: seq<Slot>)
    : (r: Result<seq<Slot>, ParseError>)
    requires SlotsInRange(d) && |state| == d.slots(m)
    ensures r.Ok? ==> |r.value| == |state|
    decreases entries, 3
  {
    if entries == [] then Ok(state) else
    var next :- VisitEntry(d, m, entries[0], state);
    VisitEntries(d, m, entries[1..], next)
  }

  /** One turn of its loop: resolve the key, refuse a slot already filled, then read the value. */
  function VisitEntry(d: Descriptor, m: MessageName, e: Entry, state: seq<Slot>): (r: Result<seq<Slot>, ParseError>)
    requires SlotsInRange(d) && |state| == d.slots(m)
    ensures r.Ok? ==> |r.value| == |state|
    decreases e, 3
  {
    match Resolve(d.fields(m), e.key)
    case None => Err(UnknownField(e.key))
    case Some(f) =>
      var field := d.fields(m)[f];
      if !state[field.slot].Unset? then Err(DuplicateField(field.camel)) else
      var slot :- ParseField(d, m, f, e.value);
      Ok(state[field.slot := slot])
  }

  /** `next_value` for field `f`, whose type decides between an `Option` and a `Vec`. */
  function ParseField(d: Descriptor, m: MessageName, f: nat, j: Json): Result<Slot, ParseError>
    requires SlotsInRange(d) && f < |d.fields(m)|
    decreases j, 2
  {
    var field := d.fields(m)[f];
    if field.repeated then ParseVec(d, field.kind, j) else ParseOption(d, field.kind, f, j)
  }

  /** A null leaves an optional field unset. */
  function ParseOption(d: Descriptor, kind: Kind, f: nat, j: Json): Result<Slot, ParseError>
    requires SlotsInRange(d)
    decreases j, 1
  {
    if j.Null? then Ok(Unset) else
    var v :- Parse(d, kind, j);
    Ok(Set(f, v))
  }

  /** A null is no list. */
  function ParseVec(d: Descriptor, kind: Kind, j: Json): Result<Slot, ParseError>
    requires SlotsInRange(d)
    decreases j, 1
  {
    if !j.Arr? then Err(InvalidType) else
    var vs :- ParseList(d, kind, j.items);
    Ok(Many(vs))
  }

  function ParseList(d: Descriptor, kind: Kind, items: seq<Json>): (r: Result<seq<Value>, ParseError>)
    requires SlotsInRange(d)
    decreases items, 0
  {
    if items == [] then Ok([]) else
    var v :- Parse(d, kind, items[0]);
    var rest :- ParseList(d, kind, items[1..]);
    Ok([v] + rest)
  }

  /** `unwrap_or_default` on the slots of repeated fields. */
  function Finish(fields: seq<Field>, state: seq<Slot>): (r: seq<Slot>)
    ensures |r| == |state|
    ensures forall i :: 0 <= i < |r| ==> r[i] == if state[i].Unset? && IsRepeated(fields, i) then Many([]) else state[i]
  {
    seq(|state|, i requires 0 <= i < |state| =>
      if state[i].Unset? && IsRepeated(fields, i) then Many([]) else state[i])
  }

  // ----- the generated loops -----

  /** What remains to be computed, after `done` has been pushed. */
  function After<T, E>(done: seq<T>, rest: Result<seq<T>, E>): (r: Result<seq<T>, E>)
    ensures done == [] ==> r == rest
  {
    match rest
    case Ok(more) => assert [] + more == more; Ok(done + more)
    case Err(_) => rest
  }

  lemma AfterPush<T, E>(done: seq<T>, x: seq<T>, rest: Result<seq<T>, E>)
    ensures After(done, After(x, rest)) == After(done + x, rest)
  {
    if rest.Ok? {
      assert done + (x + rest.value) == done + x + rest.value;
    }
  }

  /** `Serialize::serialize`: the declared field count is exactly the number of fields written. */
  method Serialize(d: Descriptor, kind: Kind, v: Value) returns (r: Result<Json, PrintError>)
    requires Typed(d, kind, v)
    ensures r == Print(d, kind, v)
    decreases v, 1
  {
    match v {
      case Tree(slots) =>
        var len, fields := SerializeStruct(d, kind.message, slots);
        if fields.Err? { return Err(fields.error); }
        return Ok(Obj(fields.value));
      case _ =>
        return Print(d, kind, v);
    }
  }

  method SerializeStruct(d: Descriptor, m: MessageName, slots: seq<Slot>)
    returns (len: nat, r: Result<seq<Entry>, PrintError>)
    requires SlotsTyped(d, m, slots)
    ensures r == PrintSlots(d, m, slots, 0)
    ensures r.Ok? ==> |r.value| == len
    decreases slots, 2
  {
    len := CountFields(slots);
    r := SerializeFields(d, m, slots);
  }

  method CountFields(slots: seq<Slot>) returns (len: nat)
    ensures len == Occupied(slots, 0)
  {
    len := 0;
    for i := 0 to |slots|
      invariant len == Occupied(slots, 0) - Occupied(slots, i)
    {
      if IsOccupied(slots[i]) {
        len := len + 1;
      }
    }
  }

  method SerializeFields(d: Descriptor, m: MessageName, slots: seq<Slot>) returns (r: Result<seq<Entry>, PrintError>)
    requires SlotsTyped(d, m, slots)
    ensures r == PrintSlots(d, m, slots, 0)
    ensures r.Ok? ==> |r.value| == Occupied(slots, 0)
    decreases slots, 1
  {
    var out: seq<Entry> := [];
    for i := 0 to |slots|
      invariant |out| == Occupied(slots, 0) - Occupied(slots, i)
      invariant PrintSlots(d, m, slots, 0) == After(out, PrintSlots(d, m, slots, i))
    {
      PrintSlotsStep(d, m, slots, i);
      var field := SerializeField(d, m, i, slots[i]);
      if field.Err? { return Err(field.error); }
      AfterPush(out, field.value, PrintSlots(d, m, slots, i + 1));
      out := out + field.value;
    }
    assert out + [] == out;
    r := Ok(out);
  }

  lemma PrintSlotsStep(d: Descriptor, m: MessageName, slots: seq<Slot>, i: nat)
    requires SlotsTyped(d, m, slots) && i < |slots|
    ensures PrintSlots(d, m, slots, i) ==
            match PrintSlot(d, m, i, slots[i])
            case Ok(here) => After(here, PrintSlots(d, m, slots, i + 1))
            case Err(e) => Err(e)
  {
  }

  method SerializeField(d: Descriptor, m: MessageName, i: nat, slot: Slot) returns (r: Result<seq<Entry>, PrintError>)
    requires SlotTyped(d, m, i, slot)
    ensures r == PrintSlot(d, m, i, slot)
    ensures r.Ok? ==> |r.value| == if IsOccupied(slot) then 1 else 0
    decreases slot, 1
  {
    var fields := d.fields(m);
    match slot {
      case Unset =>
        return Ok([]);
      case Set(f, v) =>
        var j := Serialize(d, fields[f].kind, v);
        if j.Err? { return Err(j.error); }
        return Ok([Entry(fields[f].camel, j.value)]);
      case Many(vs) =>
        if vs == [] { return Ok([]); }
        var items := SerializeList(d, RepeatedKind(fields, i), vs);
        if items.Err? { return Err(items.error); }
        return Ok([Entry(fields[Owner(fields, i).value].camel, Arr(items.value))]);
    }
  }

  method SerializeList(d: Descriptor, kind: Kind, vs: seq<Value>) returns (r: Result<seq<Json>, PrintError>)
    requires forall k :: 0 <= k < |vs| ==> Typed(d, kind, vs[k])
    ensures r == PrintList(d, kind, vs)
    decreases vs, 1
  {
    var out: seq<Json> := [];
    assert vs[0..] == vs;
    for i := 0 to |vs|
      invariant PrintList(d, kind, vs) == After(out, PrintList(d, kind, vs[i..]))
    {
      assert vs[i..][0] == vs[i] && vs[i..][1..] == vs[i + 1..];
      var j := Serialize(d, kind, vs[i]);
      if j.Err? { return Err(j.error); }
      AfterPush(out, [j.value], PrintList(d, kind, vs[i + 1..]));
      out := out + [j.value];
    }
    assert out + [] == out;
    r := Ok(out);
  }

  predicate IsOccupied(slot: Slot) {
    slot.Set? || (slot.Many? && slot.values != [])
  }

  /** The number of slots from `i` on that are written. */
  function Occupied(slots: seq<Slot>, i: nat): nat
    requires i <= |slots|
    decreases |slots| - i
  {
    if i == |slots| then 0 else Occupied(slots, i + 1) + if IsOccupied(slots[i]) then 1 else 0
  }

  /** `Deserialize::deserialize`. */
  method Deserialize(d: Descriptor, kind: Kind, j: Json) returns (r: Result<Value, ParseError>)
    requires SlotsInRange(d)
    ensures r == Parse(d, kind, j)
    decreases j, 0
  {
    match kind {
      case Nested(m) =>
        if !j.Obj? { return Err(InvalidType); }
        var state := VisitMap(d, m, j.entries);
        if state.Err? { return Err(state.error); }
        return Ok(Tree(Finish(d.fields(m), state.value)));
      case _ =>
        return Parse(d, kind, j);
    }
  }

  /** `Visitor::visit_map`: one pass over the entries, filling the slots. */
  method VisitMap(d: Descriptor, m: MessageName, entries: seq<Entry>) returns (r: Result<seq<Slot>, ParseError>)
    requires SlotsInRange(d)
    ensures r == VisitEntries(d, m, entries, Blank(d.slots(m)))
    decreases entries, 3
  {
    var fields := d.fields(m);
    var slots := Blank(d.slots(m));
    for i := 0 to |entries|
      invariant |slots| == d.slots(m)
      invariant VisitEntries(d, m, entries, Blank(d.slots(m))) == VisitEntries(d, m, entries[i..], slots)
    {
      assert entries[i..][0] == entries[i] && entries[i..][1..] == entries[i + 1..];
      var f := Resolve(fields, entries[i].key);
      if f.None? { return Err(UnknownField(entries[i].key)); }
      var field := fields[f.value];
      if !slots[field.slot].Unset? { return Err(DuplicateField(field.camel)); }
      var value := NextValue(d, m, f.value, entries[i].value);
      if value.Err? { return Err(value.error); }
      slots := slots[field.slot := value.value];
    }
    r := Ok(slots);
  }

  method NextValue(d: Descriptor, m: MessageName, f: nat, j: Json) returns (r: Result<Slot, ParseError>)
    requires SlotsInRange(d) && f < |d.fields(m)|
    ensures r == ParseField(d, m, f, j)
    decreases j, 2
  {
    var field := d.fields(m)[f];
    if field.repeated {
      r := NextVec(d, field.kind, j);
    } else {
      r := NextOption(d, field.kind, f, j);
    }
  }

  method NextOption(d: Descriptor, kind: Kind, f: nat, j: Json) returns (r: Result<Slot, ParseError>)
    requires SlotsInRange(d)
    ensures r == ParseOption(d, kind, f, j)
    decreases j, 1
  {
    if j.Null? { return Ok(Unset); }
    var v := Deserialize(d, kind, j);
    if v.Err? { return Err(v.error); }
    return Ok(Set(f, v.value));
  }

  method NextVec(d: Descriptor, kind: Kind, j: Json) returns (r: Result<Slot, ParseError>)
    requires SlotsInRange(d)
    ensures r == ParseVec(d, kind, j)
    decreases j, 1
  {
    if !j.Arr? { return Err(InvalidType); }
    var values := DeserializeList(d, kind, j.items);
    if values.Err? { return Err(values.error); }
    return Ok(Many(values.value));
  }

  method DeserializeList(d: Descriptor, kind: Kind, items: seq<Json>) returns (r: Result<seq<Value>, ParseError>)
    requires SlotsInRange(d)
    ensures r == ParseList(d, kind, items)
    decreases items, 0
  {
    var values: seq<Value> := [];
    assert items[0..] == items;
    for i := 0 to |items|
      invariant ParseList(d, kind, items) == After(values, ParseList(d, kind, items[i..]))
    {
      assert items[i..][0] == items[i] && items[i..][1..] == items[i + 1..];
      var v := Deserialize(d, kind, items[i]);
      if v.Err? { return Err(v.error); }
      AfterPush(values, [v.value], ParseList(d, kind, items[i + 1..]));
      values := values + [v.value];
    }
    assert values + [] == values;
    r := Ok(values);
  }
}
