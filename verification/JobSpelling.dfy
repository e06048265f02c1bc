/** Spellings the parser does not tell apart: two names for a key, a name and a number for an enum value. */
module JobSpelling {
  import opened Descriptor
  import opened Json
  import opened JobCodec

  /** The keys are equal, or two spellings of one field. */
  ghost predicate SameKey(fields: seq<Field>, a: string, b: string) {
    a == b || exists f :: 0 <= f < |fields| && Spells(fields[f], a) && Spells(fields[f], b)
  }

  /** One of `a`, `b` is the name and the other the number of an enum value. */
  ghost predicate NameAndNumber(vs: seq<Variant>, a: Json, b: Json) {
    && ((a.Str? && b.Int?) || (a.Int? && b.Str?))
    && (if a.Str? then Variant(a.s, b.n) else Variant(b.s, a.n)) in vs
  }

  /** `b` is `a` respelled, as seen by a reader of `kind`. */
  ghost predicate Respelled(d: Descriptor, kind: Kind, a: Json, b: Json)
    decreases a, 0
  {
    || a == b
    || (kind.Enumeration? && NameAndNumber(d.variants(kind.enum), a, b))
    || (&& kind.Nested? && a.Obj? && b.Obj? && |a.entries| == |b.entries|
        && forall i :: 0 <= i < |a.entries| ==> RespelledEntry(d, kind.message, a.entries[i], b.entries[i]))
  }

  ghost predicate RespelledEntry(d: Descriptor, m: MessageName, a: Entry, b: Entry)
    decreases a, 0
  {
    && SameKey(d.fields(m), a.key, b.key)
    && var f := Resolve(d.fields(m), a.key);
    && (f.Some? ==>
          if d.fields(m)[f.value].repeated
          then RespelledVec(d, d.fields(m)[f.value].kind, a.value, b.value)
          else Respelled(d, d.fields(m)[f.value].kind, a.value, b.value))
  }

  ghost predicate RespelledVec(d: Descriptor, kind: Kind, a: Json, b: Json)
    decreases a, 1
  {
    || a == b
    || (&& a.Arr? && b.Arr? && |a.items| == |b.items|
        && forall k :: 0 <= k < |a.items| ==> Respelled(d, kind, a.items[k], b.items[k]))
  }

  lemma SameKeyResolves(fields: seq<Field>, a: string, b: string)
    requires NamesApart(fields) && SameKey(fields, a, b)
    ensures Resolve(fields, a) == Resolve(fields, b)
  {
    if a != b {
      var f :| 0 <= f < |fields| && Spells(fields[f], a) && Spells(fields[f], b);
      ResolveSpelling(fields, f, a);
      ResolveSpelling(fields, f, b);
    }
  }

  /** Respelling any keys and enum values, at any depth, leaves the outcome unchanged, errors included. */
  lemma {:induction false} RespellingUnseen(d: Descriptor, kind: Kind, a: Json, b: Json)
    requires Valid(d) && Respelled(d, kind, a, b)
    ensures Parse(d, kind, a) == Parse(d, kind, b)
    decreases a, 0
  {
    if a != b {
      if kind.Enumeration? {
        var vs := d.variants(kind.enum);
        VariantInverse(vs, if a.Str? then Variant(a.s, b.n) else Variant(b.s, a.n));
      } else {
        RespelledEntries(d, kind.message, a.entries, b.entries, Blank(d.slots(kind.message)));
      }
    }
  }

  lemma {:induction false} RespelledEntries(d: Descriptor, m: MessageName, a: seq<Entry>, b: seq<Entry>,
                                            state: seq<Slot>)
    requires Valid(d) && |state| == d.slots(m) && |a| == |b|
    requires forall i :: 0 <= i < |a| ==> RespelledEntry(d, m, a[i], b[i])
    ensures VisitEntries(d, m, a, state) == VisitEntries(d, m, b, state)
    decreases a, 3
  {
    if a != [] {
      RespelledFirst(d, m, a[0], b[0], state);
      var next := VisitEntry(d, m, a[0], state);
      if next.Ok? {
        RespelledEntries(d, m, a[1..], b[1..], next.value);
      }
    }
  }

  lemma {:induction false} RespelledFirst(d: Descriptor, m: MessageName, a: Entry, b: Entry, state: seq<Slot>)
    requires Valid(d) && |state| == d.slots(m) && RespelledEntry(d, m, a, b)
    ensures VisitEntry(d, m, a, state) == VisitEntry(d, m, b, state)
    decreases a, 3
  {
    SameKeyResolves(d.fields(m), a.key, b.key);
    if Resolve(d.fields(m), a.key).Some? {
      RespelledField(d, m, a, b);
      SameFieldSameTurn(d, m, a, b, state);
    }
  }

  lemma SameFieldSameTurn(d: Descriptor, m: MessageName, a: Entry, b: Entry, state: seq<Slot>)
    requires SlotsInRange(d) && |state| == d.slots(m)
    requires var f := Resolve(d.fields(m), a.key);
             f.Some? && f == Resolve(d.fields(m), b.key) &&
             ParseField(d, m, f.value, a.value) == ParseField(d, m, f.value, b.value)
    ensures VisitEntry(d, m, a, state) == VisitEntry(d, m, b, state)
  {
  }

  lemma {:induction false} RespelledField(d: Descriptor, m: MessageName, a: Entry, b: Entry)
    requires Valid(d) && RespelledEntry(d, m, a, b) && Resolve(d.fields(m), a.key).Some?
    ensures var f := Resolve(d.fields(m), a.key).value; ParseField(d, m, f, a.value) == ParseField(d, m, f, b.value)
    decreases a, 2
  {
    var f := Resolve(d.fields(m), a.key).value;
    if d.fields(m)[f].repeated {
      RespelledVecUnseen(d, d.fields(m)[f].kind, a.value, b.value);
    } else {
      RespelledOption(d, d.fields(m)[f].kind, f, a.value, b.value);
    }
  }

  lemma {:induction false} RespelledOption(d: Descriptor, kind: Kind, f: nat, a: Json, b: Json)
    requires Valid(d) && Respelled(d, kind, a, b)
    ensures ParseOption(d, kind, f, a) == ParseOption(d, kind, f, b)
    decreases a, 1
  {
    RespellingUnseen(d, kind, a, b);
  }

  lemma {:induction false} RespelledVecUnseen(d: Descriptor, kind: Kind, a: Json, b: Json)
    requires Valid(d) && RespelledVec(d, kind, a, b)
    ensures ParseVec(d, kind, a) == ParseVec(d, kind, b)
    decreases a, 1
  {
    if a != b {
      RespelledList(d, kind, a.items, b.items);
    }
  }

  lemma {:induction false} RespelledList(d: Descriptor, kind: Kind, a: seq<Json>, b: seq<Json>)
    requires Valid(d) && |a| == |b| && forall k :: 0 <= k < |a| ==> Respelled(d, kind, a[k], b[k])
    ensures ParseList(d, kind, a) == ParseList(d, kind, b)
    decreases a, 0
  {
    if a != [] {
      RespellingUnseen(d, kind, a[0], b[0]);
      RespelledList(d, kind, a[1..], b[1..]);
    }
  }
}
