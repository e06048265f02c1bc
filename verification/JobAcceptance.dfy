/** Which objects `visit_map` accepts, and what it leaves in each slot, said without its loop. */
module JobAcceptance {
  import opened Wrappers
  import opened Descriptor
  import opened Json
  import opened JobCodec

  /** What one entry means for a message: the slot it addresses and what it puts there. */
  datatype Reading = Reading(at: nat, slot: Slot)

  /** `None` when the key is unknown or the value does not fit the field. */
  function Read(d: Descriptor, m: MessageName, e: Entry): (r: Option<Reading>)
    requires SlotsInRange(d)
    ensures r.Some? ==> r.value.at < d.slots(m)
  {
    match Resolve(d.fields(m), e.key)
    case None => None
    case Some(f) =>
      match ParseField(d, m, f, e.value)
      case Ok(slot) => Some(Reading(d.fields(m)[f].slot, slot))
      case Err(_) => None
  }

  /** The slot an entry addresses. */
  function At(d: Descriptor, m: MessageName, e: Entry): nat {
    var f := Resolve(d.fields(m), e.key);
    if f.Some? then d.fields(m)[f.value].slot else 0
  }

  function ReadAll(d: Descriptor, m: MessageName, entries: seq<Entry>): (rs: seq<Option<Reading>>)
    requires SlotsInRange(d)
    ensures |rs| == |entries| && forall i :: 0 <= i < |rs| ==> rs[i] == Read(d, m, entries[i])
  {
    seq(|entries|, i requires 0 <= i < |entries| => Read(d, m, entries[i]))
  }

  /** Every entry reads, and of two entries for one slot the earlier is a null. */
  ghost predicate Accepts(rs: seq<Option<Reading>>) {
    && (forall i :: 0 <= i < |rs| ==> rs[i].Some?)
    && (forall i, k :: 0 <= i < k < |rs| && rs[i].value.at == rs[k].value.at ==> rs[i].value.slot == Unset)
  }

  /** Nothing in `rs` sets slot `s`. */
  ghost predicate Untouched(rs: seq<Option<Reading>>, s: nat)
    requires forall i :: 0 <= i < |rs| ==> rs[i].Some?
  {
    forall i :: 0 <= i < |rs| && rs[i].value.at == s ==> rs[i].value.slot == Unset
  }

  /** `after` holds what the entries set, and is `before` everywhere else. */
  ghost predicate Leaves(rs: seq<Option<Reading>>, before: seq<Slot>, after: seq<Slot>)
    requires forall i :: 0 <= i < |rs| ==> rs[i].Some? && rs[i].value.at < |before|
  {
    && |after| == |before|
    && (forall i :: 0 <= i < |rs| && rs[i].value.slot != Unset ==> after[rs[i].value.at] == rs[i].value.slot)
    && (forall s :: 0 <= s < |after| && Untouched(rs, s) ==> after[s] == before[s])
  }

  ghost predicate Free(rs: seq<Option<Reading>>, state: seq<Slot>) {
    forall i :: 0 <= i < |rs| && rs[i].Some? && rs[i].value.at < |state| ==> state[rs[i].value.at] == Unset
  }

  lemma {:induction false} VisitMeaning(d: Descriptor, m: MessageName, entries: seq<Entry>, state: seq<Slot>)
    requires SlotsInRange(d) && |state| == d.slots(m)
    ensures var rs := ReadAll(d, m, entries);
            VisitEntries(d, m, entries, state).Ok? <==> Accepts(rs) && Free(rs, state)
    ensures var r := VisitEntries(d, m, entries, state);
            r.Ok? ==> Leaves(ReadAll(d, m, entries), state, r.value)
    decreases |entries|
  {
    var rs := ReadAll(d, m, entries);
    if entries != [] {
      VisitFirst(d, m, entries, state);
      if rs[0].Some? && state[rs[0].value.at] == Unset {
        var state' := state[rs[0].value.at := rs[0].value.slot];
        VisitMeaning(d, m, entries[1..], state');
        assert rs[1..] == ReadAll(d, m, entries[1..]);
        StepMeaning(rs, state);
        if VisitEntries(d, m, entries, state).Ok? {
          LeavesStep(rs, state, VisitEntries(d, m, entries, state).value);
        }
      }
    }
  }

  lemma VisitFirst(d: Descriptor, m: MessageName, entries: seq<Entry>, state: seq<Slot>)
    requires SlotsInRange(d) && |state| == d.slots(m) && entries != []
    ensures var first := Read(d, m, entries[0]);
            if first.Some? && state[first.value.at] == Unset
            then VisitEntries(d, m, entries, state)
              == VisitEntries(d, m, entries[1..], state[first.value.at := first.value.slot])
            else VisitEntries(d, m, entries, state).Err?
  {
  }

  lemma StepMeaning(rs: seq<Option<Reading>>, state: seq<Slot>)
    requires rs != [] && rs[0].Some? && rs[0].value.at < |state| && state[rs[0].value.at] == Unset
    requires forall i :: 0 <= i < |rs| && rs[i].Some? ==> rs[i].value.at < |state|
    ensures var state' := state[rs[0].value.at := rs[0].value.slot];
            Accepts(rs) && Free(rs, state) <==> Accepts(rs[1..]) && Free(rs[1..], state')
  {
    var state' := state[rs[0].value.at := rs[0].value.slot];
    assert forall i :: 1 <= i < |rs| ==> rs[i] == rs[1..][i - 1];
  }

  lemma LeavesStep(rs: seq<Option<Reading>>, state: seq<Slot>, after: seq<Slot>)
    requires rs != [] && Accepts(rs) && Free(rs, state)
    requires forall i :: 0 <= i < |rs| ==> rs[i].value.at < |state|
    requires Leaves(rs[1..], state[rs[0].value.at := rs[0].value.slot], after)
    ensures Leaves(rs, state, after)
  {
    assert forall i :: 1 <= i < |rs| ==> rs[i] == rs[1..][i - 1];
    if rs[0].value.slot != Unset {
      assert Untouched(rs[1..], rs[0].value.at);
    }
    forall s | 0 <= s < |after| && Untouched(rs, s)
      ensures after[s] == state[s]
    {
      assert Untouched(rs[1..], s);
    }
  }

  lemma VisitBlank(d: Descriptor, m: MessageName, entries: seq<Entry>) returns (r: Result<seq<Slot>, ParseError>)
    requires SlotsInRange(d)
    ensures r == VisitEntries(d, m, entries, Blank(d.slots(m)))
    ensures r.Ok? <==> Accepts(ReadAll(d, m, entries))
    ensures r.Ok? ==> Leaves(ReadAll(d, m, entries), Blank(d.slots(m)), r.value)
  {
    r := VisitEntries(d, m, entries, Blank(d.slots(m)));
    VisitMeaning(d, m, entries, Blank(d.slots(m)));
  }

  lemma ReadNull(d: Descriptor, m: MessageName, e: Entry)
    requires SlotsInRange(d)
    ensures Read(d, m, e).Some? ==> (Read(d, m, e).value.slot == Unset <==> e.value.Null?)
  {
    var f := Resolve(d.fields(m), e.key);
    if f.Some? {
      FieldNull(d, m, f.value, e.value);
    }
  }

  lemma FieldNull(d: Descriptor, m: MessageName, f: nat, j: Json)
    requires SlotsInRange(d) && f < |d.fields(m)|
    ensures Absent(ParseField(d, m, f, j)) ==> j.Null?
    ensures j.Null? && ParseField(d, m, f, j).Ok? ==> Absent(ParseField(d, m, f, j))
  {
    OptionNull(d, d.fields(m)[f].kind, f, j);
    VecNull(d, d.fields(m)[f].kind, j);
  }

  predicate Absent(r: Result<Slot, ParseError>) {
    r.Ok? && r.value == Unset
  }

  lemma OptionNull(d: Descriptor, kind: Kind, f: nat, j: Json)
    requires SlotsInRange(d)
    ensures Absent(ParseOption(d, kind, f, j)) <==> j.Null?
  {
  }

  lemma VecNull(d: Descriptor, kind: Kind, j: Json)
    requires SlotsInRange(d)
    ensures !Absent(ParseVec(d, kind, j)) && (j.Null? ==> ParseVec(d, kind, j).Err?)
  {
  }

  ghost predicate SameSlot(d: Descriptor, m: MessageName, a: Entry, b: Entry) {
    var f, g := Resolve(d.fields(m), a.key), Resolve(d.fields(m), b.key);
    f.Some? && g.Some? && d.fields(m)[f.value].slot == d.fields(m)[g.value].slot
  }

  lemma SameSlotRead(d: Descriptor, m: MessageName, a: Entry, b: Entry)
    requires SlotsInRange(d) && Read(d, m, a).Some? && Read(d, m, b).Some?
    ensures SameSlot(d, m, a, b) <==> Read(d, m, a).value.at == Read(d, m, b).value.at
  {
  }

  lemma AcceptsMeans(d: Descriptor, m: MessageName, es: seq<Entry>)
    requires SlotsInRange(d)
    ensures Accepts(ReadAll(d, m, es)) <==>
      && (forall i :: 0 <= i < |es| ==> Read(d, m, es[i]).Some?)
      && (forall i, k :: 0 <= i < k < |es| && SameSlot(d, m, es[i], es[k]) ==> es[i].value.Null?)
  {
    var rs := ReadAll(d, m, es);
    if forall i :: 0 <= i < |es| ==> rs[i].Some? {
      forall i, k | 0 <= i < k < |es|
        ensures SameSlot(d, m, es[i], es[k]) <==> rs[i].value.at == rs[k].value.at
        ensures rs[i].value.slot == Unset <==> es[i].value.Null?
      {
        ReadNull(d, m, es[i]);
        SameSlotRead(d, m, es[i], es[k]);
      }
    }
  }

  /**
   A message is accepted exactly when it is an object whose entries all read and where, of two entries for one
   slot, the earlier is null.  Each slot then holds what its one non-null entry says, or its default.
   */
  lemma AcceptedExactly(d: Descriptor, m: MessageName, j: Json)
    requires SlotsInRange(d)
    ensures Parse(d, Nested(m), j).Ok? <==>
      && j.Obj?
      && (forall i :: 0 <= i < |j.entries| ==> Read(d, m, j.entries[i]).Some?)
      && (forall i, k :: 0 <= i < k < |j.entries| && SameSlot(d, m, j.entries[i], j.entries[k]) ==>
            j.entries[i].value.Null?)
    ensures Parse(d, Nested(m), j).Ok? ==>
      var v := Parse(d, Nested(m), j).value;
      && v.Tree? && |v.slots| == d.slots(m)
      && (forall i :: 0 <= i < |j.entries| && !j.entries[i].value.Null? ==>
            var r := Read(d, m, j.entries[i]).value; v.slots[r.at] == r.slot)
      && (forall s :: 0 <= s < |v.slots| && v.slots[s] != (if IsRepeated(d.fields(m), s) then Many([]) else Unset) ==>
            exists i :: 0 <= i < |j.entries| && !j.entries[i].value.Null? && Read(d, m, j.entries[i]).value.at == s)
  {
    if j.Obj? {
      AcceptsMeans(d, m, j.entries);
      var r := VisitBlank(d, m, j.entries);
    }
    if Parse(d, Nested(m), j).Ok? {
      AcceptedSlots(d, m, j);
    }
  }

  lemma AcceptedSlots(d: Descriptor, m: MessageName, j: Json)
    requires SlotsInRange(d) && Parse(d, Nested(m), j).Ok?
    ensures j.Obj? && var v := Parse(d, Nested(m), j).value;
      && v.Tree? && |v.slots| == d.slots(m)
      && (forall i :: 0 <= i < |j.entries| ==> Read(d, m, j.entries[i]).Some?)
      && (forall i :: 0 <= i < |j.entries| && !j.entries[i].value.Null? ==>
            var r := Read(d, m, j.entries[i]).value; v.slots[r.at] == r.slot)
      && (forall s :: 0 <= s < |v.slots| && v.slots[s] != (if IsRepeated(d.fields(m), s) then Many([]) else Unset) ==>
            exists i :: 0 <= i < |j.entries| && !j.entries[i].value.Null? && Read(d, m, j.entries[i]).value.at == s)
  {
    var r := VisitBlank(d, m, j.entries);
    SlotsLeft(d, m, j.entries);
    forall i | 0 <= i < |j.entries|
      ensures Read(d, m, j.entries[i]).Some?
      ensures !j.entries[i].value.Null? ==> Read(d, m, j.entries[i]).value.slot != Unset
    {
      assert ReadAll(d, m, j.entries)[i] == Read(d, m, j.entries[i]);
      ReadNull(d, m, j.entries[i]);
    }
  }

  lemma SlotsLeft(d: Descriptor, m: MessageName, entries: seq<Entry>)
    requires SlotsInRange(d) && Accepts(ReadAll(d, m, entries))
    ensures var r := VisitEntries(d, m, entries, Blank(d.slots(m)));
            && r.Ok?
            && (forall i :: 0 <= i < |entries| && !entries[i].value.Null? ==>
                  r.value[Read(d, m, entries[i]).value.at] == Read(d, m, entries[i]).value.slot)
            && (forall s :: 0 <= s < |r.value| && r.value[s] != Unset ==>
                  exists i :: 0 <= i < |entries| && !entries[i].value.Null? && Read(d, m, entries[i]).value.at == s)
  {
    var rs, blank := ReadAll(d, m, entries), Blank(d.slots(m));
    var r := VisitBlank(d, m, entries);
    forall i | 0 <= i < |entries|
      ensures rs[i].value.slot == Unset <==> entries[i].value.Null?
    {
      ReadNull(d, m, entries[i]);
    }
    forall s | 0 <= s < |blank| && !Untouched(rs, s)
      ensures exists i :: 0 <= i < |entries| && !entries[i].value.Null? && Read(d, m, entries[i]).value.at == s
    {
      var i :| 0 <= i < |rs| && rs[i].value.at == s && rs[i].value.slot != Unset;
      assert Read(d, m, entries[i]) == rs[i];
    }
  }

  /** A oneof, like every slot, has at most one non-null member in an accepted object, and holds exactly that one. */
  lemma OneMemberPerSlot(d: Descriptor, m: MessageName, j: Json, i: nat, k: nat)
    requires Valid(d) && Parse(d, Nested(m), j).Ok?
    requires i < |j.entries| && k < |j.entries| && SameSlot(d, m, j.entries[i], j.entries[k])
    requires !j.entries[i].value.Null? && !j.entries[k].value.Null?
    ensures i == k
    ensures var f := Resolve(d.fields(m), j.entries[i].key).value;
            ParseField(d, m, f, j.entries[i].value) == Ok(Parse(d, Nested(m), j).value.slots[d.fields(m)[f].slot])
  {
    AcceptedExactly(d, m, j);
    assert Read(d, m, j.entries[i]).Some?;
  }

  lemma VisitStep(d: Descriptor, m: MessageName, e: Entry, rest: seq<Entry>, state: seq<Slot>)
    requires SlotsInRange(d) && |state| == d.slots(m)
    ensures var first := VisitEntry(d, m, e, state);
            VisitEntries(d, m, [e] + rest, state) == if first.Ok? then VisitEntries(d, m, rest, first.value) else first
  {
    assert ([e] + rest)[1..] == rest;
  }

  lemma VisitNone(d: Descriptor, m: MessageName, state: seq<Slot>)
    requires SlotsInRange(d) && |state| == d.slots(m)
    ensures VisitEntries(d, m, [], state) == Ok(state)
  {
  }

  lemma VisitPair(d: Descriptor, m: MessageName, a: Entry, b: Entry, state: seq<Slot>)
    requires SlotsInRange(d) && |state| == d.slots(m)
    ensures var first := VisitEntry(d, m, a, state);
            VisitEntries(d, m, [a, b], state) == if first.Ok? then VisitEntry(d, m, b, first.value) else first
  {
    assert [a, b] == [a] + [b] && [b] == [b] + [];
    VisitStep(d, m, a, [b], state);
    var first := VisitEntry(d, m, a, state);
    if first.Ok? {
      VisitStep(d, m, b, [], first.value);
      var second := VisitEntry(d, m, b, first.value);
      if second.Ok? {
        VisitNone(d, m, second.value);
      }
    }
  }
}
