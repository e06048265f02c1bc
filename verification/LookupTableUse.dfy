/**
 Using a lookup table while it is extended and deactivated: its status against the window of recent slots, and the
 addresses a transaction can look up in it.
 */
module LookupTableUse {
  import opened Wrappers
  import opened Bytes
  import opened LookupTable

  const MAX_ENTRIES := 512

  datatype Status = Activated | Deactivating(remainingBlocks: nat) | Deactivated

  /** `SlotHashes::position`: the place of a slot in the window, newest first. */
  function Position(window: seq<Slot>, slot: Slot): (r: Option<nat>)
    ensures r.Some? ==> r.value < |window| && window[r.value] == slot
    ensures r.None? ==> slot !in window
  {
    if window == [] then None
    else if window[0] == slot then Some(0)
    else
      var p :- Position(window[1..], slot);
      Some(p + 1)
  }

  function StatusOf(meta: Meta, current: Slot, window: seq<Slot>): Status {
    if meta.deactivationSlot == SLOT_MAX then Activated
    else if meta.deactivationSlot == current then Deactivating(MAX_ENTRIES + 1)
    else
      match Position(window, meta.deactivationSlot)
      case Some(p) => Deactivating(if p <= MAX_ENTRIES then MAX_ENTRIES - p else 0)
      case None => Deactivated
  }

  predicate IsActive(meta: Meta, current: Slot, window: seq<Slot>) {
    match StatusOf(meta, current, window)
    case Activated => true
    case Deactivating(_) => true
    case Deactivated => false
  }

  /** Never deactivated, or in this slot, or in one of the window. */
  predicate Usable(meta: Meta, current: Slot, window: seq<Slot>) {
    meta.deactivationSlot in {0xFFFF_FFFF_FFFF_FFFF, current} || meta.deactivationSlot in window
  }

  /** A table is active unless it was deactivated in a slot that is neither the current one nor in the window. */
  lemma ActiveExactly(meta: Meta, current: Slot, window: seq<Slot>)
    ensures IsActive(meta, current, window) <==> Usable(meta, current, window)
  {
  }

  /** The status counts the blocks left: 513 in the current slot, and 512 less the place in the window before. */
  lemma StatusExactly(meta: Meta, current: Slot, window: seq<Slot>, i: nat)
    requires i < |window| <= 512 && forall j, k :: 0 <= j < k < |window| ==> window[j] > window[k]
    ensures StatusOf(meta, current, window) == Activated <==> meta.deactivationSlot == 0xFFFF_FFFF_FFFF_FFFF
    ensures meta.deactivationSlot == current != 0xFFFF_FFFF_FFFF_FFFF ==>
              StatusOf(meta, current, window) == Deactivating(513)
    ensures meta.deactivationSlot == window[i] && window[i] !in {current, 0xFFFF_FFFF_FFFF_FFFF} ==>
              StatusOf(meta, current, window) == Deactivating(512 - i)
  {
    PositionIs(window, i);
  }

  // ----- the chain of blocks -----

  /** The block being executed and the slots of the blocks before it, newest first. */
  datatype Bank = Bank(current: Slot, window: seq<Slot>)

  ghost predicate Descending(bank: Bank) {
    && |bank.window| <= MAX_ENTRIES
    && (forall i :: 0 <= i < |bank.window| ==> bank.window[i] < bank.current)
    && (forall i, j :: 0 <= i < j < |bank.window| ==> bank.window[i] > bank.window[j])
  }

  /** A new block enters its parent's slot in the window and drops what no longer fits. */
  function NextBlock(bank: Bank, slot: Slot): Bank {
    var pushed := [bank.current] + bank.window;
    Bank(slot, if |pushed| <= MAX_ENTRIES then pushed else pushed[..MAX_ENTRIES])
  }

  function Blocks(bank: Bank, slots: seq<Slot>): Bank
    decreases |slots|
  {
    if slots == [] then bank else NextBlock(Blocks(bank, slots[..|slots| - 1]), slots[|slots| - 1])
  }

  /** Each block has a higher slot than the one before; slots may be skipped. */
  ghost predicate Rising(bank: Bank, slots: seq<Slot>) {
    && (forall i :: 0 <= i < |slots| ==> bank.current < slots[i])
    && (forall i, j :: 0 <= i < j < |slots| ==> slots[i] < slots[j])
  }

  /** One block moves every slot of the window back by one place. */
  lemma BlockShifts(bank: Bank, slot: Slot)
    requires Descending(bank) && bank.current < slot
    ensures var next := NextBlock(bank, slot);
            && Descending(next) && next.current == slot
            && |next.window| == (if |bank.window| < MAX_ENTRIES then |bank.window| + 1 else MAX_ENTRIES)
            && next.window[0] == bank.current
            && forall i :: 1 <= i < |next.window| ==> next.window[i] == bank.window[i - 1]
  {
  }

  /** After `n` more blocks, the slot current at the start is in place `n - 1`, until it drops out of the window. */
  lemma {:induction false} WindowAfter(bank: Bank, slots: seq<Slot>)
    requires Descending(bank) && Rising(bank, slots)
    ensures var n, after := |slots|, Blocks(bank, slots);
            && Descending(after)
            && after.current == (if n == 0 then bank.current else slots[n - 1])
            && (1 <= n <= MAX_ENTRIES ==> |after.window| >= n && after.window[n - 1] == bank.current)
            && (n > MAX_ENTRIES ==> |after.window| == MAX_ENTRIES && after.window[MAX_ENTRIES - 1] > bank.current)
    decreases |slots|
  {
    if slots != [] {
      var earlier := slots[..|slots| - 1];
      WindowAfter(bank, earlier);
      BlockShifts(Blocks(bank, earlier), slots[|slots| - 1]);
    }
  }

  /** In a descending window a slot is where it is found. */
  lemma {:induction false} PositionIs(window: seq<Slot>, i: nat)
    requires i < |window| && forall j, k :: 0 <= j < k < |window| ==> window[j] > window[k]
    ensures Position(window, window[i]) == Some(i)
    decreases i
  {
    if i > 0 {
      PositionIs(window[1..], i - 1);
    }
  }

  /**
   A table deactivated in a produced block counts down 513, 512, ..., 1, one step a block, whatever slots are
   skipped, and is deactivated for good from the 513th block after.
   */
  lemma CountsDown(bank: Bank, slots: seq<Slot>, meta: Meta)
    requires Descending(bank) && Rising(bank, slots)
    requires meta.deactivationSlot == bank.current && bank.current != SLOT_MAX
    ensures var after := Blocks(bank, slots);
            && StatusOf(meta, after.current, after.window) ==
               (if |slots| <= 512 then Deactivating(513 - |slots|) else Deactivated)
            && (IsActive(meta, after.current, after.window) <==> |slots| <= 512)
  {
    var n, after := |slots|, Blocks(bank, slots);
    WindowAfter(bank, slots);
    if 1 <= n <= MAX_ENTRIES {
      PositionIs(after.window, n - 1);
    } else if n > MAX_ENTRIES {
      assert forall i :: 0 <= i < |after.window| ==> after.window[i] >= after.window[MAX_ENTRIES - 1];
    }
  }

  // ----- lookups -----

  datatype LookupError = NotActive | InvalidIndex | SlicePanics

  function ActiveAddressesLen(t: Table, current: Slot, window: seq<Slot>): Result<nat, LookupError> {
    if !IsActive(t.meta, current, window) then Err(NotActive)
    else Ok(ActivePrefix(t, current))
  }

  function ActivePrefix(t: Table, current: Slot): nat {
    if current > t.meta.lastExtendedSlot then |t.addresses| else t.meta.lastExtendedSlotStartIndex
  }

  function Pick(addresses: seq<Pubkey>, indexes: seq<byte>): (r: Option<seq<Pubkey>>)
    ensures r.Some? <==> forall k :: 0 <= k < |indexes| ==> indexes[k] < |addresses|
    ensures r.Some? ==> |r.value| == |indexes| && forall k :: 0 <= k < |indexes| ==> r.value[k] == addresses[indexes[k]]
  {
    if indexes == [] then Some([])
    else if indexes[0] >= |addresses| then None
    else
      var rest :- Pick(addresses, indexes[1..]);
      Some([addresses[indexes[0]]] + rest)
  }

  /** `lookup`; slicing the addresses to an active length beyond their end panics. */
  function Lookup(t: Table, current: Slot, indexes: seq<byte>, window: seq<Slot>): Result<seq<Pubkey>, LookupError> {
    var len :- ActiveAddressesLen(t, current, window);
    if len > |t.addresses| then Err(SlicePanics) else
    match Pick(t.addresses[..len], indexes)
    case Some(keys) => Ok(keys)
    case None => Err(InvalidIndex)
  }

  // ----- extending a table -----

  datatype Extension = Extension(slot: Slot, addresses: seq<Pubkey>)

  /** The start index lies within the table, which lookups rely on. */
  predicate WellExtended(t: Table) {
    t.meta.lastExtendedSlotStartIndex <= |t.addresses|
  }

  predicate CanExtend(t: Table, e: Extension) {
    e.addresses != [] && |t.addresses| + |e.addresses| <= LOOKUP_TABLE_MAX_ADDRESSES &&
      t.meta.lastExtendedSlot <= e.slot
  }

  /** The first extension in a slot records the slot and where the table ended before it. */
  function Extend(t: Table, e: Extension): Table
    requires CanExtend(t, e)
  {
    var meta := if e.slot == t.meta.lastExtendedSlot then t.meta
                else t.meta.(lastExtendedSlot := e.slot, lastExtendedSlotStartIndex := |t.addresses|);
    Table(meta, t.addresses + e.addresses)
  }

  predicate CanExtendAll(t: Table, es: seq<Extension>)
    decreases |es|
  {
    es == [] || (CanExtend(t, es[0]) && CanExtendAll(Extend(t, es[0]), es[1..]))
  }

  function ExtendAll(t: Table, es: seq<Extension>): Table
    requires CanExtendAll(t, es)
    decreases |es|
  {
    if es == [] then t else ExtendAll(Extend(t, es[0]), es[1..])
  }

  /** The addresses of all the extensions, in order. */
  function Appended(es: seq<Extension>): seq<Pubkey> {
    if es == [] then [] else es[0].addresses + Appended(es[1..])
  }

  /** Extending appends, and touches neither the deactivation slot nor the authority. */
  lemma {:induction false} ExtendingAppends(t: Table, es: seq<Extension>)
    requires CanExtendAll(t, es)
    ensures var later := ExtendAll(t, es);
            && later.addresses == t.addresses + Appended(es)
            && later.meta.deactivationSlot == t.meta.deactivationSlot
            && later.meta.authority == t.meta.authority && later.meta.padding == t.meta.padding
            && later.meta.lastExtendedSlot == if es == [] then t.meta.lastExtendedSlot else es[|es| - 1].slot
    decreases |es|
  {
    if es != [] {
      ExtendingAppends(Extend(t, es[0]), es[1..]);
      assert t.addresses + es[0].addresses + Appended(es[1..]) == t.addresses + (es[0].addresses + Appended(es[1..]));
    }
  }

  /** A later table has the old addresses in front, and shows at least as many of them from `since` on. */
  ghost predicate Extends(t: Table, later: Table, since: Slot) {
    && WellExtended(later)
    && |t.addresses| <= |later.addresses| && later.addresses[..|t.addresses|] == t.addresses
    && t.meta.lastExtendedSlot <= later.meta.lastExtendedSlot
    && forall slot: Slot :: since <= slot && later.meta.lastExtendedSlot <= slot ==>
         ActivePrefix(t, since) <= ActivePrefix(later, slot)
  }

  /** No extension is older than the last one recorded. */
  lemma {:induction false} SlotsRise(t: Table, es: seq<Extension>)
    requires CanExtendAll(t, es)
    ensures forall i :: 0 <= i < |es| ==> t.meta.lastExtendedSlot <= es[i].slot
    decreases |es|
  {
    if es != [] {
      SlotsRise(Extend(t, es[0]), es[1..]);
      assert forall i :: 1 <= i < |es| ==> es[i] == es[1..][i - 1];
    }
  }

  lemma {:induction false} ExtendsAll(t: Table, es: seq<Extension>, since: Slot)
    requires WellExtended(t) && CanExtendAll(t, es) && t.meta.lastExtendedSlot <= since
    requires forall i :: 0 <= i < |es| ==> since <= es[i].slot
    ensures Extends(t, ExtendAll(t, es), since)
    decreases |es|
  {
    if es != [] {
      var next := Extend(t, es[0]);
      assert Extends(t, next, since);
      SlotsRise(next, es[1..]);
      ExtendsAll(next, es[1..], es[0].slot);
      var later := ExtendAll(next, es[1..]);
      assert later.addresses[..|t.addresses|] == later.addresses[..|next.addresses|][..|t.addresses|];
    }
  }

  /** Address `k` can be looked up: in the slot of the last extension only what was there before that slot. */
  predicate Visible(t: Table, current: Slot, k: nat) {
    k < |t.addresses| && (current <= t.meta.lastExtendedSlot ==> k < t.meta.lastExtendedSlotStartIndex)
  }

  /**
   A lookup succeeds exactly when the table is usable and every index is visible, and returns those addresses; it fails
   on an index exactly when one is not.  It never panics.
   */
  lemma LookupExactly(t: Table, current: Slot, indexes: seq<byte>, window: seq<Slot>)
    requires WellExtended(t)
    ensures var r := Lookup(t, current, indexes, window);
            && (r == Err(NotActive) <==> !Usable(t.meta, current, window))
            && r != Err(SlicePanics)
            && (r.Ok? <==> Usable(t.meta, current, window)
                           && forall k :: 0 <= k < |indexes| ==> Visible(t, current, indexes[k]))
            && (r.Ok? ==> |r.value| == |indexes| && forall k :: 0 <= k < |indexes| ==>
                  r.value[k] == t.addresses[indexes[k]])
  {
    ActiveExactly(t.meta, current, window);
    PrefixVisible(t, current);
  }

  /** The active prefix is what is visible. */
  lemma PrefixVisible(t: Table, current: Slot)
    requires WellExtended(t)
    ensures ActivePrefix(t, current) <= |t.addresses|
    ensures forall k: nat :: k < ActivePrefix(t, current) <==> Visible(t, current, k)
  {
  }

  /** Without that invariant it panics exactly when an active table claims to have been extended past its end. */
  lemma LookupPanics(t: Table, current: Slot, indexes: seq<byte>, window: seq<Slot>)
    ensures Lookup(t, current, indexes, window) == Err(SlicePanics) <==>
            && Usable(t.meta, current, window)
            && current <= t.meta.lastExtendedSlot
            && t.meta.lastExtendedSlotStartIndex > |t.addresses|
  {
  }

  /** Such a table parses: its bytes claim an extension from index 1 of a table that holds no address. */
  lemma LookupPanicsOn(meta: Meta, window: seq<Slot>)
    requires meta.deactivationSlot == SLOT_MAX && meta.lastExtendedSlotStartIndex == 1
    ensures Deserialize(MetaRegion(meta)) == Ok(Table(meta, []))
    ensures Lookup(Table(meta, []), meta.lastExtendedSlot, [], window) == Err(SlicePanics)
  {
    TableRoundTrip(Table(meta, []));
    assert MetaRegion(meta) + [] == MetaRegion(meta);
  }

  /** Extensions in the slot of a lookup do not change its answer. */
  lemma {:induction false} SameSlotUnchanged(t: Table, es: seq<Extension>, current: Slot, indexes: seq<byte>,
                                             window: seq<Slot>)
    requires WellExtended(t) && CanExtendAll(t, es) && forall i :: 0 <= i < |es| ==> es[i].slot == current
    ensures Lookup(ExtendAll(t, es), current, indexes, window) == Lookup(t, current, indexes, window)
    decreases |es|
  {
    if es != [] {
      var next := Extend(t, es[0]);
      var len := ActivePrefix(t, current);
      assert next.addresses[..len] == t.addresses[..len];
      SameSlotUnchanged(next, es[1..], current, indexes, window);
    }
  }

  /** After extensions in earlier slots and then in the current one, what is visible are the addresses before these. */
  lemma VisibleAfter(t: Table, earlier: seq<Extension>, now: seq<Extension>, current: Slot, k: nat)
    requires WellExtended(t) && t.meta.lastExtendedSlot < current && CanExtendAll(t, earlier)
    requires CanExtendAll(ExtendAll(t, earlier), now)
    requires forall i :: 0 <= i < |earlier| ==> earlier[i].slot < current
    requires forall i :: 0 <= i < |now| ==> now[i].slot == current
    ensures var later := ExtendAll(ExtendAll(t, earlier), now);
            && later.addresses == t.addresses + Appended(earlier) + Appended(now)
            && (Visible(later, current, k) <==> k < |t.addresses| + |Appended(earlier)|)
  {
    var before := ExtendAll(t, earlier);
    ExtendingAppends(t, earlier);
    ExtendingAppends(before, now);
    SameSlotPrefix(before, now, current);
    StaysWellExtended(t, earlier);
    StaysWellExtended(before, now);
    PrefixVisible(ExtendAll(before, now), current);
  }

  lemma {:induction false} StaysWellExtended(t: Table, es: seq<Extension>)
    requires WellExtended(t) && CanExtendAll(t, es)
    ensures WellExtended(ExtendAll(t, es))
    decreases |es|
  {
    if es != [] {
      StaysWellExtended(Extend(t, es[0]), es[1..]);
    }
  }

  lemma {:induction false} SameSlotPrefix(t: Table, es: seq<Extension>, current: Slot)
    requires CanExtendAll(t, es) && forall i :: 0 <= i < |es| ==> es[i].slot == current
    ensures ActivePrefix(ExtendAll(t, es), current) == ActivePrefix(t, current)
    decreases |es|
  {
    if es != [] {
      SameSlotPrefix(Extend(t, es[0]), es[1..], current);
    }
  }

  /** The table with its deactivation slot set, or left at the maximum. */
  function Deactivate(t: Table, slot: Slot): Table {
    t.(meta := t.meta.(deactivationSlot := slot))
  }

  /**
   A lookup that succeeded returns the same addresses in every later slot in which the table is still active, whatever
   has been appended, and whether or not it has been deactivated in between.
   */
  lemma LaterSame(t: Table, es: seq<Extension>, deactivated: Slot, since: Slot, current: Slot, indexes: seq<byte>,
                  window: seq<Slot>, later: seq<Slot>)
    requires WellExtended(t) && CanExtendAll(t, es) && t.meta.lastExtendedSlot <= since <= current
    requires forall i :: 0 <= i < |es| ==> since <= es[i].slot <= current
    requires Lookup(t, since, indexes, window).Ok?
    requires IsActive(Deactivate(ExtendAll(t, es), deactivated).meta, current, later)
    ensures Lookup(Deactivate(ExtendAll(t, es), deactivated), current, indexes, later) ==
            Lookup(t, since, indexes, window)
  {
    var after := ExtendAll(t, es);
    var now := Deactivate(after, deactivated);
    ExtendsAll(t, es, since);
    LastExtension(t, es, current);
    assert ActivePrefix(now, current) == ActivePrefix(after, current);
    LookupExactly(t, since, indexes, window);
    LookupExactly(now, current, indexes, later);
    forall k | 0 <= k < |indexes|
      ensures now.addresses[indexes[k]] == t.addresses[indexes[k]]
    {
      assert t.addresses[indexes[k]] == after.addresses[..|t.addresses|][indexes[k]];
    }
    assert Lookup(now, current, indexes, later).value == Lookup(t, since, indexes, window).value;
  }

  /** In particular it does so through the 513 blocks in which a table deactivated later cools down. */
  lemma LookupWhileCoolingDown(t: Table, since: Slot, window: seq<Slot>, bank: Bank, slots: seq<Slot>,
                               indexes: seq<byte>)
    requires WellExtended(t) && t.meta.lastExtendedSlot <= since <= bank.current && bank.current != SLOT_MAX
    requires Lookup(t, since, indexes, window).Ok?
    requires Descending(bank) && Rising(bank, slots)
    ensures var after := Blocks(bank, slots);
            Lookup(Deactivate(t, bank.current), after.current, indexes, after.window) ==
            if |slots| <= 512 then Lookup(t, since, indexes, window) else Err(NotActive)
  {
    var after := Blocks(bank, slots);
    WindowAfter(bank, slots);
    CountsDown(bank, slots, Deactivate(t, bank.current).meta);
    if |slots| <= MAX_ENTRIES {
      LaterSame(t, [], bank.current, since, after.current, indexes, window, after.window);
    }
  }

  lemma {:induction false} LastExtension(t: Table, es: seq<Extension>, current: Slot)
    requires CanExtendAll(t, es) && t.meta.lastExtendedSlot <= current
    requires forall i :: 0 <= i < |es| ==> es[i].slot <= current
    ensures ExtendAll(t, es).meta.lastExtendedSlot <= current
    ensures ExtendAll(t, es).meta.deactivationSlot == t.meta.deactivationSlot
    decreases |es|
  {
    if es != [] {
      LastExtension(Extend(t, es[0]), es[1..], current);
    }
  }
}
