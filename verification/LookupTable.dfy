/**
 The account data of an address lookup table: 56 bytes of metadata in bincode's fixed-width little-endian encoding,
 then the addresses, 32 bytes each.
 */
module LookupTable {
  import opened Wrappers
  import opened Bytes

  const LOOKUP_TABLE_MAX_ADDRESSES := 256
  const LOOKUP_TABLE_META_SIZE := 56
  const SLOT_MAX := 0xFFFF_FFFF_FFFF_FFFF

  type u16 = x: int | 0 <= x < 0x1_0000
  type Slot = x: int | 0 <= x <= SLOT_MAX
  type Pubkey = bs: seq<byte> | |bs| == 32 witness seq(32, _ => 0)

  datatype Meta = Meta(
    deactivationSlot: Slot,
    lastExtendedSlot: Slot,
    lastExtendedSlotStartIndex: byte,
    authority: Option<Pubkey>,
    padding: u16)

  datatype ProgramState = Uninitialized | LookupTable(meta: Meta)

  datatype Table = Table(meta: Meta, addresses: seq<Pubkey>)

  datatype InstructionError = InvalidAccountData | UninitializedAccount

  // ----- bincode -----

  function EncodeMeta(m: Meta): (bs: seq<byte>)
    ensures |bs| == if m.authority.Some? then 52 else 20
  {
    LittleEndian(m.deactivationSlot, 8) + LittleEndian(m.lastExtendedSlot, 8) + [m.lastExtendedSlotStartIndex] +
    AuthorityBytes(m.authority) + LittleEndian(m.padding, 2)
  }

  function AuthorityBytes(authority: Option<Pubkey>): (bs: seq<byte>)
    ensures |bs| == if authority.Some? then 33 else 1
  {
    if authority.Some? then [1] + authority.value else [0]
  }

  /** `ProgramState::LookupTable(m)`, the only state that is written. */
  function EncodeState(m: Meta): (bs: seq<byte>)
    ensures |bs| == if m.authority.Some? then 56 else 24
  {
    LittleEndian(1, 4) + EncodeMeta(m)
  }

  function DecodeMeta(bs: seq<byte>): Option<Meta> {
    if |bs| >= 20 && bs[17] == 0 then Some(DecodeFields(bs, None, bs[18..20]))
    else if |bs| >= 52 && bs[17] == 1 then Some(DecodeFields(bs, Some(bs[18..50]), bs[50..52]))
    else None
  }

  function DecodeFields(bs: seq<byte>, authority: Option<Pubkey>, padding: seq<byte>): Meta
    requires |bs| >= 17 && |padding| == 2
  {
    Meta(DecodeSlot(bs[0..8]), DecodeSlot(bs[8..16]), bs[16], authority, DecodeU16(padding))
  }

  function DecodeSlot(bs: seq<byte>): Slot
    requires |bs| == 8
  {
    WriteRead(bs);
    Powers();
    FromLittleEndian(bs)
  }

  function DecodeU16(bs: seq<byte>): u16
    requires |bs| == 2
  {
    WriteRead(bs);
    Powers();
    FromLittleEndian(bs)
  }

  /** `bincode::deserialize`, which allows trailing bytes. */
  function DecodeState(bs: seq<byte>): Option<ProgramState> {
    if |bs| < 4 then None
    else if FromLittleEndian(bs[..4]) == 0 then Some(Uninitialized)
    else if FromLittleEndian(bs[..4]) == 1 then
      var m :- DecodeMeta(bs[4..]);
      Some(LookupTable(m))
    else None
  }

  /** `bytemuck::try_cast_slice` to 32-byte keys: only whole keys can be cast. */
  function Cast(bs: seq<byte>): Option<seq<Pubkey>>
    decreases |bs|
  {
    if bs == [] then Some([])
    else if |bs| < 32 then None
    else
      var rest :- Cast(bs[32..]);
      Some([bs[..32]] + rest)
  }

  function Flatten(keys: seq<Pubkey>): (bs: seq<byte>)
    ensures |bs| == 32 * |keys|
  {
    if keys == [] then [] else keys[0] + Flatten(keys[1..])
  }

  function Deserialize(data: seq<byte>): Result<Table, InstructionError> {
    match DecodeState(data)
    case None => Err(InvalidAccountData)
    case Some(Uninitialized) => Err(UninitializedAccount)
    case Some(LookupTable(meta)) =>
      if |data| < LOOKUP_TABLE_META_SIZE then Err(InvalidAccountData)
      else
        match Cast(data[LOOKUP_TABLE_META_SIZE..])
        case None => Err(InvalidAccountData)
        case Some(addresses) => Ok(Table(meta, addresses))
  }

  function Zeros(n: nat): (bs: seq<byte>)
    ensures |bs| == n && forall i :: 0 <= i < n ==> bs[i] == 0
  {
    seq(n, _ => 0)
  }

  /** The metadata region: the encoded state, then zeros up to 56 bytes. */
  function MetaRegion(m: Meta): (bs: seq<byte>)
    ensures |bs| == LOOKUP_TABLE_META_SIZE
  {
    var state := EncodeState(m);
    state + Zeros(LOOKUP_TABLE_META_SIZE - |state|)
  }

  // ----- writing -----

  /** `fill(0)` on the first `n` bytes. */
  method FillZeros(data: array<byte>, n: nat)
    requires n <= data.Length
    modifies data
    ensures data[..] == Zeros(n) + old(data[n..])
  {
    for i := 0 to n
      invariant forall k :: 0 <= k < i ==> data[k] == 0
      invariant forall k :: i <= k < data.Length ==> data[k] == old(data[k])
    {
      data[i] := 0;
    }
  }

  /** `serialize_into`: the bytes go over the front of the data. */
  method WriteFront(data: array<byte>, bytes: seq<byte>)
    requires |bytes| <= data.Length
    modifies data
    ensures data[..] == bytes + old(data[|bytes|..])
  {
    for i := 0 to |bytes|
      invariant forall k :: 0 <= k < i ==> data[k] == bytes[k]
      invariant forall k :: i <= k < data.Length ==> data[k] == old(data[k])
    {
      data[i] := bytes[i];
    }
  }

  lemma Overlay(n: nat, m: nat, tail: seq<byte>)
    requires n <= m
    ensures (Zeros(m) + tail)[n..] == Zeros(m - n) + tail
  {
  }

  /** `overwrite_meta_data`: clear the first 56 bytes, write the state over them, touch nothing else. */
  method OverwriteMetaData(data: array<byte>, meta: Meta) returns (r: Result<(), InstructionError>)
    modifies data
    ensures r.Ok? <==> data.Length >= LOOKUP_TABLE_META_SIZE
    ensures r.Ok? ==> data[..] == MetaRegion(meta) + old(data[LOOKUP_TABLE_META_SIZE..])
    ensures r.Err? ==> r.error == InvalidAccountData && data[..] == old(data[..])
  {
    if data.Length < LOOKUP_TABLE_META_SIZE { return Err(InvalidAccountData); }
    ghost var tail := data[LOOKUP_TABLE_META_SIZE..];
    FillZeros(data, LOOKUP_TABLE_META_SIZE);
    var state := EncodeState(meta);
    Overlay(|state|, LOOKUP_TABLE_META_SIZE, tail);
    assert data[|state|..] == data[..][|state|..];
    WriteFront(data, state);
    return Ok(());
  }

  method SerializeForTests(t: Table) returns (out: seq<byte>)
    ensures out == MetaRegion(t.meta) + Flatten(t.addresses)
  {
    var data := new byte[LOOKUP_TABLE_META_SIZE](_ => 0);
    var _ := OverwriteMetaData(data, t.meta);
    assert data[..] == MetaRegion(t.meta);
    out := ExtendWithAddresses(data[..], t.addresses);
  }

  method ExtendWithAddresses(data: seq<byte>, addresses: seq<Pubkey>) returns (out: seq<byte>)
    ensures out == data + Flatten(addresses)
  {
    out := data;
    assert addresses[..0] == [] && data == data + [];
    for i := 0 to |addresses|
      invariant out == data + Flatten(addresses[..i])
    {
      FlattenSnoc(addresses[..i], addresses[i]);
      assert addresses[..i + 1] == addresses[..i] + [addresses[i]];
      out := out + addresses[i];
    }
    assert addresses[..|addresses|] == addresses;
  }

  // ----- reading what was written -----

  lemma {:induction false} FlattenSnoc(keys: seq<Pubkey>, key: Pubkey)
    ensures Flatten(keys + [key]) == Flatten(keys) + key
  {
    if keys == [] {
      assert Flatten([key]) == key + Flatten([]);
    } else {
      assert (keys + [key])[1..] == keys[1..] + [key];
      FlattenSnoc(keys[1..], key);
    }
  }

  lemma {:induction false} CastFlattened(keys: seq<Pubkey>)
    ensures Cast(Flatten(keys)) == Some(keys)
  {
    if keys != [] {
      var bs := Flatten(keys);
      assert bs[..32] == keys[0] && bs[32..] == Flatten(keys[1..]);
      CastFlattened(keys[1..]);
      assert keys == [keys[0]] + keys[1..];
    }
  }

  lemma {:induction false} CastFlattens(bs: seq<byte>)
    ensures Cast(bs).Some? <==> |bs| % 32 == 0
    ensures Cast(bs).Some? ==> Flatten(Cast(bs).value) == bs
    decreases |bs|
  {
    if |bs| >= 32 {
      CastFlattens(bs[32..]);
      assert (|bs| - 32) % 32 == |bs| % 32;
      assert bs == bs[..32] + bs[32..];
      var rest := Cast(bs[32..]);
      if rest.Some? {
        assert ([bs[..32]] + rest.value)[1..] == rest.value;
      }
    }
  }

  lemma {:induction false} CastAt(bs: seq<byte>)
    ensures Cast(bs).Some? ==>
              && |bs| == 32 * |Cast(bs).value|
              && forall i :: 0 <= i < |Cast(bs).value| ==> Cast(bs).value[i] == bs[32 * i..32 * i + 32]
    decreases |bs|
  {
    if |bs| >= 32 {
      CastAt(bs[32..]);
      var rest := Cast(bs[32..]);
      if rest.Some? {
        forall i | 1 <= i < |rest.value| + 1
          ensures Cast(bs).value[i] == bs[32 * i..32 * i + 32]
        {
          assert Cast(bs).value[i] == rest.value[i - 1];
        }
      }
    }
  }

  lemma MetaParts(a: seq<byte>, b: seq<byte>, x: byte, y: seq<byte>, z: seq<byte>, tail: seq<byte>)
    requires |a| == |b| == 8 && |y| > 0
    ensures var (bs, end) := (a + b + [x] + y + z + tail, 17 + |y|);
            && bs[0..8] == a && bs[8..16] == b && bs[16] == x && bs[17] == y[0]
            && bs[18..end] == y[1..] && bs[end..end + |z|] == z
  {
  }

  lemma DecodeEncodedMeta(m: Meta, tail: seq<byte>)
    ensures DecodeMeta(EncodeMeta(m) + tail) == Some(m)
  {
    Powers();
    ReadWritten(m.deactivationSlot, 8);
    ReadWritten(m.lastExtendedSlot, 8);
    ReadWritten(m.padding, 2);
    MetaParts(LittleEndian(m.deactivationSlot, 8), LittleEndian(m.lastExtendedSlot, 8), m.lastExtendedSlotStartIndex,
              AuthorityBytes(m.authority), LittleEndian(m.padding, 2), tail);
  }

  lemma DecodeTagged(bs: seq<byte>, m: Meta)
    requires |bs| >= 4 && FromLittleEndian(bs[..4]) == 1 && DecodeMeta(bs[4..]) == Some(m)
    ensures DecodeState(bs) == Some(LookupTable(m))
  {
  }

  lemma DecodeEncodedState(m: Meta, tail: seq<byte>)
    ensures DecodeState(LittleEndian(1, 4) + (EncodeMeta(m) + tail)) == Some(LookupTable(m))
  {
    var tag, rest := LittleEndian(1, 4), EncodeMeta(m) + tail;
    Powers();
    ReadWritten(1, 4);
    DecodeEncodedMeta(m, tail);
    assert (tag + rest)[..4] == tag && (tag + rest)[4..] == rest;
    DecodeTagged(tag + rest, m);
  }

  lemma FirstParts(tag: seq<byte>, a: seq<byte>, b: seq<byte>, x: byte, rest: seq<byte>)
    requires |tag| == 4 && |a| == |b| == 8
    ensures var r := tag + (a + b + [x] + rest);
            r[0..4] == tag && r[4..12] == a && r[12..20] == b && r[20] == x && r[21..] == rest
  {
  }

  lemma RegroupRegion(tag: seq<byte>, a: seq<byte>, x: seq<byte>, y: seq<byte>, z: seq<byte>)
    ensures tag + (a + x + y) + z == tag + (a + (x + y + z))
  {
  }

  /** The region, cut after the start index. */
  lemma RegionParts(m: Meta) returns (rest: seq<byte>)
    ensures |AuthorityBytes(m.authority)| <= 33
    ensures rest == AuthorityBytes(m.authority) + LittleEndian(m.padding, 2) +
              Zeros(33 - |AuthorityBytes(m.authority)|)
    ensures MetaRegion(m)[21..] == rest
    ensures MetaRegion(m) == LittleEndian(1, 4) +
            (LittleEndian(m.deactivationSlot, 8) + LittleEndian(m.lastExtendedSlot, 8) +
              [m.lastExtendedSlotStartIndex] + rest)
  {
    var zeros := MetaRegion(m)[|EncodeState(m)|..];
    rest := AuthorityBytes(m.authority) + LittleEndian(m.padding, 2) + zeros;
    RegroupRegion(LittleEndian(1, 4),
            LittleEndian(m.deactivationSlot, 8) + LittleEndian(m.lastExtendedSlot, 8) + [m.lastExtendedSlotStartIndex],
            AuthorityBytes(m.authority), LittleEndian(m.padding, 2), zeros);
    FirstParts(LittleEndian(1, 4), LittleEndian(m.deactivationSlot, 8), LittleEndian(m.lastExtendedSlot, 8),
               m.lastExtendedSlotStartIndex, rest);
  }

  /** Where the state tag, the slots and the start index lie in the account. */
  lemma RegionSlots(m: Meta)
    ensures var r := MetaRegion(m);
            && FromLittleEndian(r[0..4]) == 1
            && FromLittleEndian(r[4..12]) == m.deactivationSlot
            && FromLittleEndian(r[12..20]) == m.lastExtendedSlot
            && r[20] == m.lastExtendedSlotStartIndex
  {
    var rest := RegionParts(m);
    Powers();
    ReadWritten(1, 4);
    ReadWritten(m.deactivationSlot, 8);
    ReadWritten(m.lastExtendedSlot, 8);
    FirstParts(LittleEndian(1, 4), LittleEndian(m.deactivationSlot, 8), LittleEndian(m.lastExtendedSlot, 8),
               m.lastExtendedSlotStartIndex, rest);
  }

  /** Where the authority and the padding lie, and that the rest is zero. */
  lemma RegionAuthority(m: Meta)
    ensures var r := MetaRegion(m);
            if m.authority.Some?
            then r[21] == 1 && r[22..54] == m.authority.value && FromLittleEndian(r[54..56]) == m.padding
            else r[21] == 0 && FromLittleEndian(r[22..24]) == m.padding && forall i :: 24 <= i < 56 ==> r[i] == 0
  {
    var r, auth, padding := MetaRegion(m), AuthorityBytes(m.authority), LittleEndian(m.padding, 2);
    var rest := RegionParts(m);
    Powers();
    ReadWritten(m.padding, 2);
    RestParts(auth, padding, Zeros(33 - |auth|));
    AfterStartIndex(r);
    if m.authority.Some? {
      assert rest[1..33] == m.authority.value && rest[33..35] == padding;
    } else {
      assert rest[1..3] == padding;
    }
  }

  lemma AfterStartIndex(r: seq<byte>)
    requires |r| == LOOKUP_TABLE_META_SIZE
    ensures var rest := r[21..];
            && r[21] == rest[0] && r[22..54] == rest[1..33] && r[54..56] == rest[33..35] && r[22..24] == rest[1..3]
            && forall i :: 24 <= i < 56 ==> r[i] == rest[i - 21]
  {
  }

  lemma RestParts(auth: seq<byte>, padding: seq<byte>, zeros: seq<byte>)
    ensures var (rest, i) := (auth + padding + zeros, |auth|);
            rest[..i] == auth && rest[i..i + |padding|] == padding && rest[i + |padding|..] == zeros
  {
  }

  /** What the fixed offsets of the account say. */
  ghost predicate SaysMeta(data: seq<byte>, m: Meta)
    requires |data| >= LOOKUP_TABLE_META_SIZE
  {
    && m.deactivationSlot == FromLittleEndian(data[4..12]) && m.lastExtendedSlot == FromLittleEndian(data[12..20])
    && m.lastExtendedSlotStartIndex == data[20]
    && m.authority == (if data[21] == 0 then None else Some(data[22..54]))
    && m.padding == FromLittleEndian(if data[21] == 0 then data[22..24] else data[54..56])
  }

  /**
   Which buffers parse, whole keys and known tags only, and what they parse to; of the others exactly those with a
   zero tag are uninitialized accounts.
   */
  lemma ParsesExactly(data: seq<byte>)
    ensures Deserialize(data).Ok? <==>
            |data| >= 56 && |data| % 32 == 24 && FromLittleEndian(data[0..4]) == 1 && data[21] in {0, 1}
    ensures Deserialize(data).Ok? ==>
              var t := Deserialize(data).value;
              && SaysMeta(data, t.meta) && |data| == 56 + 32 * |t.addresses|
              && forall i :: 0 <= i < |t.addresses| ==> t.addresses[i] == data[56 + 32 * i..88 + 32 * i]
    ensures Deserialize(data) == Err(UninitializedAccount) <==> |data| >= 4 && FromLittleEndian(data[0..4]) == 0
  {
    if |data| >= LOOKUP_TABLE_META_SIZE {
      StateSays(data);
      if DecodeState(data).Some? && DecodeState(data).value.LookupTable? {
        KeysParse(data, DecodeState(data).value.meta);
      }
    }
  }

  lemma KeysParse(data: seq<byte>, m: Meta)
    requires |data| >= LOOKUP_TABLE_META_SIZE && DecodeState(data) == Some(LookupTable(m))
    ensures Deserialize(data).Ok? <==> |data| % 32 == 24
    ensures Deserialize(data).Ok? ==>
              var t := Deserialize(data).value;
              && t.meta == m && |data| == 56 + 32 * |t.addresses|
              && forall i :: 0 <= i < |t.addresses| ==> t.addresses[i] == data[56 + 32 * i..88 + 32 * i]
    ensures Deserialize(data) != Err(UninitializedAccount)
  {
    DeserializeRegion(data, m);
    WholeKeys(data);
    if Deserialize(data).Ok? {
      KeysAt(data, Deserialize(data).value.addresses);
    }
  }

  lemma WholeKeys(data: seq<byte>)
    requires |data| >= LOOKUP_TABLE_META_SIZE
    ensures Cast(data[LOOKUP_TABLE_META_SIZE..]).Some? <==> |data| % 32 == 24
  {
    CastFlattens(data[LOOKUP_TABLE_META_SIZE..]);
    Shifted(|data|);
  }

  lemma Shifted(n: nat)
    requires n >= 56
    ensures (n - 56) % 32 == 0 <==> n % 32 == 24
  {
  }

  lemma KeysAt(data: seq<byte>, keys: seq<Pubkey>)
    requires |data| >= LOOKUP_TABLE_META_SIZE && Cast(data[LOOKUP_TABLE_META_SIZE..]) == Some(keys)
    ensures |data| == 56 + 32 * |keys|
    ensures forall i :: 0 <= i < |keys| ==> keys[i] == data[56 + 32 * i..88 + 32 * i]
  {
    var rest := data[LOOKUP_TABLE_META_SIZE..];
    CastAt(rest);
    forall i | 0 <= i < |keys|
      ensures keys[i] == data[56 + 32 * i..88 + 32 * i]
    {
      assert rest[32 * i..32 * i + 32] == data[56 + 32 * i..88 + 32 * i];
    }
  }

  lemma StateSays(data: seq<byte>)
    requires |data| >= LOOKUP_TABLE_META_SIZE
    ensures DecodeState(data) == Some(Uninitialized) <==> FromLittleEndian(data[0..4]) == 0
    ensures DecodeState(data).Some? && DecodeState(data).value.LookupTable? <==>
            FromLittleEndian(data[0..4]) == 1 && data[21] in {0, 1}
    ensures DecodeState(data).Some? && DecodeState(data).value.LookupTable? ==>
              SaysMeta(data, DecodeState(data).value.meta)
  {
    var bs := data[4..];
    assert bs[0..8] == data[4..12] && bs[8..16] == data[12..20] && bs[16] == data[20] && bs[17] == data[21];
    assert bs[18..20] == data[22..24] && bs[18..50] == data[22..54] && bs[50..52] == data[54..56];
  }

  /** A buffer that begins with a metadata region parses to that metadata and to the keys in the rest. */
  lemma ReadsRegion(m: Meta, rest: seq<byte>)
    ensures Deserialize(MetaRegion(m) + rest) ==
            match Cast(rest) { case Some(keys) => Ok(Table(m, keys)) case None => Err(InvalidAccountData) }
  {
    var data, tag := MetaRegion(m) + rest, LittleEndian(1, 4);
    var state := EncodeState(m);
    assert data == tag + (EncodeMeta(m) + data[|state|..]);
    DecodeEncodedState(m, data[|state|..]);
    DeserializeRegion(data, m);
    assert data[LOOKUP_TABLE_META_SIZE..] == rest;
  }

  lemma DeserializeRegion(data: seq<byte>, m: Meta)
    requires |data| >= LOOKUP_TABLE_META_SIZE && DecodeState(data) == Some(LookupTable(m))
    ensures Deserialize(data) == match Cast(data[LOOKUP_TABLE_META_SIZE..])
                                 { case Some(keys) => Ok(Table(m, keys)) case None => Err(InvalidAccountData) }
  {
  }

  /** Every table, with or without authority, comes back from its 56 + 32n bytes. */
  lemma TableRoundTrip(t: Table)
    ensures var data := MetaRegion(t.meta) + Flatten(t.addresses);
            |data| == 56 + 32 * |t.addresses| && Deserialize(data) == Ok(t)
  {
    ReadsRegion(t.meta, Flatten(t.addresses));
    CastFlattened(t.addresses);
  }

  /** Overwriting the metadata of a valid buffer changes the metadata it parses to, and no address. */
  lemma OverwriteKeepsAddresses(data: seq<byte>, m: Meta)
    requires Deserialize(data).Ok?
    ensures Deserialize(MetaRegion(m) + data[LOOKUP_TABLE_META_SIZE..]) == Ok(Deserialize(data).value.(meta := m))
  {
    ReadsRegion(m, data[LOOKUP_TABLE_META_SIZE..]);
    CastFlattens(data[LOOKUP_TABLE_META_SIZE..]);
  }

  lemma Adjacent(bs: seq<byte>, j: nat, k: nat)
    requires j <= k <= |bs|
    ensures bs[..j] + bs[j..k] == bs[..k]
  {
  }

  lemma DecodedParts(bs: seq<byte>)
    requires DecodeMeta(bs).Some?
    ensures var m := DecodeMeta(bs).value;
            var end := 17 + |AuthorityBytes(m.authority)|;
            && |bs| >= end + 2
            && LittleEndian(m.deactivationSlot, 8) == bs[0..8] && LittleEndian(m.lastExtendedSlot, 8) == bs[8..16]
            && [m.lastExtendedSlotStartIndex] == bs[16..17]
            && AuthorityBytes(m.authority) == bs[17..end] && LittleEndian(m.padding, 2) == bs[end..end + 2]
  {
    var authority := DecodeMeta(bs).value.authority;
    FieldsWritten(bs, authority, if authority.None? then bs[18..20] else bs[50..52]);
  }

  lemma FieldsWritten(bs: seq<byte>, authority: Option<Pubkey>, padding: seq<byte>)
    requires |bs| >= 17 && |padding| == 2
    ensures var m := DecodeFields(bs, authority, padding);
            && LittleEndian(m.deactivationSlot, 8) == bs[0..8] && LittleEndian(m.lastExtendedSlot, 8) == bs[8..16]
            && [m.lastExtendedSlotStartIndex] == bs[16..17]
            && m.authority == authority && LittleEndian(m.padding, 2) == padding
  {
    WriteRead(bs[0..8]);
    WriteRead(bs[8..16]);
    WriteRead(padding);
  }

  lemma EncodeDecodedMeta(bs: seq<byte>)
    requires DecodeMeta(bs).Some?
    ensures var m := DecodeMeta(bs).value; |EncodeMeta(m)| <= |bs| && EncodeMeta(m) == bs[..|EncodeMeta(m)|]
  {
    var end := 17 + |AuthorityBytes(DecodeMeta(bs).value.authority)|;
    DecodedParts(bs);
    Adjacent(bs, 0, 8);
    Adjacent(bs, 8, 16);
    Adjacent(bs, 16, 17);
    Adjacent(bs, 17, end);
    Adjacent(bs, end, end + 2);
  }

  /** Encoding what was decoded gives the bytes that were read. */
  lemma EncodeDecodedState(data: seq<byte>, m: Meta)
    requires DecodeState(data) == Some(LookupTable(m))
    ensures var state := EncodeState(m); |state| <= |data| && state == data[..|state|]
  {
    EncodeDecodedMeta(data[4..]);
    WriteRead(data[..4]);
    var n := |EncodeMeta(m)|;
    assert data[4..][..n] == data[4..4 + n];
    Adjacent(data, 4, 4 + n);
  }

  lemma PaddedExactly(data: seq<byte>, n: nat, zeros: seq<byte>)
    requires n + |zeros| == LOOKUP_TABLE_META_SIZE <= |data| && forall i :: 0 <= i < |zeros| ==> zeros[i] == 0
    ensures data[..n] + zeros + data[LOOKUP_TABLE_META_SIZE..] == data <==>
            forall i :: n <= i < LOOKUP_TABLE_META_SIZE ==> data[i] == 0
  {
    var padded := data[..n] + zeros + data[LOOKUP_TABLE_META_SIZE..];
    assert forall i :: n <= i < LOOKUP_TABLE_META_SIZE ==> padded[i] == 0;
  }

  /**
   A parsed buffer is written back byte for byte exactly when the bytes its metadata leaves unused are zero.  With
   an authority there are none; without one they are the 32 bytes from 24 on.
   */
  lemma RewritesExactly(data: seq<byte>)
    requires Deserialize(data).Ok?
    ensures var t := Deserialize(data).value;
            (MetaRegion(t.meta) + Flatten(t.addresses) == data) <==>
            (t.meta.authority.Some? || forall i :: 24 <= i < 56 ==> data[i] == 0)
  {
    var meta := Deserialize(data).value.meta;
    var n := |EncodeState(meta)|;
    CastFlattens(data[LOOKUP_TABLE_META_SIZE..]);
    EncodeDecodedState(data, meta);
    PaddedExactly(data, n, MetaRegion(meta)[n..]);
  }
}
