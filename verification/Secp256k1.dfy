/**
 The instruction data of the secp256k1 precompile: one count byte, one 11-byte row of offsets for each signature,
 the signature blocks, and the message they share.  `Pack` is the client's builder, `Unpack` reads the data as the
 layout of `SecpSignatureOffsets` says.
 */
module Secp256k1 {
  import opened Wrappers
  import opened Bytes

  const SIGNATURE_SERIALIZED_SIZE := 64
  const HASHED_PUBKEY_SERIALIZED_SIZE := 20
  const SIGNATURE_OFFSETS_SERIALIZED_SIZE := 11
  const SIGNATURE_BLOCK_SIZE := 85
  const U16_MAX := 0xFFFF

  datatype Bundle = Bundle(signature: seq<byte>, recoveryId: byte, ethAddress: seq<byte>, message: seq<byte>)

  /** The client's `SecpSignature`: a 64-byte signature and a 20-byte address. */
  type SecpSignature = b: Bundle | |b.signature| == 64 && |b.ethAddress| == 20
    witness Bundle(seq(64, _ => 0), 0, seq(20, _ => 0), [])

  datatype PackError = NoSignatures | MessagesDiffer | OutOfRange

  // ----- the layout -----

  function BlockOffset(n: nat, i: nat): nat {
    1 + 11 * n + 85 * i
  }

  function MessageOffset(n: nat): nat {
    1 + 96 * n
  }

  function Row(n: nat, i: nat, messageSize: nat, index: byte): (row: seq<byte>)
    ensures |row| == SIGNATURE_OFFSETS_SERIALIZED_SIZE
  {
    LittleEndian(BlockOffset(n, i), 2) + [index] +
    LittleEndian(BlockOffset(n, i) + 65, 2) + [index] +
    LittleEndian(MessageOffset(n), 2) + LittleEndian(messageSize, 2) + [index]
  }

  /** The first `k` rows of offsets. */
  function Rows(n: nat, k: nat, messageSize: nat, index: byte): (rows: seq<byte>)
    ensures |rows| == 11 * k
  {
    if k == 0 then [] else Rows(n, k - 1, messageSize, index) + Row(n, k - 1, messageSize, index)
  }

  function Block(s: SecpSignature): (block: seq<byte>)
    ensures |block| == SIGNATURE_BLOCK_SIZE
  {
    s.signature + [s.recoveryId] + s.ethAddress
  }

  /** The first `k` signature blocks. */
  function SignatureBlocks(sigs: seq<SecpSignature>, k: nat): (blocks: seq<byte>)
    requires k <= |sigs|
    ensures |blocks| == 85 * k
  {
    if k == 0 then [] else SignatureBlocks(sigs, k - 1) + Block(sigs[k - 1])
  }

  function Layout(sigs: seq<SecpSignature>, index: byte): seq<byte>
    requires sigs != []
  {
    var n, message := |sigs|, sigs[0].message;
    [n % 256] + Rows(n, n, |message|, index) + SignatureBlocks(sigs, n) + message
  }

  predicate SameMessage(sigs: seq<SecpSignature>) {
    forall i :: 0 <= i < |sigs| ==> sigs[i].message == sigs[0].message
  }

  /** The largest offset and the message size fit a `u16`. */
  predicate Fits(sigs: seq<SecpSignature>)
    requires sigs != []
  {
    1 + 96 * |sigs| <= 65535 && |sigs[0].message| <= 65535
  }

  // ----- the builder -----

  method Pack(signatures: seq<SecpSignature>, instructionIndex: byte) returns (r: Result<seq<byte>, PackError>)
    ensures r == Err(NoSignatures) <==> signatures == []
    ensures r == Err(MessagesDiffer) <==> !SameMessage(signatures)
    ensures r.Ok? <==> signatures != [] && SameMessage(signatures) && Fits(signatures)
    ensures r.Ok? ==> r.value == Layout(signatures, instructionIndex)
  {
    if signatures == [] { return Err(NoSignatures); }
    var commonMessage := signatures[0].message;
    for i := 0 to |signatures|
      invariant forall k :: 0 <= k < i ==> signatures[k].message == commonMessage
    {
      if signatures[i].message != commonMessage { return Err(MessagesDiffer); }
    }
    var messageSize := |commonMessage|;
    var count := |signatures|;
    var offsetsAreaSize := 1 + count * SIGNATURE_OFFSETS_SERIALIZED_SIZE;
    var messageOffset := offsetsAreaSize + count * SIGNATURE_BLOCK_SIZE;
    var signatureOffsets: seq<byte> := [];
    var signatureBuffer: seq<byte> := [];
    for i := 0 to count
      invariant i > 0 ==> Fits(signatures)
      invariant signatureOffsets == Rows(count, i, messageSize, instructionIndex)
      invariant signatureBuffer == SignatureBlocks(signatures, i)
    {
      var currentOffset := offsetsAreaSize + |signatureBuffer|;
      var ethAddressOffset := currentOffset + SIGNATURE_SERIALIZED_SIZE + 1;
      if currentOffset > U16_MAX || ethAddressOffset > U16_MAX || messageOffset > U16_MAX || messageSize > U16_MAX {
        return Err(OutOfRange);
      }
      var offsetsBytes := LittleEndian(currentOffset, 2);
      offsetsBytes := offsetsBytes + [instructionIndex];
      offsetsBytes := offsetsBytes + LittleEndian(ethAddressOffset, 2);
      offsetsBytes := offsetsBytes + [instructionIndex];
      offsetsBytes := offsetsBytes + LittleEndian(messageOffset, 2);
      offsetsBytes := offsetsBytes + LittleEndian(messageSize, 2);
      offsetsBytes := offsetsBytes + [instructionIndex];
      signatureOffsets := signatureOffsets + offsetsBytes;
      signatureBuffer := signatureBuffer + signatures[i].signature;
      signatureBuffer := signatureBuffer + [signatures[i].recoveryId];
      signatureBuffer := signatureBuffer + signatures[i].ethAddress;
    }
    var instrData: seq<byte> := [count % 256];
    instrData := instrData + signatureOffsets;
    instrData := instrData + signatureBuffer;
    instrData := instrData + commonMessage;
    return Ok(instrData);
  }

  // ----- the reader -----

  datatype Offsets = Offsets(
    signatureOffset: nat, signatureInstructionIndex: byte,
    ethAddressOffset: nat, ethAddressInstructionIndex: byte,
    messageDataOffset: nat, messageDataSize: nat, messageInstructionIndex: byte)

  /** The fields of `SecpSignatureOffsets` in order: u16, u8, u16, u8, u16, u16, u8. */
  function ReadOffsets(row: seq<byte>): Offsets
    requires |row| == SIGNATURE_OFFSETS_SERIALIZED_SIZE
  {
    Offsets(FromLittleEndian(row[0..2]), row[2],
            FromLittleEndian(row[3..5]), row[5],
            FromLittleEndian(row[6..8]), FromLittleEndian(row[8..10]), row[10])
  }

  /** What row `i` of the offsets says, or `None` when something lies outside the data. */
  function UnpackOne(data: seq<byte>, i: nat): Option<(SecpSignature, Offsets)> {
    if |data| < 1 + 11 * (i + 1) then None else
    var o := ReadOffsets(data[1 + 11 * i..1 + 11 * i + 11]);
    if o.signatureOffset + 65 > |data| || o.ethAddressOffset + 20 > |data| ||
       o.messageDataOffset + o.messageDataSize > |data|
    then None
    else Some((Bundle(data[o.signatureOffset..o.signatureOffset + 64], data[o.signatureOffset + 64],
                      data[o.ethAddressOffset..o.ethAddressOffset + 20],
                      data[o.messageDataOffset..o.messageDataOffset + o.messageDataSize]), o))
  }

  /** All the signatures that the count byte announces, from the `i`th on. */
  function UnpackFrom(data: seq<byte>, count: nat, i: nat): Option<seq<SecpSignature>>
    requires i <= count
    decreases count - i
  {
    if i == count then Some([]) else
    var one :- UnpackOne(data, i);
    var rest :- UnpackFrom(data, count, i + 1);
    Some([one.0] + rest)
  }

  function Unpack(data: seq<byte>): Option<seq<SecpSignature>> {
    if data == [] then None else UnpackFrom(data, data[0], 0)
  }

  // ----- the reader undoes the builder -----

  lemma {:induction false} RowAt(n: nat, k: nat, messageSize: nat, index: byte, i: nat)
    requires i < k
    ensures Rows(n, k, messageSize, index)[11 * i..11 * i + 11] == Row(n, i, messageSize, index)
    decreases k
  {
    if i < k - 1 {
      RowAt(n, k - 1, messageSize, index, i);
    }
  }

  lemma {:induction false} BlockAt(sigs: seq<SecpSignature>, k: nat, i: nat)
    requires i < k <= |sigs|
    ensures SignatureBlocks(sigs, k)[85 * i..85 * i + 85] == Block(sigs[i])
    decreases k
  {
    if i < k - 1 {
      BlockAt(sigs, k - 1, i);
    }
  }

  lemma RowReads(n: nat, i: nat, messageSize: nat, index: byte)
    requires i < n && MessageOffset(n) <= U16_MAX && messageSize <= U16_MAX
    ensures ReadOffsets(Row(n, i, messageSize, index)) ==
            Offsets(BlockOffset(n, i), index, BlockOffset(n, i) + 65, index, MessageOffset(n), messageSize, index)
  {
    var row := Row(n, i, messageSize, index);
    Powers();
    ReadWritten(BlockOffset(n, i), 2);
    ReadWritten(BlockOffset(n, i) + 65, 2);
    ReadWritten(MessageOffset(n), 2);
    ReadWritten(messageSize, 2);
    assert row[0..2] == LittleEndian(BlockOffset(n, i), 2);
    assert row[3..5] == LittleEndian(BlockOffset(n, i) + 65, 2);
    assert row[6..8] == LittleEndian(MessageOffset(n), 2);
    assert row[8..10] == LittleEndian(messageSize, 2);
  }

  lemma RegionsAt(sigs: seq<SecpSignature>, index: byte, i: nat)
    requires i < |sigs|
    ensures var n, data := |sigs|, Layout(sigs, index);
            && |data| == 1 + 96 * n + |sigs[0].message|
            && data[1 + 11 * i..1 + 11 * i + 11] == Row(n, i, |sigs[0].message|, index)
            && data[BlockOffset(n, i)..BlockOffset(n, i) + 85] == Block(sigs[i])
            && data[MessageOffset(n)..] == sigs[0].message
  {
    var n, data, size := |sigs|, Layout(sigs, index), |sigs[0].message|;
    RowAt(n, n, size, index, i);
    BlockAt(sigs, n, i);
    FourParts([n % 256], Rows(n, n, size, index), SignatureBlocks(sigs, n), sigs[0].message, 11 * i, 85 * i);
  }

  /** A row and a block, found in the data made of the four parts. */
  lemma FourParts(count: seq<byte>, rows: seq<byte>, blocks: seq<byte>, message: seq<byte>, r: nat, b: nat)
    requires |count| == 1 && r + 11 <= |rows| && b + 85 <= |blocks|
    ensures var data, start := count + rows + blocks + message, 1 + |rows|;
            && data[1 + r..1 + r + 11] == rows[r..r + 11]
            && data[start + b..start + b + 85] == blocks[b..b + 85]
            && data[start + |blocks|..] == message
  {
  }

  /** The four regions of the data: count, rows, blocks and message, one after another and nothing else. */
  lemma Regions(sigs: seq<SecpSignature>, index: byte)
    requires sigs != []
    ensures var n, data := |sigs|, Layout(sigs, index);
            && |data| == 1 + 96 * n + |sigs[0].message|
            && data[0] == n % 256
            && data[MessageOffset(n)..] == sigs[0].message
            && forall i :: 0 <= i < n ==>
                 && data[1 + 11 * i..1 + 11 * i + 11] == Row(n, i, |sigs[0].message|, index)
                 && data[BlockOffset(n, i)..BlockOffset(n, i) + 85] == Block(sigs[i])
  {
    var n, data, size := |sigs|, Layout(sigs, index), |sigs[0].message|;
    RegionsAt(sigs, index, 0);
    forall i | 0 <= i < n
      ensures data[1 + 11 * i..1 + 11 * i + 11] == Row(n, i, size, index)
      ensures data[BlockOffset(n, i)..BlockOffset(n, i) + 85] == Block(sigs[i])
    {
      RegionsAt(sigs, index, i);
    }
  }

  /** The fields of a block lie where its offset and the address offset say. */
  lemma BlockFields(data: seq<byte>, b: nat, s: SecpSignature)
    requires b + 85 <= |data| && data[b..b + 85] == Block(s)
    ensures data[b..b + 64] == s.signature && data[b + 64] == s.recoveryId && data[b + 65..b + 85] == s.ethAddress
  {
    var block := data[b..b + 85];
    assert data[b..b + 64] == block[..64];
    assert data[b + 64] == block[64];
    assert data[b + 65..b + 85] == block[65..85];
  }

  /** Row `i` leads to the `i`th signature and the shared message, every index byte being the one given. */
  lemma UnpacksEach(sigs: seq<SecpSignature>, index: byte, i: nat)
    requires sigs != [] && SameMessage(sigs) && Fits(sigs) && i < |sigs|
    ensures var n := |sigs|;
            UnpackOne(Layout(sigs, index), i) == Some((sigs[i],
              Offsets(BlockOffset(n, i), index, BlockOffset(n, i) + 65, index,
                      MessageOffset(n), |sigs[0].message|, index)))
  {
    var n, data := |sigs|, Layout(sigs, index);
    RegionsAt(sigs, index, i);
    RowReads(n, i, |sigs[0].message|, index);
    BlockFields(data, BlockOffset(n, i), sigs[i]);
    assert data[MessageOffset(n)..MessageOffset(n) + |sigs[0].message|] == data[MessageOffset(n)..];
  }

  lemma {:induction false} UnpacksFrom(sigs: seq<SecpSignature>, index: byte, count: nat, i: nat)
    requires sigs != [] && SameMessage(sigs) && Fits(sigs) && i <= count <= |sigs|
    ensures UnpackFrom(Layout(sigs, index), count, i) == Some(sigs[i..count])
    decreases count - i
  {
    if i < count {
      UnpacksEach(sigs, index, i);
      UnpacksFrom(sigs, index, count, i + 1);
      assert sigs[i..count] == [sigs[i]] + sigs[i + 1..count];
    }
  }

  lemma CountByte(sigs: seq<SecpSignature>, index: byte)
    requires sigs != []
    ensures |Layout(sigs, index)| > 0 && Layout(sigs, index)[0] == |sigs| % 256
  {
  }

  /** The reader gets back the signatures up to the count byte, which is the count modulo 256. */
  lemma UnpacksCounted(sigs: seq<SecpSignature>, index: byte)
    requires sigs != [] && SameMessage(sigs) && Fits(sigs)
    ensures Unpack(Layout(sigs, index)) == Some(sigs[..|sigs| % 256])
  {
    CountByte(sigs, index);
    UnpacksFrom(sigs, index, |sigs| % 256, 0);
    assert sigs[0..|sigs| % 256] == sigs[..|sigs| % 256];
  }

  /** So it gets back all of them exactly when there are at most 255. */
  lemma Unpacks(sigs: seq<SecpSignature>, index: byte)
    requires sigs != [] && SameMessage(sigs) && Fits(sigs)
    ensures Unpack(Layout(sigs, index)) == Some(sigs) <==> |sigs| <= 255
  {
    UnpacksCounted(sigs, index);
    AllCounted(sigs);
  }

  lemma AllCounted(sigs: seq<SecpSignature>)
    ensures sigs[..|sigs| % 256] == sigs <==> |sigs| <= 255
  {
    if |sigs| > 255 {
      assert |sigs[..|sigs| % 256]| < |sigs|;
    }
  }

  /** Some lists that pack are too long for the count byte: a signature repeated 256 times reads back as none. */
  lemma CountWraps(s: SecpSignature, index: byte)
    requires s.message == []
    ensures var sigs := seq(256, _ => s);
            SameMessage(sigs) && Fits(sigs) && Unpack(Layout(sigs, index)) == Some([])
  {
    var sigs: seq<SecpSignature> := seq(256, _ => s);
    UnpacksCounted(sigs, index);
  }
}
