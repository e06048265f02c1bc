/**
 Assembling the two instructions of a consensus update: the signatures for the secp256k1 precompile, and the values
 with the accounts of the feeds, the oracles and their statistics.
 */
module ConsensusUpdate {
  import opened Wrappers
  import opened Bytes
  import opened LookupTable
  import opened FeedUpdate
  import Secp256k1

  datatype MedianResponse = MedianResponse(value: string, feedHash: string)

  /** An oracle's answer: the key it names itself, and those named in its feed responses, of which the first is used. */
  datatype ConsensusOracleResponse = ConsensusOracleResponse(
    oraclePubkey: string, feedOraclePubkeys: seq<string>, ethAddress: string, signature: string, checksum: string,
    recoveryId: i32)

  datatype RequestedFeed = RequestedFeed(key: Pubkey, feedHash: Pubkey)

  /** The accounts a consensus update names itself, in the order of `to_account_metas`. */
  datatype ConsensusAccounts = ConsensusAccounts(
    queue: Pubkey, programState: Pubkey, recentSlothashes: Pubkey, payer: Pubkey, systemProgram: Pubkey,
    rewardVault: Pubkey, tokenProgram: Pubkey, tokenMint: Pubkey, instructionsSysvar: Pubkey)
  {
    function ToAccountMetas(): (metas: seq<AccountMeta>)
      ensures |metas| == FIXED_ACCOUNTS
    {
      [Readonly(queue), Readonly(programState), Readonly(recentSlothashes), AccountMeta(payer, true, true),
       Readonly(systemProgram), Writable(rewardVault), Readonly(tokenProgram), Readonly(tokenMint),
       Readonly(instructionsSysvar)]
    }
  }

  datatype ConsensusInstruction = ConsensusInstruction(slot: u64, values: seq<i128>, accounts: seq<AccountMeta>)

  // ----- feed hashes as text -----

  function HexDigit(n: nat): (c: char)
    requires n < 16
  {
    if n < 10 then ('0' as int + n) as char else ('a' as int + n - 10) as char
  }

  function HexEncode(bs: seq<byte>): (s: string)
    ensures |s| == 2 * |bs|
  {
    if bs == [] then "" else [HexDigit(bs[0] / 16), HexDigit(bs[0] % 16)] + HexEncode(bs[1..])
  }

  /** Every byte is written as its two lower-case hexadecimal digits, the high one first. */
  lemma {:induction false} HexDigits(bs: seq<byte>, i: nat)
    requires i < |bs|
    ensures HexEncode(bs)[2 * i] == "0123456789abcdef"[bs[i] / 16]
    ensures HexEncode(bs)[2 * i + 1] == "0123456789abcdef"[bs[i] % 16]
  {
    if i == 0 {
      DigitAt(bs[0] / 16);
      DigitAt(bs[0] % 16);
    } else {
      HexDigits(bs[1..], i - 1);
    }
  }

  lemma DigitAt(n: nat)
    requires n < 16
    ensures HexDigit(n) == "0123456789abcdef"[n]
  {
  }

  lemma {:induction false} HexInjective(a: seq<byte>, b: seq<byte>)
    requires HexEncode(a) == HexEncode(b)
    ensures a == b
  {
    assert |a| == |b|;
    if a != [] {
      var s, t := HexEncode(a), HexEncode(b);
      assert s[0] == t[0] && s[1] == t[1];
      assert s[2..] == HexEncode(a[1..]) && t[2..] == HexEncode(b[1..]);
      HexInjective(a[1..], b[1..]);
      assert a[0] == 16 * (a[0] / 16) + a[0] % 16 && b[0] == 16 * (b[0] / 16) + b[0] % 16;
      assert a == [a[0]] + a[1..] && b == [b[0]] + b[1..];
    }
  }

  // ----- matching medians with feeds -----

  function DefaultPubkey(): Pubkey { seq(32, _ => 0) }

  /** The first feed whose hash reads like this, or the default key. */
  function FeedOf(feeds: seq<RequestedFeed>, hash: string): Pubkey {
    if feeds == [] then DefaultPubkey()
    else if HexEncode(feeds[0].feedHash) == hash then feeds[0].key
    else FeedOf(feeds[1..], hash)
  }

  /** The place of the first feed with the hash of feed `k`. */
  function FirstLike(feeds: seq<RequestedFeed>, k: nat): (i: nat)
    requires k < |feeds|
    ensures i <= k && feeds[i].feedHash == feeds[k].feedHash
    ensures forall j :: 0 <= j < i ==> feeds[j].feedHash != feeds[k].feedHash
  {
    if feeds[0].feedHash == feeds[k].feedHash then 0 else FirstLike(feeds[1..], k - 1) + 1
  }

  /** A median computed for a feed is matched with the first feed of that hash, wherever it stands. */
  lemma {:induction false} MatchesFirstLike(feeds: seq<RequestedFeed>, k: nat)
    requires k < |feeds|
    ensures FeedOf(feeds, HexEncode(feeds[k].feedHash)) == feeds[FirstLike(feeds, k)].key
    decreases |feeds|
  {
    if HexEncode(feeds[0].feedHash) == HexEncode(feeds[k].feedHash) {
      HexInjective(feeds[0].feedHash, feeds[k].feedHash);
    } else {
      MatchesFirstLike(feeds[1..], k - 1);
    }
  }

  /** Feeds that share a hash have one key. */
  predicate SharedHashesAgree(feeds: seq<RequestedFeed>) {
    forall i, j :: 0 <= i < j < |feeds| && feeds[i].feedHash == feeds[j].feedHash ==> feeds[i].key == feeds[j].key
  }

  /** Every feed is matched with itself exactly when no two feeds with other keys share a hash. */
  lemma MatchesOwnFeedExactly(feeds: seq<RequestedFeed>)
    ensures (forall k :: 0 <= k < |feeds| ==> FeedOf(feeds, HexEncode(feeds[k].feedHash)) == feeds[k].key) <==>
            SharedHashesAgree(feeds)
  {
    forall k | 0 <= k < |feeds|
      ensures FeedOf(feeds, HexEncode(feeds[k].feedHash)) == feeds[FirstLike(feeds, k)].key
    {
      MatchesFirstLike(feeds, k);
    }
    forall i, j | 0 <= i < j < |feeds| && feeds[i].feedHash == feeds[j].feedHash
      ensures FeedOf(feeds, HexEncode(feeds[i].feedHash)) == FeedOf(feeds, HexEncode(feeds[j].feedHash))
    {
    }
  }

  /** A hash of no feed is matched with the default key, which is all zeros. */
  lemma {:induction false} MatchesNone(feeds: seq<RequestedFeed>, hash: string)
    requires forall i :: 0 <= i < |feeds| ==> HexEncode(feeds[i].feedHash) != hash
    ensures forall i :: 0 <= i < 32 ==> FeedOf(feeds, hash)[i] == 0
    decreases |feeds|
  {
    if feeds != [] {
      MatchesNone(feeds[1..], hash);
    }
  }

  // ----- the decoded response -----

  function MedianValue(d: Decoders, m: MedianResponse): i128 {
    var v := d.parseI128(m.value);
    if v.Some? then v.value else I128_MAX
  }

  function OracleKey(d: Decoders, x: ConsensusOracleResponse): Result<Pubkey, UpdateError> {
    if x.feedOraclePubkeys == [] then Err(Panics) else ReadPubkey(d.hex(x.feedOraclePubkeys[0]))
  }

  function ReadSignature(d: Decoders, x: ConsensusOracleResponse): Result<Secp256k1.SecpSignature, UpdateError> {
    var address, signature, message := d.hex(x.ethAddress), d.base64(x.signature), d.base64(x.checksum);
    if address.None? || |address.value| != 20 || signature.None? || |signature.value| != 64 ||
      message.None? then Err(Panics)
    else Ok(Secp256k1.Bundle(signature.value, x.recoveryId % 256, address.value, message.value))
  }

  function OracleKeysOf(d: Decoders, xs: seq<ConsensusOracleResponse>): (r: Result<seq<Pubkey>, UpdateError>)
    ensures r.Ok? <==> forall i :: 0 <= i < |xs| ==> OracleKey(d, xs[i]).Ok?
    ensures r.Ok? ==> |r.value| == |xs| && forall i :: 0 <= i < |xs| ==> OracleKey(d, xs[i]) == Ok(r.value[i])
  {
    if xs == [] then Ok([]) else
    var key :- OracleKey(d, xs[0]);
    var rest :- OracleKeysOf(d, xs[1..]);
    assert forall i :: 1 <= i < |xs| ==> xs[i] == xs[1..][i - 1];
    Ok([key] + rest)
  }

  function SignaturesOf(d: Decoders, xs: seq<ConsensusOracleResponse>)
    : (r: Result<seq<Secp256k1.SecpSignature>, UpdateError>)
    ensures r.Ok? <==> forall i :: 0 <= i < |xs| ==> ReadSignature(d, xs[i]).Ok?
    ensures r.Ok? ==> |r.value| == |xs| && forall i :: 0 <= i < |xs| ==> ReadSignature(d, xs[i]) == Ok(r.value[i])
  {
    if xs == [] then Ok([]) else
    var signature :- ReadSignature(d, xs[0]);
    var rest :- SignaturesOf(d, xs[1..]);
    assert forall i :: 1 <= i < |xs| ==> xs[i] == xs[1..][i - 1];
    Ok([signature] + rest)
  }

  function ValuesOf(d: Decoders, ms: seq<MedianResponse>): (s: seq<i128>)
    ensures |s| == |ms| && forall i :: 0 <= i < |ms| ==> s[i] == MedianValue(d, ms[i])
  {
    seq(|ms|, i requires 0 <= i < |ms| => MedianValue(d, ms[i]))
  }

  function FeedKeysOf(feeds: seq<RequestedFeed>, ms: seq<MedianResponse>): (s: seq<Pubkey>)
    ensures |s| == |ms| && forall i :: 0 <= i < |ms| ==> s[i] == FeedOf(feeds, ms[i].feedHash)
  {
    seq(|ms|, i requires 0 <= i < |ms| => FeedOf(feeds, ms[i].feedHash))
  }

  // ----- the instructions -----

  function FeedMetas(keys: seq<Pubkey>): (s: seq<AccountMeta>)
    ensures |s| == |keys| && forall i :: 0 <= i < |keys| ==> s[i] == Writable(keys[i])
  {
    seq(|keys|, i requires 0 <= i < |keys| => Writable(keys[i]))
  }

  /** Every oracle followed by its statistics account. */
  function OraclePairs(d: Decoders, keys: seq<Pubkey>): (s: seq<AccountMeta>)
    ensures |s| == 2 * |keys|
  {
    if keys == [] then []
    else
      var last := keys[|keys| - 1];
      OraclePairs(d, keys[..|keys| - 1]) + [Readonly(last), Writable(d.statsKey(last))]
  }

  lemma {:induction false} PairAt(d: Decoders, keys: seq<Pubkey>, j: nat)
    requires j < |keys|
    ensures OraclePairs(d, keys)[2 * j] == Readonly(keys[j])
    ensures OraclePairs(d, keys)[2 * j + 1] == Writable(d.statsKey(keys[j]))
    decreases |keys|
  {
    if j < |keys| - 1 {
      PairAt(d, keys[..|keys| - 1], j);
    }
  }

  /** The loops that attach the feeds and then the oracles with their statistics. */
  method RemainingAccounts(d: Decoders, feedPubkeys: seq<Pubkey>, oracleKeys: seq<Pubkey>)
    returns (accounts: seq<AccountMeta>)
    ensures accounts == FeedMetas(feedPubkeys) + OraclePairs(d, oracleKeys)
  {
    accounts := [];
    for i := 0 to |feedPubkeys|
      invariant accounts == FeedMetas(feedPubkeys)[..i]
    {
      accounts := accounts + [Writable(feedPubkeys[i])];
    }
    for j := 0 to |oracleKeys|
      invariant accounts == FeedMetas(feedPubkeys) + OraclePairs(d, oracleKeys[..j])
    {
      assert oracleKeys[..j + 1][..j] == oracleKeys[..j];
      accounts := accounts + [Readonly(oracleKeys[j])];
      accounts := accounts + [Writable(d.statsKey(oracleKeys[j]))];
    }
    assert oracleKeys[..|oracleKeys|] == oracleKeys;
  }

  predicate Decodes(bytes: Option<seq<byte>>, size: nat) {
    bytes.Some? && |bytes.value| == size
  }

  /** The answer has a feed response, and all that is read of it decodes to its size. */
  predicate Readable(d: Decoders, x: ConsensusOracleResponse) {
    && x.feedOraclePubkeys != [] && Decodes(d.hex(x.feedOraclePubkeys[0]), 32)
    && Decodes(d.hex(x.ethAddress), 20) && Decodes(d.base64(x.signature), 64) && d.base64(x.checksum).Some?
  }

  /** Each answer is readable, there is one, all sign the same checksum, and the offsets and its size fit 16 bits. */
  predicate Assembles(d: Decoders, xs: seq<ConsensusOracleResponse>) {
    && xs != [] && (forall i :: 0 <= i < |xs| ==> Readable(d, xs[i]))
    && (forall i :: 0 <= i < |xs| ==> d.base64(xs[i].checksum) == d.base64(xs[0].checksum))
    && 1 + 96 * |xs| <= 65535 && |d.base64(xs[0].checksum).value| <= 65535
  }

  lemma ReadsExactly(d: Decoders, x: ConsensusOracleResponse)
    ensures OracleKey(d, x).Ok? && ReadSignature(d, x).Ok? <==> Readable(d, x)
    ensures Readable(d, x) ==>
              && d.hex(x.feedOraclePubkeys[0]) == Some(OracleKey(d, x).value)
              && SignatureOf(d, x, ReadSignature(d, x).value)
  {
  }

  /** Signature, address and message as decoded, and the low byte of the recovery id. */
  predicate SignatureOf(d: Decoders, x: ConsensusOracleResponse, s: Secp256k1.SecpSignature) {
    && d.base64(x.signature) == Some(s.signature) && d.hex(x.ethAddress) == Some(s.ethAddress)
    && d.base64(x.checksum) == Some(s.message) && (s.recoveryId - x.recoveryId) % 256 == 0
  }

  /** The assembly goes through exactly for such answers. */
  lemma AssemblesExactly(d: Decoders, xs: seq<ConsensusOracleResponse>)
    ensures OracleKeysOf(d, xs).Ok? && SignaturesOf(d, xs).Ok? && Packable(SignaturesOf(d, xs).value) <==>
            Assembles(d, xs)
  {
    var (sigs, keys) := (SignaturesOf(d, xs), OracleKeysOf(d, xs));
    forall i | 0 <= i < |xs|
      ensures OracleKey(d, xs[i]).Ok? && ReadSignature(d, xs[i]).Ok? <==> Readable(d, xs[i])
      ensures Readable(d, xs[i]) ==> SignatureOf(d, xs[i], ReadSignature(d, xs[i]).value)
    {
      ReadsExactly(d, xs[i]);
    }
    if sigs.Ok? && keys.Ok? {
      assert forall i :: 0 <= i < |xs| ==> d.base64(xs[i].checksum) == Some(sigs.value[i].message);
    }
  }

  predicate Packable(sigs: seq<Secp256k1.SecpSignature>) {
    sigs != [] && Secp256k1.SameMessage(sigs) && Secp256k1.Fits(sigs)
  }

  /** The two instructions for these answers; `named` are the accounts the update names itself. */
  ghost predicate Assembled(d: Decoders, feeds: seq<RequestedFeed>, medians: seq<MedianResponse>,
                            oracles: seq<ConsensusOracleResponse>,
                            named: seq<AccountMeta>, secpData: seq<byte>, ix: ConsensusInstruction) {
    var (sigs, keys) := (SignaturesOf(d, oracles), OracleKeysOf(d, oracles));
    && sigs.Ok? && keys.Ok? && Packable(sigs.value)
    && secpData == Secp256k1.Layout(sigs.value, 0)
    && ix.values == ValuesOf(d, medians)
    && ix.accounts == named + (FeedMetas(FeedKeysOf(feeds, medians)) + OraclePairs(d, keys.value))
  }

  /** The assembly in `fetch_update_consensus_ix`, after the gateway has answered. */
  method ConsensusIxs(d: Decoders, slot: u64, feeds: seq<RequestedFeed>, medians: seq<MedianResponse>,
                      oracles: seq<ConsensusOracleResponse>, accounts: ConsensusAccounts)
    returns (r: Result<(seq<byte>, ConsensusInstruction), UpdateError>)
    ensures r.Ok? <==> Assembles(d, oracles)
    ensures r.Err? ==> r.error == Panics
    ensures r.Ok? ==> r.value.1.slot == slot
    ensures r.Ok? ==> Assembled(d, feeds, medians, oracles, accounts.ToAccountMetas(), r.value.0, r.value.1)
  {
    AssemblesExactly(d, oracles);
    var consensusValues := ValuesOf(d, medians);
    var oracleKeys := OracleKeysOf(d, oracles);
    if oracleKeys.Err? { return Err(Panics); }
    var secpSignatures := SignaturesOf(d, oracles);
    if secpSignatures.Err? { return Err(Panics); }
    var secpData := Secp256k1.Pack(secpSignatures.value, 0);
    if secpData.Err? { return Err(Panics); }
    var feedPubkeys := FeedKeysOf(feeds, medians);
    var remainingAccounts := RemainingAccounts(d, feedPubkeys, oracleKeys.value);
    var ix := ConsensusInstruction(slot, consensusValues, accounts.ToAccountMetas() + remainingAccounts);
    return Ok((secpData.value, ix));
  }

  // ----- what the program on chain finds -----

  datatype Signer = Signer(signature: Secp256k1.SecpSignature, oracle: AccountMeta, stats: AccountMeta)

  function SignerAt(sigs: seq<Secp256k1.SecpSignature>, ix: ConsensusInstruction, j: nat): Signer
    requires j < |sigs| && |ix.accounts| == FIXED_ACCOUNTS + |ix.values| + 2 * |sigs|
  {
    var place := FIXED_ACCOUNTS + |ix.values| + 2 * j;
    Signer(sigs[j], ix.accounts[place], ix.accounts[place + 1])
  }

  function SignersFrom(sigs: seq<Secp256k1.SecpSignature>, ix: ConsensusInstruction): (s: seq<Signer>)
    requires |ix.accounts| == FIXED_ACCOUNTS + |ix.values| + 2 * |sigs|
    ensures |s| == |sigs| && forall j :: 0 <= j < |sigs| ==> s[j] == SignerAt(sigs, ix, j)
  {
    seq(|sigs|, j requires 0 <= j < |sigs| => SignerAt(sigs, ix, j))
  }

  /** The precompile's signatures with the oracle accounts that stand in the same places. */
  function Signers(secpData: seq<byte>, ix: ConsensusInstruction): Option<seq<Signer>> {
    var sigs :- Secp256k1.Unpack(secpData);
    if |ix.accounts| != FIXED_ACCOUNTS + |ix.values| + 2 * |sigs| then None else Some(SignersFrom(sigs, ix))
  }

  /** The signature of one oracle's answer, with that oracle read-only and its statistics writable. */
  ghost predicate SignerOf(d: Decoders, x: ConsensusOracleResponse, s: Signer) {
    && Readable(d, x) && SignatureOf(d, x, s.signature)
    && s.oracle == AccountMeta(d.hex(x.feedOraclePubkeys[0]).value, false, false)
    && s.stats == AccountMeta(d.statsKey(d.hex(x.feedOraclePubkeys[0]).value), false, true)
  }

  lemma TailAt<T>(a: seq<T>, b: seq<T>, c: seq<T>, k: nat)
    requires k < |c|
    ensures (a + (b + c))[|a| + |b| + k] == c[k]
  {
  }

  lemma SignerAligned(d: Decoders, feeds: seq<RequestedFeed>, medians: seq<MedianResponse>,
                      oracles: seq<ConsensusOracleResponse>,
                      named: seq<AccountMeta>, secpData: seq<byte>, ix: ConsensusInstruction, j: nat)
    requires |named| == FIXED_ACCOUNTS && Assembled(d, feeds, medians, oracles, named, secpData, ix) && j < |oracles|
    ensures |ix.accounts| == FIXED_ACCOUNTS + |ix.values| + 2 * |oracles|
    ensures SignerOf(d, oracles[j], SignerAt(SignaturesOf(d, oracles).value, ix, j))
  {
    var feedMetas, keys := FeedMetas(FeedKeysOf(feeds, medians)), OracleKeysOf(d, oracles).value;
    PairAt(d, keys, j);
    TailAt(named, feedMetas, OraclePairs(d, keys), 2 * j);
    TailAt(named, feedMetas, OraclePairs(d, keys), 2 * j + 1);
    ReadsExactly(d, oracles[j]);
    assert OracleKey(d, oracles[j]) == Ok(keys[j]);
    assert ReadSignature(d, oracles[j]) == Ok(SignaturesOf(d, oracles).value[j]);
  }

  /** Row `j` says that its signature, address and message are data of the instruction at this index. */
  predicate InInstruction(secpData: seq<byte>, j: nat, index: byte) {
    var one := Secp256k1.UnpackOne(secpData, j);
    && one.Some? && one.value.1.signatureInstructionIndex == index
    && one.value.1.ethAddressInstructionIndex == index && one.value.1.messageInstructionIndex == index
  }

  /**
   Read back through the precompile's own layout, up to 255 signatures stand each with the account of the oracle
   that made it, all over one message and all to be found in instruction 0.
   */
  lemma SignersAligned(d: Decoders, feeds: seq<RequestedFeed>, medians: seq<MedianResponse>,
                       oracles: seq<ConsensusOracleResponse>,
                       named: seq<AccountMeta>, secpData: seq<byte>, ix: ConsensusInstruction)
    requires |named| == FIXED_ACCOUNTS && Assembled(d, feeds, medians, oracles, named, secpData, ix) && |oracles| <= 255
    ensures Signers(secpData, ix).Some? && |Signers(secpData, ix).value| == |oracles|
    ensures forall j :: 0 <= j < |oracles| ==> SignerOf(d, oracles[j], Signers(secpData, ix).value[j])
    ensures forall j :: 0 <= j < |oracles| ==>
              Signers(secpData, ix).value[j].signature.message == Signers(secpData, ix).value[0].signature.message
    ensures forall j :: 0 <= j < |oracles| ==> InInstruction(secpData, j, 0)
  {
    var sigs := SignaturesOf(d, oracles).value;
    Secp256k1.Unpacks(sigs, 0);
    SignerAligned(d, feeds, medians, oracles, named, secpData, ix, 0);
    assert Signers(secpData, ix) == Some(SignersFrom(sigs, ix));
    forall j | 0 <= j < |oracles|
      ensures SignerOf(d, oracles[j], SignersFrom(sigs, ix)[j])
      ensures SignersFrom(sigs, ix)[j].signature.message == sigs[0].message
      ensures InInstruction(secpData, j, 0)
    {
      Secp256k1.UnpacksEach(sigs, 0, j);
      SignerAligned(d, feeds, medians, oracles, named, secpData, ix, j);
    }
  }

  /** A signature stands with the accounts of the oracle that its answer names itself. */
  ghost predicate StandsWithOwnKey(d: Decoders, x: ConsensusOracleResponse, s: Signer) {
    var own := d.hex(x.oraclePubkey);
    Decodes(own, 32) && s.oracle.key == own.value && s.stats.key == d.statsKey(own.value)
  }

  /** The key that an answer names itself and the one in its first feed response decode alike. */
  predicate NamesOneOracle(d: Decoders, x: ConsensusOracleResponse) {
    x.feedOraclePubkeys != [] && d.hex(x.feedOraclePubkeys[0]) == d.hex(x.oraclePubkey)
  }

  lemma OwnKeyExactly(d: Decoders, x: ConsensusOracleResponse, s: Signer)
    requires SignerOf(d, x, s)
    ensures StandsWithOwnKey(d, x, s) <==> NamesOneOracle(d, x)
  {
    assert d.hex(x.feedOraclePubkeys[0]).Some? && s.oracle.key == d.hex(x.feedOraclePubkeys[0]).value;
  }

  /** Every signature stands with the oracle its answer names itself exactly when every answer names one oracle. */
  lemma OwnKeysExactly(d: Decoders, feeds: seq<RequestedFeed>, medians: seq<MedianResponse>,
                       oracles: seq<ConsensusOracleResponse>,
                       named: seq<AccountMeta>, secpData: seq<byte>, ix: ConsensusInstruction)
    requires |named| == FIXED_ACCOUNTS && Assembled(d, feeds, medians, oracles, named, secpData, ix) && |oracles| <= 255
    ensures Signers(secpData, ix).Some? && |Signers(secpData, ix).value| == |oracles|
    ensures (forall j :: 0 <= j < |oracles| ==> StandsWithOwnKey(d, oracles[j], Signers(secpData, ix).value[j])) <==>
            (forall j :: 0 <= j < |oracles| ==> NamesOneOracle(d, oracles[j]))
  {
    SignersAligned(d, feeds, medians, oracles, named, secpData, ix);
    forall j | 0 <= j < |oracles|
      ensures StandsWithOwnKey(d, oracles[j], Signers(secpData, ix).value[j]) <==> NamesOneOracle(d, oracles[j])
    {
      OwnKeyExactly(d, oracles[j], Signers(secpData, ix).value[j]);
    }
  }

  /** Median `i` was computed for feed `k`, as far as its hash tells. */
  predicate For(feeds: seq<RequestedFeed>, medians: seq<MedianResponse>, i: nat, k: nat)
    requires i < |medians| && k < |feeds|
  {
    medians[i].feedHash == HexEncode(feeds[k].feedHash)
  }

  /** Two feeds that some median could be for have one key. */
  predicate MediansAgree(feeds: seq<RequestedFeed>, medians: seq<MedianResponse>) {
    forall i, j, k :: 0 <= i < |medians| && 0 <= j < |feeds| && 0 <= k < |feeds| ==>
      For(feeds, medians, i, j) && For(feeds, medians, i, k) ==> feeds[j].key == feeds[k].key
  }

  /** The number that the median's text denotes, or the largest i128. */
  predicate ValueOf(d: Decoders, m: MedianResponse, value: i128) {
    value == match d.parseI128(m.value) case Some(v) => v case None => 0x7FFF_FFFF_FFFF_FFFF_FFFF_FFFF_FFFF_FFFF
  }

  lemma ValueAt(d: Decoders, feeds: seq<RequestedFeed>, medians: seq<MedianResponse>,
                oracles: seq<ConsensusOracleResponse>,
                named: seq<AccountMeta>, secpData: seq<byte>, ix: ConsensusInstruction, i: nat)
    requires |named| == FIXED_ACCOUNTS && Assembled(d, feeds, medians, oracles, named, secpData, ix) && i < |medians|
    ensures |ix.values| == |medians| && ValueOf(d, medians[i], ix.values[i])
    ensures |ix.accounts| >= FIXED_ACCOUNTS + |medians|
    ensures ix.accounts[FIXED_ACCOUNTS + i] == AccountMeta(FeedOf(feeds, medians[i].feedHash), false, true)
  {
  }

  /**
   Every value stands with the account of the feed it was computed for exactly when no median could be for two feeds
   with other keys; so for all medians when no two feeds with other keys share a hash.
   */
  lemma ValuesAligned(d: Decoders, feeds: seq<RequestedFeed>, medians: seq<MedianResponse>,
                      oracles: seq<ConsensusOracleResponse>,
                      named: seq<AccountMeta>, secpData: seq<byte>, ix: ConsensusInstruction)
    requires |named| == FIXED_ACCOUNTS && Assembled(d, feeds, medians, oracles, named, secpData, ix)
    ensures |ix.values| == |medians| && forall i :: 0 <= i < |medians| ==> ValueOf(d, medians[i], ix.values[i])
    ensures |ix.accounts| >= FIXED_ACCOUNTS + |medians|
    ensures (forall i, k :: 0 <= i < |medians| && 0 <= k < |feeds| && For(feeds, medians, i, k) ==>
                              ix.accounts[FIXED_ACCOUNTS + i] == AccountMeta(feeds[k].key, false, true)) <==>
            MediansAgree(feeds, medians)
    ensures SharedHashesAgree(feeds) ==> MediansAgree(feeds, medians)
  {
    forall i | 0 <= i < |medians|
      ensures ix.accounts[FIXED_ACCOUNTS + i] == AccountMeta(FeedOf(feeds, medians[i].feedHash), false, true)
      ensures ValueOf(d, medians[i], ix.values[i])
    {
      ValueAt(d, feeds, medians, oracles, named, secpData, ix, i);
    }
    forall i, k | 0 <= i < |medians| && 0 <= k < |feeds| && For(feeds, medians, i, k)
      ensures FeedOf(feeds, medians[i].feedHash) == feeds[FirstLike(feeds, k)].key
      ensures For(feeds, medians, i, FirstLike(feeds, k))
    {
      MatchesFirstLike(feeds, k);
    }
    if SharedHashesAgree(feeds) {
      SharedAgree(feeds, medians);
    }
  }

  lemma SharedAgree(feeds: seq<RequestedFeed>, medians: seq<MedianResponse>)
    requires SharedHashesAgree(feeds)
    ensures MediansAgree(feeds, medians)
  {
    forall i, j, k | 0 <= i < |medians| && 0 <= j < |feeds| && 0 <= k < |feeds| &&
                     For(feeds, medians, i, j) && For(feeds, medians, i, k)
      ensures feeds[j].key == feeds[k].key
    {
      HexInjective(feeds[j].feedHash, feeds[k].feedHash);
    }
  }

  /** Two feeds with the same jobs share a hash, and the values of both go to the account of the first. */
  lemma SharedHashMisplaces(d: Decoders, a: Pubkey, b: Pubkey, hash: Pubkey, v: string, w: string,
                            oracles: seq<ConsensusOracleResponse>,
                            named: seq<AccountMeta>, secpData: seq<byte>, ix: ConsensusInstruction)
    requires a != b && |named| == FIXED_ACCOUNTS
    ensures var feeds := [RequestedFeed(a, hash), RequestedFeed(b, hash)];
            var medians := [MedianResponse(v, HexEncode(hash)), MedianResponse(w, HexEncode(hash))];
            Assembled(d, feeds, medians, oracles, named, secpData, ix) ==>
              && |ix.accounts| >= FIXED_ACCOUNTS + 2
              && ix.accounts[FIXED_ACCOUNTS] == ix.accounts[FIXED_ACCOUNTS + 1] == AccountMeta(a, false, true)
  {
    var feeds := [RequestedFeed(a, hash), RequestedFeed(b, hash)];
    var medians := [MedianResponse(v, HexEncode(hash)), MedianResponse(w, HexEncode(hash))];
    if Assembled(d, feeds, medians, oracles, named, secpData, ix) {
      ValueAt(d, feeds, medians, oracles, named, secpData, ix, 0);
      ValueAt(d, feeds, medians, oracles, named, secpData, ix, 1);
    }
  }

  /**
   In the whole instruction only the payer signs, and only the payer, the reward vault, the feeds and the oracles'
   statistics can be written; the accounts the update names itself stand in the order of the program.
   */
  lemma ConsensusRoles(d: Decoders, feeds: seq<RequestedFeed>, medians: seq<MedianResponse>,
                       oracles: seq<ConsensusOracleResponse>,
                       accounts: ConsensusAccounts, secpData: seq<byte>, ix: ConsensusInstruction)
    requires Assembled(d, feeds, medians, oracles, accounts.ToAccountMetas(), secpData, ix)
    ensures |ix.accounts| == 9 + |medians| + 2 * |oracles|
    ensures forall k :: 0 <= k < |ix.accounts| ==>
              && (ix.accounts[k].signer <==> k == 3)
              && (ix.accounts[k].writable <==>
                  k in {3, 5} || 9 <= k < 9 + |medians| || (k >= 9 + |medians| && (k - 9 - |medians|) % 2 == 1))
    ensures ix.accounts[0].key == accounts.queue && ix.accounts[1].key == accounts.programState
    ensures ix.accounts[2].key == accounts.recentSlothashes && ix.accounts[3].key == accounts.payer
    ensures ix.accounts[4].key == accounts.systemProgram && ix.accounts[5].key == accounts.rewardVault
    ensures ix.accounts[6].key == accounts.tokenProgram && ix.accounts[7].key == accounts.tokenMint
    ensures ix.accounts[8].key == accounts.instructionsSysvar
  {
    SignersPlaced(d, feeds, medians, oracles, accounts.ToAccountMetas(), secpData, ix);
    NamedRoles(accounts, ix);
    OtherRoles(d, feeds, medians, oracles, accounts.ToAccountMetas(), secpData, ix);
  }

  lemma NamedRoles(accounts: ConsensusAccounts, ix: ConsensusInstruction)
    requires |ix.accounts| >= FIXED_ACCOUNTS && ix.accounts[..FIXED_ACCOUNTS] == accounts.ToAccountMetas()
    ensures forall k :: 0 <= k < 9 ==>
              (ix.accounts[k].signer <==> k == 3) && (ix.accounts[k].writable <==> k in {3, 5})
    ensures ix.accounts[0].key == accounts.queue && ix.accounts[1].key == accounts.programState
    ensures ix.accounts[2].key == accounts.recentSlothashes && ix.accounts[3].key == accounts.payer
    ensures ix.accounts[4].key == accounts.systemProgram && ix.accounts[5].key == accounts.rewardVault
    ensures ix.accounts[6].key == accounts.tokenProgram && ix.accounts[7].key == accounts.tokenMint
    ensures ix.accounts[8].key == accounts.instructionsSysvar
  {
    assert forall k :: 0 <= k < 9 ==> ix.accounts[k] == accounts.ToAccountMetas()[k];
  }

  lemma OtherRoles(d: Decoders, feeds: seq<RequestedFeed>, medians: seq<MedianResponse>,
                   oracles: seq<ConsensusOracleResponse>,
                   named: seq<AccountMeta>, secpData: seq<byte>, ix: ConsensusInstruction)
    requires |named| == FIXED_ACCOUNTS && Assembled(d, feeds, medians, oracles, named, secpData, ix)
    ensures forall k :: 9 <= k < |ix.accounts| ==>
              && !ix.accounts[k].signer
              && (ix.accounts[k].writable <==> k < 9 + |medians| || (k - 9 - |medians|) % 2 == 1)
  {
    SignersPlaced(d, feeds, medians, oracles, named, secpData, ix);
    forall i | 0 <= i < |medians|
      ensures FeedRole(ix, i)
    {
      FeedPlaced(d, feeds, medians, oracles, named, secpData, ix, i);
    }
    forall j | 0 <= j < |oracles|
      ensures OracleRole(ix, |medians|, j)
    {
      OraclePlaced(d, feeds, medians, oracles, named, secpData, ix, j);
    }
    AllRoles(ix, |medians|, |oracles|);
  }

  lemma FeedPlaced(d: Decoders, feeds: seq<RequestedFeed>, medians: seq<MedianResponse>,
                   oracles: seq<ConsensusOracleResponse>,
                   named: seq<AccountMeta>, secpData: seq<byte>, ix: ConsensusInstruction, i: nat)
    requires |named| == FIXED_ACCOUNTS && Assembled(d, feeds, medians, oracles, named, secpData, ix) && i < |medians|
    ensures FeedRole(ix, i)
  {
    SignersPlaced(d, feeds, medians, oracles, named, secpData, ix);
    ValueAt(d, feeds, medians, oracles, named, secpData, ix, i);
  }

  lemma OraclePlaced(d: Decoders, feeds: seq<RequestedFeed>, medians: seq<MedianResponse>,
                     oracles: seq<ConsensusOracleResponse>,
                     named: seq<AccountMeta>, secpData: seq<byte>, ix: ConsensusInstruction, j: nat)
    requires |named| == FIXED_ACCOUNTS && Assembled(d, feeds, medians, oracles, named, secpData, ix) && j < |oracles|
    ensures OracleRole(ix, |medians|, j)
  {
    SignersPlaced(d, feeds, medians, oracles, named, secpData, ix);
    SignerAligned(d, feeds, medians, oracles, named, secpData, ix, j);
  }

  predicate FeedRole(ix: ConsensusInstruction, i: nat) {
    9 + i < |ix.accounts| && !ix.accounts[9 + i].signer && ix.accounts[9 + i].writable
  }

  predicate OracleRole(ix: ConsensusInstruction, m: nat, j: nat) {
    var k := 9 + m + 2 * j;
    && k + 1 < |ix.accounts| && !ix.accounts[k].signer && !ix.accounts[k + 1].signer
    && !ix.accounts[k].writable && ix.accounts[k + 1].writable
  }

  lemma AllRoles(ix: ConsensusInstruction, m: nat, n: nat)
    requires |ix.accounts| == 9 + m + 2 * n
    requires (forall i :: 0 <= i < m ==> FeedRole(ix, i)) && forall j :: 0 <= j < n ==> OracleRole(ix, m, j)
    ensures forall k :: 9 <= k < |ix.accounts| ==>
              !ix.accounts[k].signer && (ix.accounts[k].writable <==> k < 9 + m || (k - 9 - m) % 2 == 1)
  {
    forall k | 9 <= k < |ix.accounts|
      ensures !ix.accounts[k].signer && (ix.accounts[k].writable <==> k < 9 + m || (k - 9 - m) % 2 == 1)
    {
      if k < 9 + m {
        assert FeedRole(ix, k - 9);
      } else {
        assert OracleRole(ix, m, (k - 9 - m) / 2);
      }
    }
  }

  lemma NamedRole(accounts: ConsensusAccounts, k: nat)
    requires k < FIXED_ACCOUNTS
    ensures accounts.ToAccountMetas()[k].signer <==> k == 3
    ensures accounts.ToAccountMetas()[k].writable <==> k in {3, 5}
  {
  }

  lemma SignersPlaced(d: Decoders, feeds: seq<RequestedFeed>, medians: seq<MedianResponse>,
                      oracles: seq<ConsensusOracleResponse>,
                      named: seq<AccountMeta>, secpData: seq<byte>, ix: ConsensusInstruction)
    requires |named| == FIXED_ACCOUNTS && Assembled(d, feeds, medians, oracles, named, secpData, ix)
    ensures |ix.accounts| == FIXED_ACCOUNTS + |medians| + 2 * |oracles| && ix.accounts[..FIXED_ACCOUNTS] == named
    ensures |ix.values| == |medians|
  {
  }
}
