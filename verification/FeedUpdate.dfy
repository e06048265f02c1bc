/**
 Assembling the instruction of a single-feed update: which submission goes with which oracle and which statistics
 account.
 */
module FeedUpdate {
  import opened Wrappers
  import opened Bytes
  import opened LookupTable
  import opened SwitchboardDecimals

  const I128_MAX := I128_LIMIT - 1

  type Signature = bs: seq<byte> | |bs| == 64 witness seq(64, _ => 0)
  type i32 = x: int | -0x8000_0000 <= x < 0x8000_0000

  /** A value of the 96-bit decimal library. */
  type Decimal96 = d: Decimal | -DECIMAL_LIMIT < d.mantissa < DECIMAL_LIMIT witness Decimal(0, 0)

  /**
   The text decoders, the decimal library's rescaling to scale 18 and the derivation of statistics accounts are black
   boxes.
   */
  datatype Decoders = Decoders(
    parseI128: string -> Option<i128>,
    hex: string -> Option<seq<byte>>,
    base64: string -> Option<seq<byte>>,
    rescale: Decimal96 -> Decimal96,
    statsKey: Pubkey -> Pubkey)
  {
    /** Rescaling leaves alone what has that scale already. */
    ghost predicate Valid() { forall v: Decimal96 :: v.scale == 18 ==> rescale(v) == v }
  }

  datatype UpdateError = Panics | NoSuccessfulResponses

  datatype FeedEvalResponse = FeedEvalResponse(
    successValue: string, failureError: string, oraclePubkey: string, signature: string, recoveryId: i32)

  datatype OracleResponse = OracleResponse(
    value: Option<Decimal96>, error: string, oracle: Pubkey, signature: Signature, recoveryId: byte)

  datatype Submission = Submission(value: i128, signature: Signature, recoveryId: byte, offset: byte)

  datatype AccountMeta = AccountMeta(key: Pubkey, signer: bool, writable: bool)

  function Readonly(key: Pubkey): AccountMeta { AccountMeta(key, false, false) }

  function Writable(key: Pubkey): AccountMeta { AccountMeta(key, false, true) }

  datatype Instruction = Instruction(slot: u64, submissions: seq<Submission>, accounts: seq<AccountMeta>)

  const FIXED_ACCOUNTS := 9

  /** The accounts an update names itself, in the order of `to_account_metas`. */
  datatype Accounts = Accounts(
    feed: Pubkey, queue: Pubkey, programState: Pubkey, recentSlothashes: Pubkey, payer: Pubkey, systemProgram: Pubkey,
    rewardVault: Pubkey, tokenProgram: Pubkey, tokenMint: Pubkey)
  {
    function ToAccountMetas(): (metas: seq<AccountMeta>)
      ensures |metas| == FIXED_ACCOUNTS
    {
      [Writable(feed), Readonly(queue), Readonly(programState), Readonly(recentSlothashes),
       AccountMeta(payer, true, true), Readonly(systemProgram), Writable(rewardVault), Readonly(tokenProgram),
       Readonly(tokenMint)]
    }
  }

  // ----- reading the responses -----

  /** `Decimal::from_i128_with_scale` with scale 18, which panics beyond 96 bits. */
  function FormatValue(value: Option<i128>): Result<Option<Decimal96>, UpdateError> {
    match value
    case None => Ok(None)
    case Some(v) => if -DECIMAL_LIMIT < v < DECIMAL_LIMIT then Ok(Some(Decimal(v, 18))) else Err(Panics)
  }

  function ReadPubkey(bytes: Option<seq<byte>>): Result<Pubkey, UpdateError> {
    if bytes.Some? && |bytes.value| == 32 then Ok(bytes.value) else Err(Panics)
  }

  function SignatureOrZeros(bytes: Option<seq<byte>>): Signature {
    if bytes.Some? && |bytes.value| == 64 then bytes.value else seq(64, _ => 0)
  }

  function ReadResponse(d: Decoders, x: FeedEvalResponse): Result<OracleResponse, UpdateError> {
    var value :- FormatValue(d.parseI128(x.successValue));
    var oracle :- ReadPubkey(d.hex(x.oraclePubkey));
    Ok(OracleResponse(value, x.failureError, oracle, SignatureOrZeros(d.base64(x.signature)), x.recoveryId % 256))
  }

  predicate Succeeds(d: Decoders, x: FeedEvalResponse) { d.parseI128(x.successValue).Some? }

  function CountSuccesses(d: Decoders, xs: seq<FeedEvalResponse>): nat {
    if xs == [] then 0
    else CountSuccesses(d, xs[..|xs| - 1]) + if Succeeds(d, xs[|xs| - 1]) then 1 else 0
  }

  /** The places of the responses with a value. */
  ghost function Valued(d: Decoders, xs: seq<FeedEvalResponse>): set<nat> {
    set i: nat | i < |xs| && d.parseI128(xs[i].successValue).Some?
  }

  lemma {:induction false} CountsValued(d: Decoders, xs: seq<FeedEvalResponse>)
    ensures CountSuccesses(d, xs) == |Valued(d, xs)|
    decreases |xs|
  {
    if xs != [] {
      var n := |xs| - 1;
      CountsValued(d, xs[..n]);
      assert Valued(d, xs) == Valued(d, xs[..n]) + if Succeeds(d, xs[n]) then {n} else {};
    }
  }

  /** All the responses, unless reading one of them panics. */
  function OracleResponsesOf(d: Decoders, xs: seq<FeedEvalResponse>): Result<seq<OracleResponse>, UpdateError> {
    if xs == [] then Ok([]) else
    var rs :- OracleResponsesOf(d, xs[..|xs| - 1]);
    var r :- ReadResponse(d, xs[|xs| - 1]);
    Ok(rs + [r])
  }

  /** The mapping of the gateway's responses, with its counter. */
  method ReadResponses(d: Decoders, responses: seq<FeedEvalResponse>)
    returns (r: Result<seq<OracleResponse>, UpdateError>, numSuccesses: nat)
    ensures r == OracleResponsesOf(d, responses)
    ensures r.Ok? ==> numSuccesses == CountSuccesses(d, responses)
  {
    var out: seq<OracleResponse> := [];
    numSuccesses := 0;
    for i := 0 to |responses|
      invariant OracleResponsesOf(d, responses[..i]) == Ok(out) && numSuccesses == CountSuccesses(d, responses[..i])
    {
      assert responses[..i + 1][..i] == responses[..i];
      var one := ReadResponse(d, responses[i]);
      if one.Err? {
        OracleResponsesFail(d, responses, i);
        return Err(Panics), numSuccesses;
      }
      if d.parseI128(responses[i].successValue).Some? {
        numSuccesses := numSuccesses + 1;
      }
      out := out + [one.value];
    }
    assert responses[..|responses|] == responses;
    return Ok(out), numSuccesses;
  }

  lemma {:induction false} OracleResponsesFail(d: Decoders, xs: seq<FeedEvalResponse>, i: nat)
    requires i < |xs| && ReadResponse(d, xs[i]).Err?
    ensures OracleResponsesOf(d, xs) == Err(Panics)
    decreases |xs|
  {
    var n := |xs| - 1;
    ReadPanics(d, xs[i]);
    ReadPanics(d, xs[n]);
    if i < n {
      OracleResponsesFail(d, xs[..n], i);
    } else {
      OnlyPanics(d, xs[..n]);
    }
  }

  lemma ReadPanics(d: Decoders, x: FeedEvalResponse)
    ensures ReadResponse(d, x).Err? ==> ReadResponse(d, x) == Err(Panics)
  {
  }

  lemma {:induction false} OnlyPanics(d: Decoders, xs: seq<FeedEvalResponse>)
    ensures OracleResponsesOf(d, xs).Err? ==> OracleResponsesOf(d, xs) == Err(Panics)
    decreases |xs|
  {
    if xs != [] {
      OnlyPanics(d, xs[..|xs| - 1]);
      ReadPanics(d, xs[|xs| - 1]);
    }
  }

  /** The oracle is a key of 32 bytes, and a value, if there is one, fits the decimal library's 96 bits. */
  predicate Readable(d: Decoders, x: FeedEvalResponse) {
    && d.hex(x.oraclePubkey).Some? && |d.hex(x.oraclePubkey).value| == 32
    && match d.parseI128(x.successValue)
       case None => true
       case Some(v) => -79_228_162_514_264_337_593_543_950_335 <= v <= 79_228_162_514_264_337_593_543_950_335
  }

  /** The 64 bytes that the text decodes to, or zeros when it does not decode to so many. */
  predicate SignatureIn(d: Decoders, text: string, signature: seq<byte>) {
    match d.base64(text)
    case Some(bytes) => if |bytes| == 64 then signature == bytes else signature == seq(64, _ => 0)
    case None => signature == seq(64, _ => 0)
  }

  /** `r` is what the response says: value at scale 18, oracle, signature, low byte of the recovery id, and error. */
  predicate ReadAs(d: Decoders, x: FeedEvalResponse, r: OracleResponse) {
    && (match d.parseI128(x.successValue)
        case Some(v) => r.value.Some? && r.value.value.mantissa == v && r.value.value.scale == 18
        case None => r.value.None?)
    && d.hex(x.oraclePubkey) == Some(r.oracle)
    && SignatureIn(d, x.signature, r.signature)
    && (r.recoveryId - x.recoveryId) % 256 == 0
    && r.error == x.failureError
  }

  predicate AllReadable(d: Decoders, xs: seq<FeedEvalResponse>) {
    forall i :: 0 <= i < |xs| ==> Readable(d, xs[i])
  }

  predicate AllReadAs(d: Decoders, xs: seq<FeedEvalResponse>, rs: seq<OracleResponse>) {
    |rs| == |xs| && forall i :: 0 <= i < |xs| ==> ReadAs(d, xs[i], rs[i])
  }

  lemma ReadsExactly(d: Decoders, x: FeedEvalResponse, r: OracleResponse)
    ensures ReadResponse(d, x) == Ok(r) <==> Readable(d, x) && ReadAs(d, x, r)
  {
    LowBytes(x.recoveryId, r.recoveryId);
    if Readable(d, x) && ReadAs(d, x, r) && r.value.Some? {
      assert r.value.value == Decimal(d.parseI128(x.successValue).value, 18);
    }
  }

  /** A byte is the low one of a number exactly when they differ by a multiple of 256. */
  lemma LowBytes(n: int, b: byte)
    ensures b == n % 256 <==> (b - n) % 256 == 0
  {
  }

  /** The responses are read exactly when each one is readable, and each in its own place as what it says. */
  lemma {:induction false} ReadsEach(d: Decoders, xs: seq<FeedEvalResponse>)
    ensures OracleResponsesOf(d, xs).Ok? <==> AllReadable(d, xs)
    ensures OracleResponsesOf(d, xs).Ok? ==> AllReadAs(d, xs, OracleResponsesOf(d, xs).value)
    decreases |xs|
  {
    if xs != [] {
      var n := |xs| - 1;
      ReadsEach(d, xs[..n]);
      ReadsLast(d, xs[n]);
      LastReadable(d, xs);
      ReadPanics(d, xs[n]);
    }
  }

  lemma LastReadable(d: Decoders, xs: seq<FeedEvalResponse>)
    requires xs != []
    ensures AllReadable(d, xs) <==> AllReadable(d, xs[..|xs| - 1]) && Readable(d, xs[|xs| - 1])
  {
    assert forall i :: 0 <= i < |xs| - 1 ==> xs[..|xs| - 1][i] == xs[i];
  }

  lemma ReadsLast(d: Decoders, x: FeedEvalResponse)
    ensures ReadResponse(d, x).Ok? <==> Readable(d, x)
    ensures ReadResponse(d, x).Ok? ==> ReadAs(d, x, ReadResponse(d, x).value)
  {
    if ReadResponse(d, x).Ok? {
      ReadsExactly(d, x, ReadResponse(d, x).value);
    }
  }

  // ----- the instruction -----

  /** The mantissa of the rescaled value, or the largest i128, with the response's signature and no offset. */
  predicate Rescaled(d: Decoders, r: OracleResponse, s: Submission) {
    && (match r.value case Some(v) => s.value == d.rescale(v).mantissa case None => s.value == I128_MAX)
    && s.signature == r.signature && s.recoveryId == r.recoveryId && s.offset == 0
  }

  function OracleMetas(rs: seq<OracleResponse>): (s: seq<AccountMeta>)
    ensures |s| == |rs| && forall i :: 0 <= i < |rs| ==> s[i] == Readonly(rs[i].oracle)
  {
    seq(|rs|, i requires 0 <= i < |rs| => Readonly(rs[i].oracle))
  }

  function StatsMetas(d: Decoders, rs: seq<OracleResponse>): (s: seq<AccountMeta>)
    ensures |s| == |rs| && forall i :: 0 <= i < |rs| ==> s[i] == Writable(d.statsKey(rs[i].oracle))
  {
    seq(|rs|, i requires 0 <= i < |rs| => Writable(d.statsKey(rs[i].oracle)))
  }

  function OracleKeys(rs: seq<OracleResponse>): (s: seq<Pubkey>)
    ensures |s| == |rs| && forall i :: 0 <= i < |rs| ==> s[i] == rs[i].oracle
  {
    seq(|rs|, i requires 0 <= i < |rs| => rs[i].oracle)
  }

  /** `get_solana_submit_signatures_ix`: one loop for the submissions, one for the oracles, one for their statistics. */
  method SubmitSignaturesIx(d: Decoders, slot: u64, responses: seq<OracleResponse>, accounts: Accounts)
    returns (ix: Instruction)
    ensures ix.slot == slot && Submits(d, responses, accounts.ToAccountMetas(), ix)
  {
    var submissions: seq<Submission> := [];
    for i := 0 to |responses|
      invariant |submissions| == i && forall k :: 0 <= k < i ==> Rescaled(d, responses[k], submissions[k])
    {
      var valueI128: i128 := I128_MAX;
      if responses[i].value.Some? {
        var val := d.rescale(responses[i].value.value);
        valueI128 := val.mantissa;
      }
      submissions := submissions + [Submission(valueI128, responses[i].signature, responses[i].recoveryId, 0)];
    }
    var remainingAccounts: seq<AccountMeta> := [];
    for i := 0 to |responses|
      invariant remainingAccounts == OracleMetas(responses)[..i]
    {
      remainingAccounts := remainingAccounts + [Readonly(responses[i].oracle)];
    }
    for i := 0 to |responses|
      invariant remainingAccounts == OracleMetas(responses) + StatsMetas(d, responses)[..i]
    {
      remainingAccounts := remainingAccounts + [Writable(d.statsKey(responses[i].oracle))];
    }
    return Instruction(slot, submissions, accounts.ToAccountMetas() + remainingAccounts);
  }

  /** When the reading panics, and when no response has a value. */
  lemma Outcome(d: Decoders, responses: seq<FeedEvalResponse>)
    ensures var read := OracleResponsesOf(d, responses);
            && (read.Err? ==> read.error == Panics)
            && (read.Err? <==> !AllReadable(d, responses))
            && CountSuccesses(d, responses) == |Valued(d, responses)|
  {
    OnlyPanics(d, responses);
    ReadsEach(d, responses);
    CountsValued(d, responses);
  }

  /** The part of `fetch_update_ix` between the gateway's answer and the lookup tables. */
  method FetchUpdateIx(d: Decoders, slot: u64, responses: seq<FeedEvalResponse>, accounts: Accounts)
    returns (r: Result<Instruction, UpdateError>, oracleResponses: seq<OracleResponse>, oracleKeys: seq<Pubkey>,
             numSuccesses: nat)
    requires d.Valid()
    ensures r == Err(Panics) <==> !AllReadable(d, responses)
    ensures r == Err(NoSuccessfulResponses) <==> AllReadable(d, responses) && Valued(d, responses) == {}
    ensures r.Ok? ==> numSuccesses == |Valued(d, responses)| && r.value.slot == slot
    ensures r.Ok? ==> AllReadAs(d, responses, oracleResponses)
    ensures r.Ok? ==> Updates(d, responses, accounts.ToAccountMetas(), r.value, oracleKeys)
  {
    oracleResponses, oracleKeys := [], [];
    var read: Result<seq<OracleResponse>, UpdateError>;
    read, numSuccesses := ReadResponses(d, responses);
    Outcome(d, responses);
    if read.Err? { return Err(read.error), oracleResponses, oracleKeys, numSuccesses; }
    if numSuccesses == 0 { return Err(NoSuccessfulResponses), oracleResponses, oracleKeys, numSuccesses; }
    oracleResponses := read.value;
    var ix := SubmitSignaturesIx(d, slot, oracleResponses, accounts);
    SubmittedUpdates(d, responses, oracleResponses, accounts.ToAccountMetas(), ix);
    oracleKeys := OracleKeys(oracleResponses);
    return Ok(ix), oracleResponses, oracleKeys, numSuccesses;
  }

  // ----- what the program on chain finds -----

  /** Submission `i` with the oracle and the statistics account that the program pairs it with, by position. */
  function Paired(ix: Instruction, i: nat): Option<(Submission, AccountMeta, AccountMeta)> {
    var n := |ix.submissions|;
    if i < n && |ix.accounts| == FIXED_ACCOUNTS + 2 * n then
      Some((ix.submissions[i], ix.accounts[FIXED_ACCOUNTS + i], ix.accounts[FIXED_ACCOUNTS + n + i]))
    else None
  }

  /** Every submission is one response's, and stands with the accounts of the oracle that gave it. */
  ghost predicate Aligned(d: Decoders, responses: seq<FeedEvalResponse>, ix: Instruction) {
    && |ix.submissions| == |responses|
    && forall i :: 0 <= i < |responses| ==> PairedWith(d, responses[i], Paired(ix, i))
  }

  /** The value and the signature as decoded, with the oracle read-only and its statistics writable. */
  ghost predicate PairedWith(d: Decoders, x: FeedEvalResponse, p: Option<(Submission, AccountMeta, AccountMeta)>) {
    && p.Some? && d.hex(x.oraclePubkey).Some? && |d.hex(x.oraclePubkey).value| == 32
    && var (submission, oracle, stats) := p.value;
       && submission.value == (match d.parseI128(x.successValue) case Some(v) => v case None => I128_MAX)
       && SignatureIn(d, x.signature, submission.signature)
       && (submission.recoveryId - x.recoveryId) % 256 == 0 && submission.offset == 0
       && oracle == AccountMeta(d.hex(x.oraclePubkey).value, false, false)
       && stats == AccountMeta(d.statsKey(d.hex(x.oraclePubkey).value), false, true)
  }

  lemma ReadPairs(d: Decoders, x: FeedEvalResponse, r: OracleResponse, s: Submission)
    requires d.Valid() && Readable(d, x) && ReadAs(d, x, r) && Rescaled(d, r, s)
    ensures PairedWith(d, x, Some((s, Readonly(r.oracle), Writable(d.statsKey(r.oracle)))))
  {
  }

  /** What `SubmitSignaturesIx` builds, apart from the accounts the update names itself. */
  ghost predicate Submits(d: Decoders, rs: seq<OracleResponse>, named: seq<AccountMeta>, ix: Instruction) {
    && |ix.submissions| == |rs| && (forall i :: 0 <= i < |rs| ==> Rescaled(d, rs[i], ix.submissions[i]))
    && ix.accounts == named + OracleMetas(rs) + StatsMetas(d, rs)
  }

  lemma SubmitsAt(d: Decoders, rs: seq<OracleResponse>, named: seq<AccountMeta>, ix: Instruction, i: nat)
    requires Submits(d, rs, named, ix) && |named| == FIXED_ACCOUNTS && i < |rs|
    ensures Rescaled(d, rs[i], ix.submissions[i])
    ensures Paired(ix, i) == Some((ix.submissions[i], Readonly(rs[i].oracle), Writable(d.statsKey(rs[i].oracle))))
    ensures ix.accounts[FIXED_ACCOUNTS + i].key == rs[i].oracle
  {
    assert ix.accounts[FIXED_ACCOUNTS + i] == OracleMetas(rs)[i];
    assert ix.accounts[FIXED_ACCOUNTS + |rs| + i] == StatsMetas(d, rs)[i];
  }

  /** What was read from each response, submitted in order, is aligned. */
  lemma SubmittedAligned(d: Decoders, responses: seq<FeedEvalResponse>, rs: seq<OracleResponse>,
                         named: seq<AccountMeta>, ix: Instruction)
    requires d.Valid() && OracleResponsesOf(d, responses) == Ok(rs)
    requires Submits(d, rs, named, ix) && |named| == FIXED_ACCOUNTS
    ensures |rs| == |responses| && Aligned(d, responses, ix) && ix.accounts[..FIXED_ACCOUNTS] == named
    ensures forall i :: 0 <= i < |rs| ==> ix.accounts[FIXED_ACCOUNTS + i].key == rs[i].oracle
  {
    ReadsEach(d, responses);
    forall i | 0 <= i < |responses|
      ensures PairedWith(d, responses[i], Paired(ix, i)) && ix.accounts[FIXED_ACCOUNTS + i].key == rs[i].oracle
    {
      SubmitsAt(d, rs, named, ix, i);
      ReadPairs(d, responses[i], rs[i], ix.submissions[i]);
    }
  }

  /** The instruction is aligned, starts with the accounts it names itself, and `oracleKeys` are its oracles. */
  ghost predicate Updates(d: Decoders, responses: seq<FeedEvalResponse>, named: seq<AccountMeta>, ix: Instruction,
                          oracleKeys: seq<Pubkey>) {
    && Aligned(d, responses, ix)
    && |ix.accounts| == FIXED_ACCOUNTS + 2 * |responses| && ix.accounts[..FIXED_ACCOUNTS] == named
    && |oracleKeys| == |responses|
    && forall i :: 0 <= i < |responses| ==> oracleKeys[i] == ix.accounts[FIXED_ACCOUNTS + i].key
  }

  lemma SubmittedUpdates(d: Decoders, responses: seq<FeedEvalResponse>, rs: seq<OracleResponse>,
                         named: seq<AccountMeta>, ix: Instruction)
    requires d.Valid() && OracleResponsesOf(d, responses) == Ok(rs)
    requires Submits(d, rs, named, ix) && |named| == FIXED_ACCOUNTS
    ensures Updates(d, responses, named, ix, OracleKeys(rs)) && AllReadAs(d, responses, rs)
  {
    ReadsEach(d, responses);
    SubmittedAligned(d, responses, rs, named, ix);
  }

  /**
   In the whole instruction only the payer signs, and only the feed, the payer, the reward vault and the oracles'
   statistics can be written; the accounts the update names itself stand in the order of the program.
   */
  lemma AccountRoles(d: Decoders, responses: seq<FeedEvalResponse>, accounts: Accounts, ix: Instruction,
                     oracleKeys: seq<Pubkey>)
    requires Updates(d, responses, accounts.ToAccountMetas(), ix, oracleKeys)
    ensures |ix.accounts| == 9 + 2 * |responses|
    ensures forall k :: 0 <= k < |ix.accounts| ==>
              && (ix.accounts[k].signer <==> k == 4)
              && (ix.accounts[k].writable <==> k in {0, 4, 6} || k >= 9 + |responses|)
    ensures ix.accounts[0].key == accounts.feed && ix.accounts[1].key == accounts.queue
    ensures ix.accounts[2].key == accounts.programState && ix.accounts[3].key == accounts.recentSlothashes
    ensures ix.accounts[4].key == accounts.payer && ix.accounts[5].key == accounts.systemProgram
    ensures ix.accounts[6].key == accounts.rewardVault && ix.accounts[7].key == accounts.tokenProgram
    ensures ix.accounts[8].key == accounts.tokenMint
  {
    var named := accounts.ToAccountMetas();
    assert forall k :: 0 <= k < 9 ==> ix.accounts[k] == named[k];
    forall k | 9 <= k < |ix.accounts|
      ensures !ix.accounts[k].signer && (ix.accounts[k].writable <==> k >= 9 + |responses|)
    {
      var i := if k < 9 + |responses| then k - 9 else k - 9 - |responses|;
      assert PairedWith(d, responses[i], Paired(ix, i));
    }
  }

  /** The largest i128 is never a submitted value, so it marks exactly the responses without one. */
  lemma SentinelMarksFailures(d: Decoders, responses: seq<FeedEvalResponse>, ix: Instruction, i: nat)
    requires Aligned(d, responses, ix) && i < |responses| && Readable(d, responses[i])
    ensures ix.submissions[i].value == 0x7FFF_FFFF_FFFF_FFFF_FFFF_FFFF_FFFF_FFFF <==>
            d.parseI128(responses[i].successValue).None?
  {
    assert PairedWith(d, responses[i], Paired(ix, i));
  }
}
