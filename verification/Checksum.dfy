/**
 The bytes whose SHA-256 digest the oracles of a consensus update sign: for any fixed numbers of feeds and values they
 determine, and are determined by, everything that was hashed.
 */
module Checksum {
  import opened Bytes

  type Digest = bs: seq<byte> | |bs| == 32 witness seq(32, _ => 0)

  datatype Feed = Feed(feedHash: Digest, maxVariance: u64, minResponses: u32)

  datatype Signed = Signed(queueKey: Digest, feeds: seq<Feed>, slothash: Digest, values: seq<i128>)

  function FeedBytes(feed: Feed): (bs: seq<byte>)
    ensures |bs| == 44
  {
    feed.feedHash + LittleEndian(feed.maxVariance, 8) + LittleEndian(feed.minResponses, 4)
  }

  function FeedsBytes(feeds: seq<Feed>): (bs: seq<byte>)
    ensures |bs| == 44 * |feeds|
  {
    if feeds == [] then [] else FeedsBytes(feeds[..|feeds| - 1]) + FeedBytes(feeds[|feeds| - 1])
  }

  /** `i128::to_le_bytes`: two's complement. */
  function ValueBytes(value: i128): (bs: seq<byte>)
    ensures |bs| == 16
  {
    LittleEndian(if value < 0 then value + 2 * I128_LIMIT else value, 16)
  }

  function ValuesBytes(values: seq<i128>): (bs: seq<byte>)
    ensures |bs| == 16 * |values|
  {
    if values == [] then [] else ValuesBytes(values[..|values| - 1]) + ValueBytes(values[|values| - 1])
  }

  function Preimage(s: Signed): (bs: seq<byte>)
    ensures |bs| == 64 + 44 * |s.feeds| + 16 * |s.values|
  {
    s.queueKey + FeedsBytes(s.feeds) + s.slothash + ValuesBytes(s.values)
  }

  /** `generate_combined_checksum`, with the bytes the hasher has taken in so far as a variable. */
  method GenerateCombinedChecksum(sha256: seq<byte> -> Digest, queueKey: Digest, feeds: seq<Feed>,
                                  signedSlothash: Digest, submissionValues: seq<i128>) returns (digest: Digest)
    ensures digest == sha256(Preimage(Signed(queueKey, feeds, signedSlothash, submissionValues)))
  {
    var hasher: seq<byte> := queueKey;
    for i := 0 to |feeds|
      invariant hasher == queueKey + FeedsBytes(feeds[..i])
    {
      hasher := hasher + feeds[i].feedHash;
      hasher := hasher + LittleEndian(feeds[i].maxVariance, 8);
      hasher := hasher + LittleEndian(feeds[i].minResponses, 4);
      assert feeds[..i + 1][..i] == feeds[..i];
    }
    assert feeds[..|feeds|] == feeds;
    ghost var before := hasher + signedSlothash;
    hasher := hasher + signedSlothash;
    for i := 0 to |submissionValues|
      invariant hasher == before + ValuesBytes(submissionValues[..i])
    {
      hasher := hasher + ValueBytes(submissionValues[i]);
      assert submissionValues[..i + 1][..i] == submissionValues[..i];
    }
    assert submissionValues[..|submissionValues|] == submissionValues;
    digest := sha256(hasher);
  }

  // ----- reading the bytes back -----

  function ReadUnsigned(bs: seq<byte>): (r: nat)
    ensures r < Pow256(|bs|) && LittleEndian(r, |bs|) == bs
  {
    WriteRead(bs);
    FromLittleEndian(bs)
  }

  function ReadFeed(bs: seq<byte>): Feed
    requires |bs| == 44
  {
    Powers();
    Feed(bs[..32], ReadUnsigned(bs[32..40]), ReadUnsigned(bs[40..]))
  }

  function ReadFeeds(bs: seq<byte>, n: nat): (feeds: seq<Feed>)
    requires |bs| == 44 * n
    ensures |feeds| == n
    decreases n
  {
    if n == 0 then [] else ReadFeeds(bs[..44 * (n - 1)], n - 1) + [ReadFeed(bs[44 * (n - 1)..])]
  }

  function ReadValue(bs: seq<byte>): i128
    requires |bs| == 16
  {
    Powers();
    var u := ReadUnsigned(bs);
    if u < I128_LIMIT then u else u - 2 * I128_LIMIT
  }

  function ReadValues(bs: seq<byte>, n: nat): (values: seq<i128>)
    requires |bs| == 16 * n
    ensures |values| == n
    decreases n
  {
    if n == 0 then [] else ReadValues(bs[..16 * (n - 1)], n - 1) + [ReadValue(bs[16 * (n - 1)..])]
  }

  /** What was hashed, read from the bytes by one who knows how many feeds and values there are. */
  function ReadSigned(bs: seq<byte>, feeds: nat, values: nat): Signed
    requires |bs| == 64 + 44 * feeds + 16 * values
  {
    var end := 32 + 44 * feeds;
    Signed(bs[..32], ReadFeeds(bs[32..end], feeds), bs[end..end + 32], ReadValues(bs[end + 32..], values))
  }

  lemma ReadFeedBytes(feed: Feed)
    ensures ReadFeed(FeedBytes(feed)) == feed
  {
    var bs := FeedBytes(feed);
    Powers();
    ReadWritten(feed.maxVariance, 8);
    ReadWritten(feed.minResponses, 4);
    assert bs[32..40] == LittleEndian(feed.maxVariance, 8) && bs[40..] == LittleEndian(feed.minResponses, 4);
  }

  lemma WriteReadFeed(bs: seq<byte>)
    requires |bs| == 44
    ensures FeedBytes(ReadFeed(bs)) == bs
  {
    assert bs == bs[..32] + bs[32..40] + bs[40..];
  }

  lemma ReadValueBytes(value: i128)
    ensures ReadValue(ValueBytes(value)) == value
  {
    Powers();
    ReadWritten(if value < 0 then value + 2 * I128_LIMIT else value, 16);
  }

  lemma WriteReadValue(bs: seq<byte>)
    requires |bs| == 16
    ensures ValueBytes(ReadValue(bs)) == bs
  {
    Powers();
  }

  lemma {:induction false} ReadFeedsBytes(feeds: seq<Feed>)
    ensures ReadFeeds(FeedsBytes(feeds), |feeds|) == feeds
    decreases |feeds|
  {
    if feeds != [] {
      var n, bs := |feeds| - 1, FeedsBytes(feeds);
      ReadFeedsBytes(feeds[..n]);
      ReadFeedBytes(feeds[n]);
      assert bs[..44 * n] == FeedsBytes(feeds[..n]) && bs[44 * n..] == FeedBytes(feeds[n]);
    }
  }

  lemma Halves(bs: seq<byte>, k: nat)
    requires k <= |bs|
    ensures bs[..k] + bs[k..] == bs
  {
  }

  lemma FeedsBytesSnoc(feeds: seq<Feed>, feed: Feed)
    ensures FeedsBytes(feeds + [feed]) == FeedsBytes(feeds) + FeedBytes(feed)
  {
    assert (feeds + [feed])[..|feeds|] == feeds;
  }

  lemma {:induction false} WriteReadFeeds(bs: seq<byte>, n: nat)
    requires |bs| == 44 * n
    ensures FeedsBytes(ReadFeeds(bs, n)) == bs
    decreases n
  {
    if n > 0 {
      var k := 44 * (n - 1);
      WriteReadFeeds(bs[..k], n - 1);
      WriteReadFeed(bs[k..]);
      FeedsBytesSnoc(ReadFeeds(bs[..k], n - 1), ReadFeed(bs[k..]));
      Halves(bs, k);
    }
  }

  lemma {:induction false} ReadValuesBytes(values: seq<i128>)
    ensures ReadValues(ValuesBytes(values), |values|) == values
    decreases |values|
  {
    if values != [] {
      var n, bs := |values| - 1, ValuesBytes(values);
      ReadValuesBytes(values[..n]);
      ReadValueBytes(values[n]);
      assert bs[..16 * n] == ValuesBytes(values[..n]) && bs[16 * n..] == ValueBytes(values[n]);
    }
  }

  lemma ValuesBytesSnoc(values: seq<i128>, value: i128)
    ensures ValuesBytes(values + [value]) == ValuesBytes(values) + ValueBytes(value)
  {
    assert (values + [value])[..|values|] == values;
  }

  lemma {:induction false} WriteReadValues(bs: seq<byte>, n: nat)
    requires |bs| == 16 * n
    ensures ValuesBytes(ReadValues(bs, n)) == bs
    decreases n
  {
    if n > 0 {
      var k := 16 * (n - 1);
      WriteReadValues(bs[..k], n - 1);
      WriteReadValue(bs[k..]);
      ValuesBytesSnoc(ReadValues(bs[..k], n - 1), ReadValue(bs[k..]));
      Halves(bs, k);
    }
  }

  lemma Parts(a: seq<byte>, b: seq<byte>, c: seq<byte>, d: seq<byte>)
    ensures var bs, i, j, k := a + b + c + d, |a|, |a| + |b|, |a| + |b| + |c|;
            bs[..i] == a && bs[i..j] == b && bs[j..k] == c && bs[k..] == d
  {
  }

  lemma Cut(bs: seq<byte>, i: nat, j: nat, k: nat)
    requires i <= j <= k <= |bs|
    ensures bs[..i] + bs[i..j] + bs[j..k] + bs[k..] == bs
  {
  }

  lemma ReadsParts(queueKey: Digest, feeds: seq<byte>, slothash: Digest, values: seq<byte>, n: nat, m: nat)
    requires |feeds| == 44 * n && |values| == 16 * m
    ensures ReadSigned(queueKey + feeds + slothash + values, n, m) ==
            Signed(queueKey, ReadFeeds(feeds, n), slothash, ReadValues(values, m))
  {
    var bs, end := queueKey + feeds + slothash + values, 32 + 44 * n;
    Parts(queueKey, feeds, slothash, values);
    assert bs[..32] == queueKey && bs[32..end] == feeds && bs[end..end + 32] == slothash && bs[end + 32..] == values;
  }

  /** For fixed counts the bytes and what was hashed determine each other. */
  lemma ReadsPreimage(s: Signed)
    ensures ReadSigned(Preimage(s), |s.feeds|, |s.values|) == s
  {
    ReadsParts(s.queueKey, FeedsBytes(s.feeds), s.slothash, ValuesBytes(s.values), |s.feeds|, |s.values|);
    ReadFeedsBytes(s.feeds);
    ReadValuesBytes(s.values);
  }

  lemma PreimageOfRead(bs: seq<byte>, feeds: nat, values: nat)
    requires |bs| == 64 + 44 * feeds + 16 * values
    ensures Preimage(ReadSigned(bs, feeds, values)) == bs
  {
    var end := 32 + 44 * feeds;
    WriteReadFeeds(bs[32..end], feeds);
    WriteReadValues(bs[end + 32..], values);
    Cut(bs, 32, end, end + 32);
  }

  lemma FrontSlice(a: seq<byte>, b: seq<byte>, i: nat, j: nat)
    requires i <= j <= |a|
    ensures (a + b)[i..j] == a[i..j]
  {
  }

  lemma BackSlice(a: seq<byte>, b: seq<byte>)
    ensures (a + b)[|a|..|a| + |b|] == b
  {
  }

  lemma {:induction false} FeedAt(feeds: seq<Feed>, i: nat)
    requires i < |feeds|
    ensures FeedsBytes(feeds)[44 * i..44 * i + 44] == FeedBytes(feeds[i])
    decreases |feeds|
  {
    var n := |feeds| - 1;
    var front, last := FeedsBytes(feeds[..n]), FeedBytes(feeds[n]);
    if i < n {
      FeedAt(feeds[..n], i);
      FrontSlice(front, last, 44 * i, 44 * i + 44);
    } else {
      BackSlice(front, last);
    }
  }

  lemma {:induction false} ValueAt(values: seq<i128>, j: nat)
    requires j < |values|
    ensures ValuesBytes(values)[16 * j..16 * j + 16] == ValueBytes(values[j])
    decreases |values|
  {
    var n := |values| - 1;
    var front, last := ValuesBytes(values[..n]), ValueBytes(values[n]);
    if j < n {
      ValueAt(values[..n], j);
      FrontSlice(front, last, 16 * j, 16 * j + 16);
    } else {
      BackSlice(front, last);
    }
  }

  /** The 44 bytes of a feed: hash, then variance in 8 and responses in 4 little-endian bytes. */
  lemma FeedLayout(feed: Feed)
    ensures var bs := FeedBytes(feed);
            && bs[0..32] == feed.feedHash
            && FromLittleEndian(bs[32..40]) == feed.maxVariance && FromLittleEndian(bs[40..44]) == feed.minResponses
  {
    var bs := FeedBytes(feed);
    Powers();
    ReadWritten(feed.maxVariance, 8);
    ReadWritten(feed.minResponses, 4);
    assert bs[32..40] == LittleEndian(feed.maxVariance, 8) && bs[40..44] == LittleEndian(feed.minResponses, 4);
  }

  /** The 16 bytes of a value: two's complement, little-endian. */
  lemma ValueLayout(value: i128)
    ensures FromLittleEndian(ValueBytes(value)) ==
            if value >= 0 then value else value + 0x1_0000_0000_0000_0000_0000_0000_0000_0000
  {
    Powers();
    ReadWritten(if value < 0 then value + 2 * I128_LIMIT else value, 16);
  }

  /** Where everything stands in the bytes. */
  lemma PreimageLayout(s: Signed)
    ensures var (bs, n) := (Preimage(s), |s.feeds|);
            && |bs| == 64 + 44 * n + 16 * |s.values|
            && bs[0..32] == s.queueKey && bs[32 + 44 * n..64 + 44 * n] == s.slothash
            && (forall i :: 0 <= i < n ==> bs[32 + 44 * i..76 + 44 * i] == FeedBytes(s.feeds[i]))
            && (forall j :: 0 <= j < |s.values| ==>
                  bs[64 + 44 * n + 16 * j..80 + 44 * n + 16 * j] == ValueBytes(s.values[j]))
  {
    var bs, n := Preimage(s), |s.feeds|;
    var feeds, values := FeedsBytes(s.feeds), ValuesBytes(s.values);
    forall i | 0 <= i < n
      ensures bs[32 + 44 * i..76 + 44 * i] == FeedBytes(s.feeds[i])
    {
      FeedAt(s.feeds, i);
      assert bs[32 + 44 * i..76 + 44 * i] == feeds[44 * i..44 * i + 44];
    }
    forall j | 0 <= j < |s.values|
      ensures bs[64 + 44 * n + 16 * j..80 + 44 * n + 16 * j] == ValueBytes(s.values[j])
    {
      ValueAt(s.values, j);
      assert bs[64 + 44 * n + 16 * j..80 + 44 * n + 16 * j] == values[16 * j..16 * j + 16];
    }
  }

  /** With one value a feed, equal bytes were made from equal inputs. */
  lemma OneValuePerFeedInjective(s: Signed, t: Signed)
    requires |s.values| == |s.feeds| && |t.values| == |t.feeds|
    ensures Preimage(s) == Preimage(t) ==> s == t
  {
    ReadsPreimage(s);
    ReadsPreimage(t);
  }

  /**
   Without that tie, inputs with other counts hash the same bytes exactly when the lengths agree, and then every input
   has such a twin: four feeds can pass for eleven values.
   */
  lemma TwinExactly(s: Signed, feeds: nat, values: nat)
    ensures (exists t: Signed :: |t.feeds| == feeds && |t.values| == values && Preimage(t) == Preimage(s)) <==>
            44 * feeds + 16 * values == 44 * |s.feeds| + 16 * |s.values|
  {
    if 44 * feeds + 16 * values == 44 * |s.feeds| + 16 * |s.values| {
      PreimageOfRead(Preimage(s), feeds, values);
      var t := ReadSigned(Preimage(s), feeds, values);
      assert |t.feeds| == feeds && |t.values| == values && Preimage(t) == Preimage(s);
    }
  }

  /** Four feeds without values and eleven values without feeds: two inputs with one preimage. */
  lemma FourFeedsElevenValues(s: Signed) returns (t: Signed)
    requires |s.feeds| == 4 && s.values == []
    ensures t.feeds == [] && |t.values| == 11 && t != s && Preimage(t) == Preimage(s)
  {
    TwinExactly(s, 0, 11);
    t :| |t.feeds| == 0 && |t.values| == 11 && Preimage(t) == Preimage(s);
  }

  /** What was hashed has some twin exactly when it holds at least four feeds or at least eleven values. */
  lemma AmbiguousExactly(s: Signed)
    ensures (exists t: Signed :: t != s && Preimage(t) == Preimage(s)) <==> |s.feeds| >= 4 || |s.values| >= 11
  {
    var f, v := |s.feeds|, |s.values|;
    if f >= 4 {
      TwinExactly(s, f - 4, v + 11);
    } else if v >= 11 {
      TwinExactly(s, f + 4, v - 11);
    }
    forall t: Signed | t != s && Preimage(t) == Preimage(s)
      ensures f >= 4 || v >= 11
    {
      ReadsPreimage(s);
      ReadsPreimage(t);
      OtherCounts(|t.feeds|, |t.values|, f, v);
    }
  }

  lemma OtherCounts(f: nat, v: nat, g: nat, w: nat)
    requires 44 * f + 16 * v == 44 * g + 16 * w && (f, v) != (g, w)
    ensures g >= 4 || w >= 11
  {
    assert 11 * (f - g) == 4 * (w - v);
  }
}
