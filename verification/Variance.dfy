/** How the largest allowed variance of a feed travels from its account to the gateway's oracles. */
module Variance {
  import opened Bytes
  import opened Doubles
  import opened FixedPoint
  import opened Wrappers

  const UNIT := 1_000_000_000
  const U32_LIMIT := 0x1_0000_0000

  /** `(max_variance / 1_000_000_000) as u32`, which keeps the low 32 bits. */
  function Configured(maxVariance: u64): u32 { maxVariance / UNIT % U32_LIMIT }

  /** `(max_variance.unwrap_or(1) as f64 * 1e9) as u64`. */
  function Requested(round: real -> real, maxVariance: Option<u32>): u64 {
    var k := if maxVariance.Some? then maxVariance.value else 1;
    CastU64(round(round(k as real) * 1_000_000_000.0))
  }

  function Sent(round: real -> real, maxVariance: u64): u64 { Requested(round, Some(Configured(maxVariance))) }

  datatype FeedConfig = FeedConfig(encodedJobs: seq<string>, maxVariance: Option<u32>, minResponses: Option<u32>)
  datatype FeedRequest = FeedRequest(jobs: seq<string>, maxVariance: u64, minResponses: u32, useTimestamp: bool)

  /** The jobs as they are, one response at least unless the configuration says how many, and the requested variance. */
  predicate Asks(round: real -> real, config: FeedConfig, useTimestamp: Option<bool>, request: FeedRequest) {
    && request.jobs == config.encodedJobs
    && request.maxVariance == Requested(round, config.maxVariance)
    && (match config.minResponses case Some(n) => request.minResponses == n case None => request.minResponses == 1)
    && (request.useTimestamp <==> useTimestamp == Some(true))
  }

  /** The loop of `fetch_signatures_multi`; the consensus route maps the same expressions over the configurations. */
  method FeedRequests(round: real -> real, configs: seq<FeedConfig>, useTimestamp: Option<bool>)
    returns (feedRequests: seq<FeedRequest>)
    ensures |feedRequests| == |configs|
    ensures forall i :: 0 <= i < |configs| ==> Asks(round, configs[i], useTimestamp, feedRequests[i])
    ensures RoundsToNearest(round) ==> forall i :: 0 <= i < |configs| ==>
              feedRequests[i].maxVariance == if configs[i].maxVariance.Some? then configs[i].maxVariance.value * UNIT
                                             else UNIT
  {
    feedRequests := [];
    for i := 0 to |configs|
      invariant |feedRequests| == i
      invariant forall k :: 0 <= k < i ==> Asks(round, configs[k], useTimestamp, feedRequests[k])
    {
      var maxVariance := Requested(round, configs[i].maxVariance);
      var minResponses := if configs[i].minResponses.Some? then configs[i].minResponses.value else 1;
      feedRequests := feedRequests + [FeedRequest(configs[i].encodedJobs, maxVariance, minResponses,
                                                  useTimestamp.Some? && useTimestamp.value)];
    }
    if RoundsToNearest(round) {
      forall i | 0 <= i < |configs|
        ensures feedRequests[i].maxVariance == if configs[i].maxVariance.Some? then configs[i].maxVariance.value * UNIT
                                               else UNIT
      {
        RequestedExactly(round, if configs[i].maxVariance.Some? then configs[i].maxVariance.value else 0);
      }
    }
  }

  /** A 32-bit count of billions fits a double exactly, being a multiple of 2^9 whose odd part is below 2^53. */
  lemma BillionsRepresentable(k: u32)
    ensures Representable(k as real) && Representable((k * UNIT) as real)
  {
    assert Pow2(0) == 1 && Dyadic(k as real, k, 0);
    assert Pow2(9) == 512 by { assert Pow2(5) == 32; }
    assert k * UNIT == k * 1_953_125 * 512;
    assert Dyadic((k * UNIT) as real, k * 1_953_125, 9);
  }

  /** The u32-to-f64 product has no rounding error. */
  lemma RequestedExactly(round: real -> real, k: u32)
    requires RoundsToNearest(round)
    ensures Requested(round, Some(k)) == k * UNIT && Requested(round, None) == UNIT
  {
    BillionsRepresentable(k);
    BillionsRepresentable(1);
    RoundsExactly(round, k as real);
    RoundsExactly(round, (k * UNIT) as real);
    RoundsExactly(round, 1 as real);
    RoundsExactly(round, UNIT as real);
    assert (k * UNIT) as real == k as real * 1_000_000_000.0;
  }

  /**
   The variance that reaches the oracles is the on-chain one rounded down to billions, modulo 2^32 billions; so the
   rounded one itself exactly below 2^32 billions.
   */
  lemma SentExactly(round: real -> real, maxVariance: u64)
    requires RoundsToNearest(round)
    ensures Sent(round, maxVariance) == (maxVariance - maxVariance % UNIT) % (U32_LIMIT * UNIT)
    ensures Sent(round, maxVariance) == maxVariance - maxVariance % UNIT <==> maxVariance < U32_LIMIT * UNIT
  {
    SentIs(round, maxVariance);
    UnitsWrap(maxVariance, UNIT, U32_LIMIT);
  }

  /** A feed that allows a variance of 2^32 billions is asked about with none. */
  lemma SentAsZero(round: real -> real)
    requires RoundsToNearest(round)
    ensures U32_LIMIT * UNIT < 0x1_0000_0000_0000_0000 && Sent(round, U32_LIMIT * UNIT) == 0
  {
    SentIs(round, U32_LIMIT * UNIT);
    Wraps();
  }

  lemma Wraps()
    ensures U32_LIMIT * UNIT / UNIT % U32_LIMIT * UNIT == 0
  {
  }

  lemma SentIs(round: real -> real, maxVariance: u64)
    requires RoundsToNearest(round)
    ensures Sent(round, maxVariance) == maxVariance / UNIT % U32_LIMIT * UNIT
  {
    RequestedExactly(round, Configured(maxVariance));
  }
}
