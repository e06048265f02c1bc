/** How many signatures an update asks for: a third more than each feed's least sample size, rounded up. */
module Quorum {
  import opened Wrappers
  import opened Bytes
  import opened Doubles

  function Ceiling(x: real): int { -((-x).Floor) }

  /** The default of a single-feed update: the sum is taken in doubles and cast at the end. */
  function DefaultSignatures(round: real -> real, minSampleSize: byte): u32 {
    CastU32(round(minSampleSize as real + Ceiling(round(minSampleSize as real / 3.0)) as real))
  }

  /** The lower bound of a consensus update: the third is cast first, the sum is taken in u32. */
  function LowerBound(round: real -> real, minSampleSize: byte): nat {
    minSampleSize + CastU32(Ceiling(round(minSampleSize as real / 3.0)) as real)
  }

  /** The smallest integer at least `4n/3`. */
  function FourThirds(n: nat): nat { (4 * n + 2) / 3 }

  /** The greatest of the requested count, or 1, and the lower bounds of the feeds. */
  ghost predicate IsConsensusCount(round: real -> real, requested: Option<u32>, sizes: seq<byte>, x: nat) {
    var least: nat := if requested.Some? then requested.value else 1;
    && x >= least && (forall n :: n in sizes ==> x >= LowerBound(round, n))
    && (x == least || exists n :: n in sizes && x == LowerBound(round, n))
  }

  method ConsensusSignatures(round: real -> real, requested: Option<u32>, minSampleSizes: seq<byte>)
    returns (numSignatures: nat)
    ensures IsConsensusCount(round, requested, minSampleSizes, numSignatures)
  {
    numSignatures := if requested.Some? then requested.value else 1;
    for i := 0 to |minSampleSizes|
      invariant IsConsensusCount(round, requested, minSampleSizes[..i], numSignatures)
    {
      assert minSampleSizes[..i + 1] == minSampleSizes[..i] + [minSampleSizes[i]];
      var numSigLowerBound := LowerBound(round, minSampleSizes[i]);
      if numSignatures < numSigLowerBound {
        numSignatures := numSigLowerBound;
      }
    }
    assert minSampleSizes[..|minSampleSizes|] == minSampleSizes;
  }

  lemma NearThird(k: int, third: real, x: real, q: real)
    requires third in {1.0, 2.0} && 3.0 * x == 3.0 * k as real + third && Distance(q, x) <= 1.0 / 12.0
    ensures Ceiling(q) == k + 1
  {
  }

  /** A double nearest to a third of a small integer has the same ceiling: some quarter is within a twelfth. */
  lemma ThirdRoundsUp(round: real -> real, n: byte)
    requires RoundsToNearest(round)
    ensures Ceiling(round(n as real / 3.0)) == (n + 2) / 3
  {
    var x, k := n as real / 3.0, n / 3;
    assert Pow2(0) == 1 && Pow2(2) == 4;
    if n % 3 == 0 {
      assert Dyadic(k as real, k, 0);
      RoundsExactly(round, x);
    } else {
      var quarters := 4 * k + (if n % 3 == 1 then 1 else 3);
      var near := quarters as real / 4.0;
      assert Dyadic(near, quarters, 2);
      assert Nearest(round(x), x);
      assert Distance(round(x), x) <= Distance(near, x);
      NearThird(k, (n % 3) as real, x, round(x));
    }
  }

  /** Both routes ask for exactly the smallest integer at least 4n/3. */
  lemma RoutesAgree(round: real -> real, n: byte)
    requires RoundsToNearest(round)
    ensures LowerBound(round, n) == FourThirds(n) && DefaultSignatures(round, n) == FourThirds(n)
    ensures forall asked: nat :: asked >= FourThirds(n) <==> 3 * asked >= 4 * n
  {
    ThirdRoundsUp(round, n);
    var sum := n + (n + 2) / 3;
    assert sum == FourThirds(n);
    assert Pow2(0) == 1 && Dyadic(sum as real, sum, 0);
    RoundsExactly(round, sum as real);
  }

  /** If at most a quarter of the signatures is lost, every feed keeps its least sample size. */
  lemma QuarterLost(n: nat, asked: nat, lost: nat)
    requires asked >= FourThirds(n) && 4 * lost <= asked
    ensures asked - lost >= n
  {
  }

  /** Every loss of up to a quarter leaves `n` exactly when at least one less than the client's count is asked for. */
  lemma QuarterLostExactly(n: nat, asked: nat)
    ensures (forall lost: nat :: 4 * lost <= asked ==> asked - lost >= n) <==> asked + 1 >= FourThirds(n)
  {
    var most := asked / 4;
    assert 4 * most <= asked;
  }

  /** The count does not depend on the order of the feeds. */
  lemma OrderIndependent(round: real -> real, requested: Option<u32>, a: seq<byte>, b: seq<byte>, x: nat, y: nat)
    requires multiset(a) == multiset(b)
    requires IsConsensusCount(round, requested, a, x) && IsConsensusCount(round, requested, b, y)
    ensures x == y
  {
    forall n ensures n in a <==> n in b {
      assert n in a <==> n in multiset(a);
      assert n in b <==> n in multiset(b);
    }
  }
}
