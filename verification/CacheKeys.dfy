/**
 The Redis keys of the semantic cache (taxcalc-ai/src/taxcalc_ai/cache.py): one counter per tenant,
 one slot per tenant, epoch and quantised query.
 */
module CacheKeys {
  import opened Decimals

  const QUANTISATION_FACTOR: real := 100.0
  const HASH_PREFIX_LENGTH: nat := 16
  const EPOCH_PREFIX: string := "taxcalc_ai:cache-epoch:"
  const SEMANTIC_PREFIX: string := "taxcalc_ai:sem:"

  /** The kept prefix of a hex digest. */
  type Digest = s: string | |s| == HASH_PREFIX_LENGTH witness "0000000000000000"

  type Vector = seq<real>

  function EpochKey(tenant: string): string {
    EPOCH_PREFIX + tenant
  }

  function SemanticKey(tenant: string, epoch: nat, digest: Digest): string {
    SEMANTIC_PREFIX + tenant + ":e" + Decimal(epoch) + ":" + digest
  }

  /** Nearest integer, halves to even, as NumPy rounds. */
  function Round(x: real): int {
    var f := x.Floor;
    var rest := x - f as real;
    if rest < 0.5 || (rest == 0.5 && f % 2 == 0) then f else f + 1
  }

  function Quantise(v: Vector): seq<int> {
    seq(|v|, i requires 0 <= i < |v| => Round(v[i] * QUANTISATION_FACTOR))
  }

  function BucketKey(v: Vector, tenant: string, epoch: nat, sha: seq<int> -> Digest): string {
    SemanticKey(tenant, epoch, sha(Quantise(v)))
  }

  /** The two key formats, and the two decimal places kept of every dimension. */
  lemma KeysRead(tenant: string, epoch: nat, digest: Digest, v: Vector)
    ensures EpochKey(tenant) == "taxcalc_ai:cache-epoch:" + tenant
    ensures SemanticKey(tenant, epoch, digest) == "taxcalc_ai:sem:" + tenant + ":e" + Decimal(epoch) + ":" + digest
    ensures |digest| == 16 && |Quantise(v)| == |v|
    ensures forall i :: 0 <= i < |v| ==> Quantise(v)[i] == Round(100.0 * v[i])
  {
  }

  /** The nearest integer, and the even one of two. */
  lemma RoundMeans(x: real, n: int)
    ensures -0.5 < x - n as real < 0.5 ==> Round(x) == n
    ensures x - n as real == 0.5 ==> Round(x) == if n % 2 == 0 then n else n + 1
  {
  }

  lemma PrefixCancels(p: string, a: string, b: string)
    requires p + a == p + b
    ensures a == b
  {
    assert (p + a)[|p|..] == a && (p + b)[|p|..] == b;
  }

  /** A slot names its tenant, epoch and digest, whatever the tenant id is made of. */
  lemma SemanticKeyInjective(t1: string, e1: nat, d1: Digest, t2: string, e2: nat, d2: Digest)
    requires SemanticKey(t1, e1, d1) == SemanticKey(t2, e2, d2)
    ensures t1 == t2 && e1 == e2 && d1 == d2
  {
    var head1, head2 := SEMANTIC_PREFIX + t1 + ":e" + Decimal(e1), SEMANTIC_PREFIX + t2 + ":e" + Decimal(e2);
    var key1, key2 := SemanticKey(t1, e1, d1), SemanticKey(t2, e2, d2);
    assert key1 == head1 + (":" + d1) && key2 == head2 + (":" + d2);
    assert key1[|head1|..] == ":" + d1 && key2[|head2|..] == ":" + d2;
    assert head1 == key1[..|head1|] && head2 == key2[..|head2|];
    PrefixCancels(":", d1, d2);
    var name1, name2 := SEMANTIC_PREFIX + t1 + ":", SEMANTIC_PREFIX + t2 + ":";
    assert head1 == name1 + ['e'] + Decimal(e1) && head2 == name2 + ['e'] + Decimal(e2);
    SplitAtLast(name1, name2, 'e', Decimal(e1), Decimal(e2));
    DecimalInjective(e1, e2);
    assert name1 == SEMANTIC_PREFIX + (t1 + ":") && name2 == SEMANTIC_PREFIX + (t2 + ":");
    PrefixCancels(SEMANTIC_PREFIX, t1 + ":", t2 + ":");
    assert (t1 + ":")[..|t1|] == t1 && (t2 + ":")[..|t2|] == t2;
  }

  lemma EpochKeyInjective(t1: string, t2: string)
    requires EpochKey(t1) == EpochKey(t2)
    ensures t1 == t2
  {
    PrefixCancels(EPOCH_PREFIX, t1, t2);
  }

  /** No slot is a counter. */
  lemma KeyFamiliesDisjoint(t1: string, e: nat, d: Digest, t2: string)
    ensures SemanticKey(t1, e, d) != EpochKey(t2)
  {
    assert SemanticKey(t1, e, d)[11] == 's';
    assert EpochKey(t2)[11] == 'c';
  }

  lemma RoundWithinHalf(x: real)
    ensures -0.5 <= x - Round(x) as real <= 0.5
  {
  }

  /** Vectors that quantise alike differ by at most a hundredth in every dimension. */
  lemma SameBucketIsClose(v: Vector, w: Vector)
    requires Quantise(v) == Quantise(w)
    ensures |v| == |w|
    ensures forall i :: 0 <= i < |v| ==> -0.01 <= v[i] - w[i] <= 0.01
  {
    assert |Quantise(v)| == |v| && |Quantise(w)| == |w|;
    forall i | 0 <= i < |v| ensures -0.01 <= v[i] - w[i] <= 0.01 {
      assert Quantise(v)[i] == Quantise(w)[i];
      RoundWithinHalf(v[i] * QUANTISATION_FACTOR);
      RoundWithinHalf(w[i] * QUANTISATION_FACTOR);
    }
  }

  /** The hundredth is attained, because halves round to even. */
  lemma SameBucketBoundIsTight()
    ensures Quantise([0.005]) == Quantise([-0.005])
  {
    assert (0.005 * QUANTISATION_FACTOR).Floor == 0;
    assert (-0.005 * QUANTISATION_FACTOR).Floor == -1;
  }

  /** Same tenant, epoch and an uncollided digest: the same slot means vectors that are close. */
  lemma SameSlotIsClose(v: Vector, w: Vector, t1: string, t2: string, e1: nat, e2: nat, sha: seq<int> -> Digest)
    requires BucketKey(v, t1, e1, sha) == BucketKey(w, t2, e2, sha)
    requires sha(Quantise(v)) == sha(Quantise(w)) ==> Quantise(v) == Quantise(w)
    ensures t1 == t2 && e1 == e2 && |v| == |w|
    ensures forall i :: 0 <= i < |v| ==> -0.01 <= v[i] - w[i] <= 0.01
  {
    SemanticKeyInjective(t1, e1, sha(Quantise(v)), t2, e2, sha(Quantise(w)));
    SameBucketIsClose(v, w);
  }
}
