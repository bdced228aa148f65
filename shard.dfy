/**
 * The shard router: which node completes which resource. A resource
 * belongs to the node whose index equals the 32-bit FNV-1a hash of the
 * resource id modulo the number of nodes; the configuration comes from
 * the NODE_INDEX and TOTAL_NODES environment variables.
 */
module Shard {
  import opened Common
  import opened Decimal

  /** FNV-1a, 32-bit (Go's hash/fnv New32a). */
  const OffsetBasis32: bv32 := 2166136261
  const Prime32: bv32 := 16777619

  /** One FNV-1a round: xor the byte in, then multiply by the prime (mod 2^32). */
  function FnvStep(h: bv32, b: byte): bv32
  {
    (h ^ (b as bv32)) * Prime32
  }

  /** Feed `data` into a running FNV-1a state, byte by byte. */
  function FnvFold(h: bv32, data: Bytes): bv32
    decreases |data|
  {
    if |data| == 0 then h else FnvFold(FnvStep(h, data[0]), data[1..])
  }

  function Fnv1a32(data: Bytes): bv32
  {
    FnvFold(OffsetBasis32, data)
  }

  /** Writing the input in two pieces gives the same state as writing it at once. */
  lemma {:induction false} FnvFoldAppend(h: bv32, a: Bytes, b: Bytes)
    decreases |a|
    ensures FnvFold(h, a + b) == FnvFold(FnvFold(h, a), b)
  {
    if |a| > 0 {
      assert (a + b)[1..] == a[1..] + b;
      FnvFoldAppend(FnvStep(h, a[0]), a[1..], b);
    } else {
      assert a + b == b;
    }
  }

  /** Published FNV-1a test vectors: "" and "a". */
  lemma FnvVectors()
    ensures Fnv1a32([]) == 0x811c9dc5
    ensures Fnv1a32([97]) == 0xe40c292c
  {
    var one: Bytes := [97];
    assert one[1..] == [];
    assert FnvStep(OffsetBasis32, 97) == 0xe40c292c;
  }

  datatype ShardConfig = ShardConfig(nodeIndex: int, totalNodes: int)
  {
    /** The node this resource id hashes to, under `totalNodes` nodes. */
    function Owner(resourceId: Bytes): (k: nat)
      requires totalNodes > 0
      ensures k < totalNodes
    {
      (Fnv1a32(resourceId) as int) % totalNodes
    }

    /** OwnsShard: hash(resourceId) % TotalNodes == NodeIndex. */
    predicate OwnsShard(resourceId: Bytes)
      requires totalNodes > 0
    {
      Owner(resourceId) == nodeIndex
    }
  }

  /** For one id and one cluster size, exactly one index in [0, n) owns it. */
  lemma ExactlyOneOwner(resourceId: Bytes, n: int)
    requires n >= 1
    ensures (set i | 0 <= i < n && ShardConfig(i, n).OwnsShard(resourceId)) == {ShardConfig(0, n).Owner(resourceId)}
    ensures |set i | 0 <= i < n && ShardConfig(i, n).OwnsShard(resourceId)| == 1
  {
    var owner := ShardConfig(0, n).Owner(resourceId);
    var owners := set i | 0 <= i < n && ShardConfig(i, n).OwnsShard(resourceId);
    assert owner in owners by {
      assert ShardConfig(owner, n).Owner(resourceId) == owner;
    }
    forall i | i in owners ensures i == owner {
      assert ShardConfig(i, n).Owner(resourceId) == owner;
    }
    assert owners == {owner};
  }

  /** Two nodes of one cluster that both own an id have the same index. */
  lemma OwnersAreUnique(resourceId: Bytes, a: ShardConfig, b: ShardConfig)
    requires a.totalNodes == b.totalNodes >= 1
    requires a.OwnsShard(resourceId) && b.OwnsShard(resourceId)
    ensures a.nodeIndex == b.nodeIndex
  {
  }

  /** Single-node mode owns every resource. */
  lemma SingleNodeOwnsAll(resourceId: Bytes)
    ensures ShardConfig(0, 1).OwnsShard(resourceId)
  {
  }

  /**
   * ParseShardConfig, with the two environment variables as arguments
   * (an unset variable reads as ""): an unparsable NODE_INDEX gives 0; an
   * unparsable or non-positive TOTAL_NODES gives 1.
   */
  function ParseShardConfig(nodeIndexEnv: string, totalNodesEnv: string): (cfg: ShardConfig)
    ensures cfg.totalNodes >= 1
    ensures Atoi(nodeIndexEnv).None? ==> cfg.nodeIndex == 0
    ensures Atoi(nodeIndexEnv).Some? ==> cfg.nodeIndex == Atoi(nodeIndexEnv).value
    ensures cfg.totalNodes == (if Atoi(totalNodesEnv).Some? && Atoi(totalNodesEnv).value > 0 then Atoi(totalNodesEnv).value else 1)
  {
    var nodeIndex := match Atoi(nodeIndexEnv) case Some(i) => i case None => 0;
    var totalNodes := match Atoi(totalNodesEnv) case Some(n) => (if n <= 0 then 1 else n) case None => 1;
    ShardConfig(nodeIndex, totalNodes)
  }

  /** With neither variable set, the node runs in single-node mode. */
  lemma DefaultsToSingleNode()
    ensures ParseShardConfig("", "") == ShardConfig(0, 1)
  {
  }

  /** Values that Itoa prints come back unchanged ("2" and "5" give {2, 5}). */
  lemma ParseRoundTrip(nodeIndex: int, totalNodes: int)
    requires MinInt64 <= nodeIndex <= MaxInt64
    requires 1 <= totalNodes <= MaxInt64
    ensures ParseShardConfig(IntToString(nodeIndex), IntToString(totalNodes)) == ShardConfig(nodeIndex, totalNodes)
  {
    AtoiOfIntToString(nodeIndex);
    AtoiOfIntToString(totalNodes);
  }

  /** TOTAL_NODES of zero or below falls back to one node. */
  lemma NonPositiveTotalIsSingleNode(nodeIndexEnv: string, totalNodes: int)
    requires MinInt64 <= totalNodes <= 0
    ensures ParseShardConfig(nodeIndexEnv, IntToString(totalNodes)).totalNodes == 1
  {
    AtoiOfIntToString(totalNodes);
  }
}
