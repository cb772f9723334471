/** One index over a layer file: its fan-out, its block size, the coverage of
    each of its levels, and the bytes all its levels take. */
module Indexes {
  import opened Parameters
  import opened Coverage

  /** The four kinds of index a layer file carries. */
  datatype IndexType = Data | C1Row | Row | Filter

  /** Sizing of one index; `coverage[k]` is the number of values one block at
      level `k + 1` covers, and `height` is the number of levels. */
  datatype Index = Index(
    params: Params,
    indexType: IndexType,
    entrySize: nat,
    entriesPerBlock: nat,
    blockSize: nat,
    coverage: seq<nat>,
    height: nat)

  /** What Index::new needs of its inputs: divisions by the value size and by
      the entry size, and a level-building loop that stops. */
  predicate CanBuild(p: Params, entrySize: nat, base: nat) {
    && p.valueSize > 0
    && entrySize > 0
    && Stops(base, ItemsPerBlock(p.minIndexBlock, entrySize, p.minBranch), TotalValues(p))
  }

  /** `idx` is the index of kind `indexType` over `p` whose entries take
      `entrySize` bytes and whose bottom level sits above units of `base`
      values: as many entries per block as fit in the minimum index block
      (at least the minimum branching), and a coverage chain that grows
      geometrically from `base` and stops at the first level that covers all
      values. */
  ghost predicate Describes(idx: Index, p: Params, indexType: IndexType, entrySize: nat, base: nat)
    requires p.valueSize > 0 && entrySize > 0
  {
    && idx.params == p
    && idx.indexType == indexType
    && idx.entrySize == entrySize
    && idx.entriesPerBlock == ItemsPerBlock(p.minIndexBlock, entrySize, p.minBranch)
    && idx.blockSize == entrySize * idx.entriesPerBlock
    && idx.height == |idx.coverage|
    && Geometric(idx.coverage, base, idx.entriesPerBlock)
    && Shortest(idx.coverage, base, TotalValues(p))
  }

  /** The index Index::new builds, as a value. */
  function BuildIndex(p: Params, indexType: IndexType, entrySize: nat, base: nat): (idx: Index)
    requires CanBuild(p, entrySize, base)
    ensures Describes(idx, p, indexType, entrySize, base)
    ensures idx.entriesPerBlock >= p.minBranch
    ensures idx.height == 0 <==> base >= TotalValues(p)
    ensures forall k {:trigger Below(idx.coverage, base, k)} :: 0 <= k < idx.height ==> Below(idx.coverage, base, k) < idx.coverage[k]
    ensures forall k :: 0 <= k < idx.height ==> base < idx.coverage[k]
  {
    var entriesPerBlock := ItemsPerBlock(p.minIndexBlock, entrySize, p.minBranch);
    var coverage := Chain(base, entriesPerBlock, TotalValues(p));
    Index(p, indexType, entrySize, entriesPerBlock, entrySize * entriesPerBlock, coverage, |coverage|)
  }

  /** Describes pins the index down: the index it describes is BuildIndex's. */
  lemma DescribesUnique(idx: Index, p: Params, indexType: IndexType, entrySize: nat, base: nat)
    requires CanBuild(p, entrySize, base)
    requires Describes(idx, p, indexType, entrySize, base)
    ensures idx == BuildIndex(p, indexType, entrySize, base)
  {
    ChainUnique(idx.coverage, base, idx.entriesPerBlock, TotalValues(p));
  }

  /** `coverage` holds the first levels of the chain grown from `base`: the
      loop of Index::new, continued from the coverage on top of them, builds
      the rest. */
  predicate BuiltSoFar(coverage: seq<nat>, base: nat, fanout: nat, total: nat) {
    && Stops(base, fanout, total)
    && Stops(Below(coverage, base, |coverage|), fanout, total)
    && coverage + Chain(Below(coverage, base, |coverage|), fanout, total) == Chain(base, fanout, total)
  }

  /** One iteration of the loop of Index::new keeps BuiltSoFar. */
  lemma PushLevel(coverage: seq<nat>, base: nat, fanout: nat, total: nat)
    requires BuiltSoFar(coverage, base, fanout, total)
    requires Below(coverage, base, |coverage|) < total
    ensures var last := Below(coverage, base, |coverage|);
      && last < last * fanout
      && BuiltSoFar(coverage + [last * fanout], base, fanout, total)
  {
    var last := Below(coverage, base, |coverage|);
    ChainStep(last, fanout, total);
    var longer := coverage + [last * fanout];
    assert Below(longer, base, |longer|) == last * fanout;
    assert longer + Chain(last * fanout, fanout, total) == coverage + Chain(last, fanout, total);
  }

  /** Once the coverage on top reaches `total`, the loop of Index::new has
      built the whole chain. */
  lemma BuiltAll(coverage: seq<nat>, base: nat, fanout: nat, total: nat)
    requires BuiltSoFar(coverage, base, fanout, total)
    requires Below(coverage, base, |coverage|) >= total
    ensures coverage == Chain(base, fanout, total)
  {
    assert Chain(Below(coverage, base, |coverage|), fanout, total) == [];
  }

  /** The loop of Index::new: push the next coverage onto `coverage` until
      the last coverage (or `base` while there is none) reaches `total`. */
  method GrowCoverage(base: nat, fanout: nat, total: nat) returns (coverage: seq<nat>)
    requires Stops(base, fanout, total)
    ensures coverage == Chain(base, fanout, total)
  {
    coverage := [];
    while true
      invariant BuiltSoFar(coverage, base, fanout, total)
      decreases total - Below(coverage, base, |coverage|)
    {
      var last := Below(coverage, base, |coverage|);
      if last >= total {
        break;
      }
      PushLevel(coverage, base, fanout, total);
      coverage := coverage + [last * fanout];
    }
    BuiltAll(coverage, base, fanout, total);
  }

  /** Index::new: the fan-out and block size of the index, then its coverage
      levels. */
  method NewIndex(p: Params, indexType: IndexType, entrySize: nat, base: nat) returns (idx: Index)
    requires CanBuild(p, entrySize, base)
    ensures idx == BuildIndex(p, indexType, entrySize, base)
  {
    var entriesPerBlock := ItemsPerBlock(p.minIndexBlock, entrySize, p.minBranch);
    var blockSize := entrySize * entriesPerBlock;
    var coverage := GrowCoverage(base, entriesPerBlock, TotalValues(p));
    idx := Index(p, indexType, entrySize, entriesPerBlock, blockSize, coverage, |coverage|);
  }

  /** Blocks needed to hold `n` items when a block holds `d` of them: enough
      blocks for all items, and one block fewer would not be enough. */
  function CeilDiv(n: nat, d: nat): (q: nat)
    requires d > 0
    ensures q * d >= n
    ensures q * d < n + d
  {
    var quotient := n / d;
    if n % d > 0 then quotient + 1 else quotient
  }

  /** The two facts CeilDiv promises leave only one possible block count. */
  lemma CeilDivUnique(n: nat, d: nat, q: nat)
    requires d > 0 && q * d >= n && q * d < n + d
    ensures q == CeilDiv(n, d)
  {
    var r := CeilDiv(n, d);
    if q < r {
      MulLeMono(q + 1, r, d);
    } else if r < q {
      MulLeMono(r + 1, q, d);
    }
  }

  /** More items never need fewer blocks. */
  lemma CeilDivMonotone(m: nat, n: nat, d: nat)
    requires d > 0 && m <= n
    ensures CeilDiv(m, d) <= CeilDiv(n, d)
  {
    var a, b := CeilDiv(m, d), CeilDiv(n, d);
    if b < a {
      MulLeMono(b + 1, a, d);
    }
  }

  /** Grouping `n` items `a` to a block, then those blocks `b` to a block,
      takes as many blocks as grouping the items `a * b` to a block. */
  lemma CeilDivNested(n: nat, a: nat, b: nat)
    requires a > 0 && b > 0
    ensures CeilDiv(CeilDiv(n, a), b) == CeilDiv(n, a * b)
  {
    var q := CeilDiv(n, a);
    var r := CeilDiv(q, b);
    MulLeMono(q, r * b, a);
    assert r * (a * b) == (r * b) * a;
    MulLeMono(r * b, q + b - 1, a);
    assert (q + b - 1) * a == q * a + (b - 1) * a;
    assert (b - 1) * a == a * b - a;
    CeilDivUnique(n, a * b, r);
  }

  /** Number of blocks over all levels: for each level, the blocks needed to
      cover `total` values when one block covers that level's coverage. */
  function LevelBlocks(total: nat, coverage: seq<nat>): (blocks: nat)
    requires forall k :: 0 <= k < |coverage| ==> coverage[k] > 0
    ensures total == 0 ==> blocks == 0
    ensures total > 0 ==> blocks >= |coverage|
  {
    if coverage == [] then 0
    else CeilDiv(total, coverage[0]) + LevelBlocks(total, coverage[1..])
  }

  /** Index::total_size: the bytes the index takes over all its levels. */
  function TotalSize(idx: Index): (bytes: nat)
    requires idx.params.valueSize > 0
    requires forall k :: 0 <= k < |idx.coverage| ==> idx.coverage[k] > 0
    ensures TotalValues(idx.params) == 0 || idx.coverage == [] ==> bytes == 0
    ensures TotalValues(idx.params) > 0 ==> bytes >= |idx.coverage| * idx.blockSize
  {
    var total := TotalValues(idx.params);
    var blocks := LevelBlocks(total, idx.coverage);
    assert total > 0 ==> |idx.coverage| * idx.blockSize <= blocks * idx.blockSize by {
      if total > 0 {
        MulLeMono(|idx.coverage|, blocks, idx.blockSize);
      }
    }
    blocks * idx.blockSize
  }

  /** The top level of an index is a single block, and at each level above the
      bottom one there is one entry per block of the level beneath: the block
      count of level `k` is that of the level beneath, divided by the fan-out
      and rounded up. */
  lemma LevelsNest(p: Params, indexType: IndexType, entrySize: nat, base: nat, k: nat)
    requires CanBuild(p, entrySize, base)
    requires k < BuildIndex(p, indexType, entrySize, base).height
    ensures var idx := BuildIndex(p, indexType, entrySize, base);
      && Below(idx.coverage, base, k) > 0
      && CeilDiv(TotalValues(p), idx.coverage[k])
         == CeilDiv(CeilDiv(TotalValues(p), Below(idx.coverage, base, k)), idx.entriesPerBlock)
      && CeilDiv(TotalValues(p), idx.coverage[idx.height - 1]) == 1
  {
    var idx := BuildIndex(p, indexType, entrySize, base);
    var c, total := idx.coverage, TotalValues(p);
    assert base < total && base > 0;
    if k > 0 {
      Increasing(c, base, 0, k);
      assert c[0] > base;
    }
    assert c[k] == Below(c, base, k) * idx.entriesPerBlock;
    CeilDivNested(total, Below(c, base, k), idx.entriesPerBlock);
    CeilDivUnique(total, c[idx.height - 1], 1);
  }

  /** LevelBlocks grows with the number of values it covers. */
  lemma {:induction false} LevelBlocksMonotone(small: nat, large: nat, coverage: seq<nat>)
    requires small <= large
    requires forall k :: 0 <= k < |coverage| ==> coverage[k] > 0
    ensures LevelBlocks(small, coverage) <= LevelBlocks(large, coverage)
    decreases |coverage|
  {
    if coverage != [] {
      CeilDivMonotone(small, large, coverage[0]);
      LevelBlocksMonotone(small, large, coverage[1..]);
    }
  }

  /** Extra levels only add blocks. */
  lemma {:induction false} LevelBlocksPrefix(total: nat, short: seq<nat>, long: seq<nat>)
    requires short <= long
    requires forall k :: 0 <= k < |long| ==> long[k] > 0
    ensures LevelBlocks(total, short) <= LevelBlocks(total, long)
    decreases |short|
  {
    if short != [] {
      assert short[1..] <= long[1..];
      LevelBlocksPrefix(total, short[1..], long[1..]);
    }
  }

  /** An index takes no bytes exactly when it has no levels, which happens
      exactly when the base unit already covers every value. */
  lemma EmptyIndex(p: Params, indexType: IndexType, entrySize: nat, base: nat)
    requires CanBuild(p, entrySize, base)
    ensures var idx := BuildIndex(p, indexType, entrySize, base);
      && (TotalSize(idx) == 0 <==> idx.height == 0)
      && (idx.height == 0 <==> base >= TotalValues(p))
  {
    var idx := BuildIndex(p, indexType, entrySize, base);
    if idx.height > 0 {
      var blocks := LevelBlocks(TotalValues(p), idx.coverage);
      assert blocks >= 1;
      assert idx.entriesPerBlock >= 2;
      MulLeMono(1, entrySize, idx.entriesPerBlock);
      MulLeMono(1, blocks, idx.blockSize);
    }
  }

  /** With everything else fixed, a larger file never has a smaller index. */
  lemma TotalSizeMonotone(p: Params, q: Params, indexType: IndexType, entrySize: nat, base: nat)
    requires CanBuild(p, entrySize, base) && CanBuild(q, entrySize, base)
    requires q == p.(totalDataSize := q.totalDataSize)
    requires p.totalDataSize <= q.totalDataSize
    ensures TotalSize(BuildIndex(p, indexType, entrySize, base))
         <= TotalSize(BuildIndex(q, indexType, entrySize, base))
  {
    var small, large := BuildIndex(p, indexType, entrySize, base), BuildIndex(q, indexType, entrySize, base);
    var ts, tl := TotalValues(p), TotalValues(q);
    TotalValuesMonotone(p, q);
    ChainPrefix(base, small.entriesPerBlock, ts, tl);
    LevelBlocksMonotone(ts, tl, small.coverage);
    LevelBlocksPrefix(tl, small.coverage, large.coverage);
    MulLeMono(LevelBlocks(ts, small.coverage), LevelBlocks(tl, large.coverage), small.blockSize);
  }

  /** One more than the largest u64. */
  const U64_LIMIT: nat := 0x1_0000_0000_0000_0000

  function Max(a: nat, b: nat): (m: nat) {
    if a >= b then a else b
  }

  /** Every coverage of `idx` fits in a u64. */
  predicate InU64(idx: Index) {
    forall k :: 0 <= k < |idx.coverage| ==> idx.coverage[k] < U64_LIMIT
  }

  /** No level covers as many values as the data size times the larger of
      the minimum index block and the minimum branching; when that product is
      at most U64_LIMIT, every coverage the loop of Index::new forms fits in a
      u64. */
  lemma IndexInU64(p: Params, indexType: IndexType, entrySize: nat, base: nat)
    requires CanBuild(p, entrySize, base)
    requires p.totalDataSize * Max(p.minIndexBlock, p.minBranch) <= U64_LIMIT
    ensures InU64(BuildIndex(p, indexType, entrySize, base))
  {
    var idx := BuildIndex(p, indexType, entrySize, base);
    var total, fanout := TotalValues(p), idx.entriesPerBlock;
    var bound := Max(p.minIndexBlock, p.minBranch);
    if idx.height > 0 {
      MulLeMono(1, entrySize, fanout);
      assert fanout <= bound;
      MulLeMono(1, p.valueSize, total);
      assert total <= p.totalDataSize;
      MulLeMono(total, p.totalDataSize, fanout);
      MulLeMono(fanout, bound, p.totalDataSize);
      assert total * fanout <= U64_LIMIT;
      ChainBound(base, fanout, total);
    }
  }
}
