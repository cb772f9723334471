/** Sizing inputs of the index-coverage model and the two quantities derived
    from them directly: the value count and the number of items per block. */
module Parameters {

  /** Sizing inputs of one hypothetical layer file. Sizes are in bytes; the
      source stores every field as a u64, the model as an unbounded natural. */
  datatype Params = Params(
    totalDataSize: nat,
    valueSize: nat,
    minDataBlock: nat,
    minIndexBlock: nat,
    minBranch: nat)

  /** Number of values stored in the file: the whole number of
      `valueSize`-byte values that fit in `totalDataSize` bytes. */
  function TotalValues(p: Params): (n: nat)
    requires p.valueSize > 0
    ensures n * p.valueSize <= p.totalDataSize < (n + 1) * p.valueSize
  {
    p.totalDataSize / p.valueSize
  }

  /** Number of `itemSize`-byte items in one block: as many as fit in
      `minBlock` bytes, raised to `minBranch` when fewer fit. Gives the values
      per data block and the entries per index block alike. */
  function ItemsPerBlock(minBlock: nat, itemSize: nat, minBranch: nat): (n: nat)
    requires itemSize > 0
    ensures n >= minBranch
    ensures minBlock < (n + 1) * itemSize
    ensures n == minBranch || n * itemSize <= minBlock
  {
    var fit := minBlock / itemSize;
    if fit >= minBranch then fit else minBranch
  }

  lemma MulLeMono(x: nat, y: nat, z: nat)
    requires x <= y
    ensures x * z <= y * z
  {
  }

  /** The three facts ItemsPerBlock promises leave only one possible count. */
  lemma ItemsPerBlockUnique(minBlock: nat, itemSize: nat, minBranch: nat, n: nat)
    requires itemSize > 0
    requires n >= minBranch
    requires minBlock < (n + 1) * itemSize
    requires n == minBranch || n * itemSize <= minBlock
    ensures n == ItemsPerBlock(minBlock, itemSize, minBranch)
  {
    var m := ItemsPerBlock(minBlock, itemSize, minBranch);
    if n < m {
      // m > n >= minBranch, so m holds its items within minBlock
      MulLeMono(n + 1, m, itemSize);
    } else if m < n {
      MulLeMono(m + 1, n, itemSize);
    }
  }

  /** More data with the same value size never means fewer values. */
  lemma TotalValuesMonotone(p: Params, q: Params)
    requires p.valueSize > 0 && q.valueSize == p.valueSize
    requires p.totalDataSize <= q.totalDataSize
    ensures TotalValues(p) <= TotalValues(q)
  {
    var a, b := TotalValues(p), TotalValues(q);
    if b < a {
      MulLeMono(b + 1, a, p.valueSize);
    }
  }
}
