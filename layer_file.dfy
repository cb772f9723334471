/** A layer file: the layout of its data blocks and the four indexes built
    over it. */
module LayerFiles {
  import opened Parameters
  import opened Coverage
  import opened Indexes

  /** Sizing of one layer file. */
  datatype LayerFile = LayerFile(
    params: Params,
    valuesPerDataBlock: nat,
    dataBlockSize: nat,
    totalDataBlocks: nat,
    indexes: seq<Index>)

  /** Entry sizes, in bytes, of the row-number indexes and of the filter
      index; a data-index entry holds two values. */
  const C1ROW_ENTRY_SIZE: nat := 6
  const ROW_ENTRY_SIZE: nat := 12
  const FILTER_ENTRY_SIZE: nat := 5

  /** Number of values one unit beneath the filter index covers. */
  const FILTER_BASE_COVERAGE: nat := 65536

  /** Number of values in one data block. */
  function ValuesPerDataBlock(p: Params): (n: nat)
    requires p.valueSize > 0
  {
    ItemsPerBlock(p.minDataBlock, p.valueSize, p.minBranch)
  }

  /** What LayerFile::new needs of its inputs: a value size and a data block
      size to divide by, and four index-building loops that stop. */
  predicate CanBuildLayerFile(p: Params) {
    && p.valueSize > 0
    && ValuesPerDataBlock(p) > 0
    && CanBuild(p, 2 * p.valueSize, ValuesPerDataBlock(p))
    && CanBuild(p, C1ROW_ENTRY_SIZE, ValuesPerDataBlock(p))
    && CanBuild(p, ROW_ENTRY_SIZE, ValuesPerDataBlock(p))
    && CanBuild(p, FILTER_ENTRY_SIZE, FILTER_BASE_COVERAGE)
  }

  /** LayerFile::new: the data-block layout and the four indexes, in the
      order data, column-1 row, row, filter. The three indexes over data
      blocks sit above units of one data block; the filter index sits above
      units of FILTER_BASE_COVERAGE values whatever the data layout. */
  function NewLayerFile(p: Params): (lf: LayerFile)
    requires CanBuildLayerFile(p)
    ensures lf.params == p
    ensures lf.valuesPerDataBlock >= p.minBranch
    ensures lf.dataBlockSize == p.valueSize * lf.valuesPerDataBlock
    ensures p.minDataBlock < lf.dataBlockSize + p.valueSize
    ensures lf.valuesPerDataBlock == p.minBranch || lf.dataBlockSize <= p.minDataBlock
    ensures lf.totalDataBlocks * lf.dataBlockSize <= p.totalDataSize
    ensures p.totalDataSize < (lf.totalDataBlocks + 1) * lf.dataBlockSize
    ensures |lf.indexes| == 4
    ensures Describes(lf.indexes[0], p, Data, 2 * p.valueSize, lf.valuesPerDataBlock)
    ensures Describes(lf.indexes[1], p, C1Row, C1ROW_ENTRY_SIZE, lf.valuesPerDataBlock)
    ensures Describes(lf.indexes[2], p, Row, ROW_ENTRY_SIZE, lf.valuesPerDataBlock)
    ensures Describes(lf.indexes[3], p, Filter, FILTER_ENTRY_SIZE, FILTER_BASE_COVERAGE)
  {
    var valuesPerDataBlock := ValuesPerDataBlock(p);
    var dataBlockSize := p.valueSize * valuesPerDataBlock;
    DataLayout(p, valuesPerDataBlock);
    var totalDataBlocks := p.totalDataSize / dataBlockSize;
    var dataIndex := BuildIndex(p, Data, 2 * p.valueSize, valuesPerDataBlock);
    var c1RowIndex := BuildIndex(p, C1Row, C1ROW_ENTRY_SIZE, valuesPerDataBlock);
    var rowIndex := BuildIndex(p, Row, ROW_ENTRY_SIZE, valuesPerDataBlock);
    var filterIndex := BuildIndex(p, Filter, FILTER_ENTRY_SIZE, FILTER_BASE_COVERAGE);
    LayerFile(p, valuesPerDataBlock, dataBlockSize, totalDataBlocks,
              [dataIndex, c1RowIndex, rowIndex, filterIndex])
  }

  lemma DataLayout(p: Params, valuesPerDataBlock: nat)
    requires p.valueSize > 0 && valuesPerDataBlock == ValuesPerDataBlock(p) > 0
    ensures var dataBlockSize := p.valueSize * valuesPerDataBlock;
      && dataBlockSize > 0
      // true of any quotient of naturals, but NewLayerFile needs it stated
      // to store the quotient in a nat field
      && p.totalDataSize / dataBlockSize >= 0
      && p.minDataBlock < dataBlockSize + p.valueSize
      && (valuesPerDataBlock == p.minBranch || dataBlockSize <= p.minDataBlock)
      && (p.totalDataSize / dataBlockSize) * dataBlockSize <= p.totalDataSize
      && p.totalDataSize < (p.totalDataSize / dataBlockSize + 1) * dataBlockSize
  {
    var dataBlockSize := p.valueSize * valuesPerDataBlock;
    MulLeMono(1, valuesPerDataBlock, p.valueSize);
    assert (valuesPerDataBlock + 1) * p.valueSize == dataBlockSize + p.valueSize;
    var q := p.totalDataSize / dataBlockSize;
    assert p.totalDataSize == q * dataBlockSize + p.totalDataSize % dataBlockSize;
  }

  /** A minimum branching factor of at least 2 is enough for every
      index-building loop to stop. */
  lemma MinBranchTwoSuffices(p: Params)
    requires p.valueSize > 0 && p.minBranch >= 2
    ensures CanBuildLayerFile(p)
  {
  }

  /** The filter index does not depend on the data-block layout: changing the
      minimum data block leaves its fan-out, levels and size as they were. */
  lemma FilterIgnoresDataLayout(p: Params, q: Params)
    requires CanBuildLayerFile(p) && CanBuildLayerFile(q)
    requires q == p.(minDataBlock := q.minDataBlock)
    ensures var f, g := NewLayerFile(p).indexes[3], NewLayerFile(q).indexes[3];
      && f.entriesPerBlock == g.entriesPerBlock
      && f.coverage == g.coverage
      && TotalSize(f) == TotalSize(g)
  {
  }

  /** A 1 GiB file with 4096-byte data blocks has 262144 of them. */
  lemma GibibyteInPages()
    ensures var p := Params(1073741824, 16, 4096, 8192, 32);
      && CanBuildLayerFile(p)
      && NewLayerFile(p).dataBlockSize == 4096
      && NewLayerFile(p).totalDataBlocks == 262144
  {
    var p := Params(1073741824, 16, 4096, 8192, 32);
    MinBranchTwoSuffices(p);
  }

  /** No index of a layer file forms a coverage beyond u64 when the data size
      times the larger of the minimum index block and the minimum branching
      is at most U64_LIMIT. */
  lemma LayerFileInU64(p: Params)
    requires CanBuildLayerFile(p)
    requires p.totalDataSize * Max(p.minIndexBlock, p.minBranch) <= U64_LIMIT
    ensures forall j :: 0 <= j < 4 ==> InU64(NewLayerFile(p).indexes[j])
  {
    var vpdb := ValuesPerDataBlock(p);
    IndexInU64(p, Data, 2 * p.valueSize, vpdb);
    IndexInU64(p, C1Row, C1ROW_ENTRY_SIZE, vpdb);
    IndexInU64(p, Row, ROW_ENTRY_SIZE, vpdb);
    IndexInU64(p, Filter, FILTER_ENTRY_SIZE, FILTER_BASE_COVERAGE);
  }
}
