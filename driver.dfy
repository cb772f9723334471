/** The sweep the program reports on: one layer file per value size, from
    16 bytes to 64 KiB, all other parameters fixed by the command line. */
module Driver {
  import opened Parameters
  import opened Coverage
  import opened Indexes
  import opened LayerFiles

  /** The numeric command-line settings. The total data size is given as a
      power-of-two exponent. */
  datatype Args = Args(
    minBranch: nat,
    minDataBlock: nat,
    minIndexBlock: nat,
    totalDataSizeLog2: nat)

  /** The command-line defaults: branching 32, 8 KiB blocks, 1 TiB of data. */
  const DEFAULT_ARGS: Args := Args(32, 8192, 8192, 40)

  /** Number of value sizes in the sweep: 2^4 through 2^16 bytes. */
  const SWEEP_LENGTH: nat := 13

  /** The parameters of each row of the sweep, smallest value size first. */
  function SweepParams(a: Args): (ps: seq<Params>)
    ensures |ps| == SWEEP_LENGTH
    ensures ps[0].valueSize == 16 && ps[SWEEP_LENGTH - 1].valueSize == 65536
    ensures forall i, j :: 0 <= i && j == i + 1 < |ps| ==> ps[j].valueSize == 2 * ps[i].valueSize
    ensures forall i :: 0 <= i < |ps| ==>
      ps[i] == Params(Pow(2, a.totalDataSizeLog2), ps[i].valueSize, a.minDataBlock, a.minIndexBlock, a.minBranch)
  {
    PowersOfTwo();
    seq(SWEEP_LENGTH, i requires 0 <= i < SWEEP_LENGTH =>
      Params(Pow(2, a.totalDataSizeLog2), Pow(2, i + 4), a.minDataBlock, a.minIndexBlock, a.minBranch))
  }

  /** Every row of the sweep can be built. */
  predicate CanSweep(a: Args) {
    forall i :: 0 <= i < SWEEP_LENGTH ==> CanBuildLayerFile(SweepParams(a)[i])
  }

  /** The layer file of each row of the sweep. */
  function Sweep(a: Args): (files: seq<LayerFile>)
    requires CanSweep(a)
    ensures |files| == SWEEP_LENGTH
    ensures forall i :: 0 <= i < |files| ==> files[i] == NewLayerFile(SweepParams(a)[i])
    ensures forall i :: 0 <= i < |files| ==> files[i].params == SweepParams(a)[i]
    ensures forall i :: 0 <= i < |files| ==> |files[i].indexes| == 4
  {
    seq(SWEEP_LENGTH, i requires 0 <= i < SWEEP_LENGTH => NewLayerFile(SweepParams(a)[i]))
  }

  /** A minimum branching factor of at least 2 makes the whole sweep
      buildable, whatever the block sizes and the data size. */
  lemma SweepDefined(a: Args)
    requires a.minBranch >= 2
    ensures CanSweep(a)
  {
    var ps := SweepParams(a);
    forall i | 0 <= i < SWEEP_LENGTH ensures CanBuildLayerFile(ps[i]) {
      assert ps[i].valueSize > 0 by {
        if i > 0 {
          ValueSizesPositive(ps, i);
        }
      }
      MinBranchTwoSuffices(ps[i]);
    }
  }

  lemma {:induction false} ValueSizesPositive(ps: seq<Params>, i: nat)
    requires 0 < |ps| && ps[0].valueSize > 0
    requires forall i, j :: 0 <= i && j == i + 1 < |ps| ==> ps[j].valueSize == 2 * ps[i].valueSize
    requires i < |ps|
    ensures ps[i].valueSize > 0
  {
    if i > 0 {
      ValueSizesPositive(ps, i - 1);
      assert ps[i].valueSize == 2 * ps[i - 1].valueSize;
    }
  }

  lemma PowersOfTwo()
    ensures Pow(2, 4) == 16 && Pow(2, 8) == 256
    ensures Pow(2, 16) == 65536 && Pow(2, 40) == 1099511627776
  {
    assert Pow(2, 1) == 2;
    assert Pow(2, 2) == 4;
    assert Pow(2, 3) == 8;
    assert Pow(2, 4) == 16;
    PowAdd(2, 4, 4);
    PowAdd(2, 8, 8);
    PowAdd(2, 16, 16);
    PowAdd(2, 32, 8);
  }

  /** Parameters of the first row of the default sweep: 16-byte values in
      1 TiB of data. */
  const FIRST_DEFAULT_ROW: Params := Params(1099511627776, 16, 8192, 8192, 32)

  lemma DefaultSweepStart()
    ensures CanSweep(DEFAULT_ARGS)
    ensures SweepParams(DEFAULT_ARGS)[0] == FIRST_DEFAULT_ROW
    ensures TotalValues(FIRST_DEFAULT_ROW) == 68719476736
  {
    SweepDefined(DEFAULT_ARGS);
    PowersOfTwo();
  }

  /** The data-block layout of the first default row: 512 values in each
      8 KiB data block, 2^27 data blocks. */
  lemma DefaultDataLayout()
    ensures CanBuildLayerFile(FIRST_DEFAULT_ROW)
    ensures var lf := NewLayerFile(FIRST_DEFAULT_ROW);
      && lf.valuesPerDataBlock == 512
      && lf.dataBlockSize == 8192
      && lf.totalDataBlocks == 134217728
  {
    MinBranchTwoSuffices(FIRST_DEFAULT_ROW);
  }

  /** The data index of the first default row: 256 entries per block, four
      levels covering 2^17, 2^25, 2^33 and 2^41 values, 4311818240 bytes. */
  lemma DefaultDataIndex()
    ensures CanBuild(FIRST_DEFAULT_ROW, 32, 512)
    ensures var idx := BuildIndex(FIRST_DEFAULT_ROW, Data, 32, 512);
      && idx.entriesPerBlock == 256
      && idx.coverage == [131072, 33554432, 8589934592, 2199023255552]
      && idx.height == 4
      && TotalSize(idx) == 4311818240
  {
    var total := TotalValues(FIRST_DEFAULT_ROW);
    assert total == 68719476736;
    assert ItemsPerBlock(8192, 32, 32) == 256;
    assert Chain(2199023255552, 256, total) == [];
    assert Chain(8589934592, 256, total) == [2199023255552];
    assert Chain(33554432, 256, total) == [8589934592, 2199023255552];
    assert Chain(131072, 256, total) == [33554432, 8589934592, 2199023255552];
    assert Chain(512, 256, total) == [131072, 33554432, 8589934592, 2199023255552];
    assert LevelBlocks(total, [2199023255552]) == 1;
    assert LevelBlocks(total, [8589934592, 2199023255552]) == 9;
    assert LevelBlocks(total, [33554432, 8589934592, 2199023255552]) == 2057;
    assert LevelBlocks(total, [131072, 33554432, 8589934592, 2199023255552]) == 526345;
  }

  /** The other indexes of the first default row: the column-1 row index has
      1365 entries per block and the row index 682, three levels each; the
      filter index has 1638 entries per block and two levels. */
  lemma DefaultOtherIndexes()
    ensures CanBuild(FIRST_DEFAULT_ROW, 6, 512)
    ensures CanBuild(FIRST_DEFAULT_ROW, 12, 512)
    ensures CanBuild(FIRST_DEFAULT_ROW, 5, 65536)
    ensures BuildIndex(FIRST_DEFAULT_ROW, C1Row, 6, 512).coverage == [698880, 953971200, 1302170688000]
    ensures BuildIndex(FIRST_DEFAULT_ROW, Row, 12, 512).coverage == [349184, 238143488, 162413858816]
    ensures BuildIndex(FIRST_DEFAULT_ROW, Filter, 5, 65536).coverage == [107347968, 175835971584]
  {
    var total := TotalValues(FIRST_DEFAULT_ROW);
    assert total == 68719476736;
    assert ItemsPerBlock(8192, 6, 32) == 1365;
    assert Chain(1302170688000, 1365, total) == [];
    assert Chain(953971200, 1365, total) == [1302170688000];
    assert Chain(698880, 1365, total) == [953971200, 1302170688000];
    assert ItemsPerBlock(8192, 12, 32) == 682;
    assert Chain(162413858816, 682, total) == [];
    assert Chain(238143488, 682, total) == [162413858816];
    assert Chain(349184, 682, total) == [238143488, 162413858816];
    assert ItemsPerBlock(8192, 5, 32) == 1638;
    assert Chain(175835971584, 1638, total) == [];
    assert Chain(107347968, 1638, total) == [175835971584];
  }

  /** Row `i` of the sweep is buildable and keeps every coverage within u64
      under the same bound as SweepInU64. */
  lemma RowInU64(a: Args, i: nat)
    requires a.minBranch >= 2 && i < SWEEP_LENGTH
    requires Pow(2, a.totalDataSizeLog2) * Max(a.minIndexBlock, a.minBranch) <= U64_LIMIT
    ensures CanBuildLayerFile(SweepParams(a)[i])
    ensures forall j :: 0 <= j < 4 ==> InU64(NewLayerFile(SweepParams(a)[i]).indexes[j])
  {
    SweepDefined(a);
    var p := SweepParams(a)[i];
    assert p.totalDataSize == Pow(2, a.totalDataSizeLog2);
    assert Max(p.minIndexBlock, p.minBranch) == Max(a.minIndexBlock, a.minBranch);
    LayerFileInU64(p);
  }

  /** Every index of every row of the sweep keeps its coverage within u64
      when the data size times the larger of the minimum index block and the
      minimum branching is at most U64_LIMIT. */
  lemma SweepInU64(a: Args)
    requires a.minBranch >= 2
    requires Pow(2, a.totalDataSizeLog2) * Max(a.minIndexBlock, a.minBranch) <= U64_LIMIT
    ensures CanSweep(a)
    ensures forall i :: 0 <= i < SWEEP_LENGTH ==>
      forall j :: 0 <= j < 4 ==> InU64(Sweep(a)[i].indexes[j])
  {
    SweepDefined(a);
    forall i | 0 <= i < SWEEP_LENGTH
      ensures forall j :: 0 <= j < 4 ==> InU64(Sweep(a)[i].indexes[j])
    {
      RowInU64(a, i);
    }
  }

  /** With the command-line defaults no coverage overflows a u64. */
  lemma DefaultsInU64()
    ensures CanSweep(DEFAULT_ARGS)
    ensures forall i :: 0 <= i < SWEEP_LENGTH ==>
      forall j :: 0 <= j < 4 ==> InU64(Sweep(DEFAULT_ARGS)[i].indexes[j])
  {
    PowersOfTwo();
    assert Pow(2, DEFAULT_ARGS.totalDataSizeLog2) * Max(DEFAULT_ARGS.minIndexBlock, DEFAULT_ARGS.minBranch)
        == 1099511627776 * 8192;
    SweepInU64(DEFAULT_ARGS);
  }
}
