# Index coverage of a layer file

This project models a small sizing calculator for the storage layer of an
incremental database. A *layer file* stores `totalDataSize / valueSize`
fixed-size values in data blocks. Above the data blocks sit four B-tree-like
indexes:

- a data index, whose entries hold the first and last value of a child block;
- a column-1 row-number index;
- a row-number index for the other columns;
- a filter index over fixed spans of 65536 values.

For each index the calculator derives:

- the number of entries per index block;
- the block size;
- the *coverage* of every level, meaning how many values one block at that
  level spans;
- the height;
- the bytes taken by all levels.

It does this for value sizes 16, 32, ..., 65536 bytes under one set of
command-line settings.

The model follows `src/main.rs` in five modules:

- `Parameters` holds the sizing inputs (`Params`), the value count, and the
  "as many as fit in the minimum block, but at least the minimum branching"
  rule. That rule sizes both data blocks and index blocks.
- `Coverage` holds the coverage chain as a recursive function (`Chain`). It
  also holds the properties that pin the chain down: each level is the level
  beneath times the fan-out, and it is the shortest chain that reaches the
  value count. Its further lemmas cover the closed form `base * fanout^(k+1)`,
  strict growth, the height as the least sufficient power, and the exact
  condition under which the loop of `Index::new` stops.
- `Indexes` holds `Index::new`, both as a function (`BuildIndex`) and as the
  source's loop (`GrowCoverage` and `NewIndex`, proved equal to the function).
  It also holds `Index::total_size` with its rounded-up division per level,
  and the u64 bound on the coverages.
- `LayerFiles` holds `LayerFile::new`: the data-block layout and the four
  indexes with their entry sizes (2 × value size, 6, 12, 5) and bases.
- `Driver` holds the command-line defaults and the sweep over value sizes.
  It also works out the first row of the default sweep.

Each u64 of the source is an unbounded natural in the model. Where the source
would divide by zero or loop forever, the model states the condition in a
`requires`:

- `valueSize > 0` and entry size > 0 for the divisions;
- at least one value per data block (`LayerFiles.CanBuildLayerFile`), so that
  the data block size that `src/main.rs:144` divides by is not zero. With a
  minimum branching of 0 and a value larger than the minimum data block,
  the source divides by zero there;
- `Coverage.Stops` for the loop.

`Coverage.LoopDivergesOtherwise` shows that `Stops` is exact. In the source,
`total_data_blocks` is rounded down (`src/main.rs:144`), while the block
counts in `total_size` are rounded up (`src/main.rs:110-116`). The model keeps
both as written.

## Model

| member | source | states |
|---|---|---|
| Parameters.TotalValues | src/main.rs:34-36 | the value count is the largest `n` with `n * valueSize <= totalDataSize` |
| Parameters.ItemsPerBlock | src/main.rs:75-76 | the entries per block are at least the minimum branching; one more entry would overflow the minimum block; unless raised to the minimum branching, the entries fit in the minimum block |
| Parameters.ItemsPerBlockUnique | src/main.rs:75-76 | the three facts ItemsPerBlock promises determine its result uniquely |
| Parameters.TotalValuesMonotone | src/main.rs:34-36 | more data with the same value size never gives fewer values |
| Coverage.Chain | src/main.rs:79-86 | the coverages the loop pushes: each is the previous one (or the base) times the fan-out, each was pushed while the previous one was below the value count, the last reaches the value count, and they all exceed the base and grow level by level |
| Coverage.ChainStep | src/main.rs:81-85 | one loop iteration below the value count pushes `last * fanout` and leaves the rest of the chain to be grown from it |
| Coverage.LoopDivergesOtherwise | src/main.rs:80-86 | when the base is zero or the fan-out below 2 while the base is below the value count, the loop never reaches the value count |
| Coverage.ChainUnique | src/main.rs:52-63 | any sequence that grows geometrically and stops at the first level that covers all values is the chain the loop builds |
| Coverage.ChainIncreasing | src/main.rs:52-60 | coverages strictly increase from level to level |
| Coverage.ClosedForm | src/main.rs:52-57 | level `k` covers `base * fanout^(k+1)` values |
| Coverage.HeightIsLeastPower | src/main.rs:80-87 | the height is the least `h` with `base * fanout^h >= total values` |
| Coverage.ChainPrefix | src/main.rs:80-86 | the chain for fewer values is a prefix of the chain for more values |
| Coverage.ChainBound | src/main.rs:85 | every product the loop forms is below `total values * fanout` |
| Indexes.BuildIndex | src/main.rs:67-98 | the index keeps its inputs; its entries per block come from ItemsPerBlock on the minimum index block and are at least the minimum branching; its block size is entry size × entries; its coverage is geometric and shortest; its height is the number of levels and is 0 exactly when the base covers every value |
| Indexes.DescribesUnique | src/main.rs:67-98 | the properties BuildIndex promises determine the index uniquely |
| Indexes.PushLevel | src/main.rs:81-85 | one iteration keeps the loop invariant: the pushed coverages followed by the chain from the last one form the whole chain |
| Indexes.BuiltAll | src/main.rs:82-83 | when the loop breaks, the pushed coverages are the whole chain |
| Indexes.GrowCoverage | src/main.rs:79-86 | the loop, run on a growing sequence, returns exactly the chain |
| Indexes.NewIndex | src/main.rs:67-98 | Index::new, step by step, returns the index BuildIndex describes |
| Indexes.CeilDiv | src/main.rs:110-116 | the per-level block count is enough blocks for all values, and one block fewer is not enough |
| Indexes.CeilDivUnique | src/main.rs:110-116 | those two facts determine the block count uniquely |
| Indexes.CeilDivMonotone | src/main.rs:110-116 | more values never need fewer blocks at a level |
| Indexes.CeilDivNested | src/main.rs:110-116 | rounding up twice, by `a` then by `b`, equals rounding up once by `a * b` |
| Indexes.LevelBlocks | src/main.rs:103-119 | the sum of the per-level block counts is 0 for no values, and otherwise at least one block per level |
| Indexes.TotalSize | src/main.rs:102-121 | the index takes no bytes when there are no values or no levels; otherwise it takes at least one block of `blockSize` bytes per level |
| Indexes.LevelsNest | src/main.rs:102-121 | the top level is one block, and each level has as many blocks as the level beneath divided by the fan-out, rounded up |
| Indexes.LevelBlocksMonotone | src/main.rs:103-119 | the block total grows with the value count |
| Indexes.LevelBlocksPrefix | src/main.rs:103-119 | extra levels only add blocks |
| Indexes.EmptyIndex | src/main.rs:102-121 | an index takes 0 bytes exactly when it has height 0, which happens exactly when the base already covers every value |
| Indexes.TotalSizeMonotone | src/main.rs:102-121 | with everything else fixed, a larger file never has a smaller index |
| Indexes.IndexInU64 | src/main.rs:77-85 | when the data size times the larger of the minimum index block and the minimum branching is at most 2^64, every coverage fits in a u64 |
| LayerFiles.NewLayerFile | src/main.rs:140-172 | the values per data block come from ItemsPerBlock on the minimum data block; the data block size is value size × values per block; the data-block count is the data size divided by the block size, rounded down; the four indexes are data (entry 2 × value size), column-1 row (6), row (12) over data blocks, and filter (5) over 65536-value spans |
| LayerFiles.DataLayout | src/main.rs:141-144 | a data block is positive in size, is large enough that one more value would overflow the minimum data block, and fits in the minimum data block unless raised to the minimum branching; the data-block count is the floor quotient |
| LayerFiles.MinBranchTwoSuffices | src/main.rs:140-163 | with a positive value size and a minimum branching of at least 2, every index-building loop stops |
| LayerFiles.FilterIgnoresDataLayout | src/main.rs:163 | the filter index does not depend on the minimum data block |
| LayerFiles.GibibyteInPages | src/main.rs:141-144 | 1 GiB of 16-byte values in 4096-byte data blocks needs 262144 blocks |
| LayerFiles.LayerFileInU64 | src/main.rs:148-163 | under the bound of IndexInU64, all four indexes keep their coverages within a u64 |
| Driver.SweepParams | src/main.rs:283-302 | the sweep has 13 rows with value sizes 16 to 65536, each double the previous, and every other setting taken from the arguments |
| Driver.Sweep | src/main.rs:295-303 | 13 files, file `i` being the layer file of row `i`'s parameters, each with four indexes |
| Driver.SweepDefined | src/main.rs:295-303 | a minimum branching of at least 2 makes every row buildable |
| Driver.RowInU64 | src/main.rs:295-303 | with a minimum branching of at least 2 and under the u64 bound, one row of the sweep keeps every coverage within a u64 |
| Driver.SweepInU64 | src/main.rs:295-303 | with a minimum branching of at least 2 and under the u64 bound, every row of the sweep keeps every coverage within a u64 |
| Driver.DefaultSweepStart | src/main.rs:225-239 | with the defaults (branching 32, 8192-byte blocks, 2^40 bytes) the sweep is buildable, and its first row holds 2^36 values of 16 bytes |
| Driver.DefaultDataLayout | src/main.rs:141-144 | in the first default row there are 512 values per data block, 8192-byte blocks and 2^27 data blocks |
| Driver.DefaultDataIndex | src/main.rs:67-121 | the first default row's data index has 256 entries per block, covers 2^17, 2^25, 2^33 and 2^41 values, has height 4 and takes 4311818240 bytes |
| Driver.DefaultOtherIndexes | src/main.rs:157-163 | in the first default row, the column-1 row index (1365 entries per block) and the row index (682) have three levels each; the filter index (1638) has two |
| Driver.DefaultsInU64 | src/main.rs:225-239 | with the defaults no coverage in the sweep exceeds a u64 |

## Left out

- u64 arithmetic. The model uses unbounded naturals, so overflow at
  `src/main.rs:77`, `:85`, `:119`, `:120`, `:143`, `:151` and `:283` is not
  modelled.
  Indexes.IndexInU64, LayerFiles.LayerFileInU64 and Driver.SweepInU64 give a
  sufficient condition under which no coverage overflows. The byte total of
  `total_size` and the index block size are not bounded.
- Driver.SweepParams: the data size is `2^exponent` with no limit on the
  exponent. The source's `1 << total_data_size` on a u64 panics or wraps for
  exponents of 64 and above.
- Division by zero and loops that never end become preconditions, not error
  results, because the source has no error path there:
  - `valueSize > 0` and a positive entry size, for the divisions;
  - at least one value per data block, for the division by the data block
    size at `src/main.rs:144`. A minimum branching of 0 with a value larger
    than the minimum data block breaks it, for example 65536-byte values
    with `--min-branch 0`;
  - `Coverage.Stops`, for the loop.
- Indexes.TotalSize states only bounds in its own `ensures`: zero bytes when
  there are no values or no levels, and at least one block per level
  otherwise. The rest is in separate lemmas:
  - Indexes.LevelsNest, about the per-level block counts it sums;
  - Indexes.EmptyIndex and Indexes.TotalSizeMonotone, about the total;
  - Driver.DefaultDataIndex, which works out its value for the defaults.
- The `HumanBytes` and `HumanCount` formatting, which uses floating point,
  and the `Display` of `IndexType`. These are output only.
- The `TB`, `GB`, `MB` and `KB` constants, which only that formatting uses.
- Parsing of the command line. `Driver.Args` holds the parsed numeric
  settings and `Driver.DEFAULT_ARGS` their defaults.
- The `--index` selection (`src/main.rs:307`) and all printing in `main`.
  These choose which of the computed indexes are shown; they do not change
  what is computed.
