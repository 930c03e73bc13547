# AmpSeq primer design: a verified model of the table logic

The script `0309_AmpSeqPrimerDesign.py` designs amplicon-sequencing primers for a list of target
sites. It widens each site into a design window, has bedtools fetch the reference sequence of
every window, asks primer3 for ranked primer sets per window and writes two sheets. The first
sheet holds the raw records. The second, "Adapted Primers", has library handles prepended to the
forward and reverse primers.

This project models the script's own logic between those calls, in Dafny:

- `WindowExpander`: the buffer `int(ampliconSize * designSpace / 2)` and the in-place widening
  of the target table (`ExpandWindows` on an `array<Site>`).
- `FastaSplit`: the fetched FASTA file read as a one-column table. The `dropme` loop lists the
  header rows 0, 2, 4, ... and `drop` + `reset_index` keep the sequence rows.
- `EngineParams`: the parameter bundle handed to primer3, with its melting-temperature windows
  and product-size range.
- `ResultReducer`: the nested loops over sites and ranks that append one 10-column record per
  rank. Each role (left, right, probe) takes either primer3's rank-b values or a sentinel text,
  depending on its `*_NUM_RETURNED` count. The pair's product size and penalty are always read.
  primer3's output is a `map<Key, Cell>`. A lookup of an absent key is a `MissingKey` fault that
  ends the run, as Python's `KeyError` does.
- `HandleAppender`: the copy of the record table whose Left and Right Primer columns get the
  handles prepended, sentinel rows included.
- `Pipeline`: one run wiring these together. bedtools and primer3 are function parameters.

Values and faults: `Values.Cell` is a table cell (text, integer, or a float carried as its printed
form). `Results.Result` carries a value or the `Fault` that aborts the run: a site with no row
in the target table, a primer3 call that raised, or a missing output key. Failures of the sequence fetch are not faults of the model (see "Left out").

The code reads `PRIMER_PAIR_<b>_PRODUCT_SIZE` and `PRIMER_PAIR_<b>_PENALTY` for every requested
rank, whatever the counts say. For a role whose count is not zero, it reads
`PRIMER_<ROLE>_<b>_SEQUENCE` and `_TM` at every requested rank too. So an engine that returns
fewer than N pairs, or fewer than N oligos of a designed role, makes the run abort with no record
written; sentinel rows appear only for a role whose count is zero.
`ResultReducer.ShortOutputAborts` states this.

## Model

| member | source | states |
|---|---|---|
| `Values.Decimal` | 0309_AmpSeqPrimerDesign.py:155 | str() of a set number is a non-empty digit string with no leading zero, one digit exactly for numbers below 10 |
| `Values.DecimalRoundTrip` | 0309_AmpSeqPrimerDesign.py:155 | reading the numeral of n back as digits gives n |
| `Values.DecimalInjective` | 0309_AmpSeqPrimerDesign.py:155 | two numbers have the same numeral exactly when they are equal |
| `Values.SetLabelsDistinct` | 0309_AmpSeqPrimerDesign.py:155 | "Set j" and "Set k" are equal exactly when j = k, so a label identifies its rank within a site |
| `Values.Render` | 0309_AmpSeqPrimerDesign.py:168-169 | str() of a cell: text unchanged, a float's printed form, an integer as a minus sign exactly when it is negative followed by a numeral that reads back as its magnitude |
| `WindowExpander.TruncDiv` | 0309_AmpSeqPrimerDesign.py:41 | int() of a quotient truncates toward zero: the exact bounds q·d ≤ n < q·d + d for n ≥ 0, mirrored for n < 0 |
| `WindowExpander.DesignBuffer` | 0309_AmpSeqPrimerDesign.py:41 | the buffer is ampliconSize · ratio / 2 truncated toward zero, bounded on both sides; nothing requires the ratio to exceed 1 |
| `WindowExpander.Expand` | 0309_AmpSeqPrimerDesign.py:65-67 | a window keeps the site's name, chromosome and centre and is 2·buffer wider, with no clamping |
| `WindowExpander.WindowCoversAmplicon` | 0309_AmpSeqPrimerDesign.py:65-67 | with a ratio above 1 (the help text's requirement) and start < stop, the expanded window is at least the amplicon size wide |
| `WindowExpander.ExampleWindow` | 0309_AmpSeqPrimerDesign.py:65-67 | amplicon 200 and ratio 1.5 give buffer 150, and site 1000–1020 becomes window 850–1170 |
| `WindowExpander.ExpandWindows` | 0309_AmpSeqPrimerDesign.py:64-67 | in place, every row i becomes Expand(old row i, buffer): same row count, same order, names and chromosomes kept |
| `FastaSplit.SequenceRows` | 0309_AmpSeqPrimerDesign.py:76-81 | the kept rows are the odd-indexed rows in order, renumbered from 0, floor(len/2) of them |
| `FastaSplit.DropRows` | 0309_AmpSeqPrimerDesign.py:80-81 | drop + reset_index never yields more rows than the table has: all of them when no label names a row, none when every row is labelled |
| `FastaSplit.DropOneRow` | 0309_AmpSeqPrimerDesign.py:80-81 | a single row survives exactly when its label is not listed |
| `FastaSplit.DropRowsAppend` | 0309_AmpSeqPrimerDesign.py:80-81 | dropping works row by row: the two halves of a table are filtered separately under their own labels and the survivors keep their order |
| `FastaSplit.DropRowsKeepsRows` | 0309_AmpSeqPrimerDesign.py:80-81 | every surviving row is a row of the table |
| `FastaSplit.DropEvenRows` | 0309_AmpSeqPrimerDesign.py:80-81 | dropping exactly the even labels and resetting the index leaves the sequence rows |
| `FastaSplit.SplitFasta` | 0309_AmpSeqPrimerDesign.py:74-81 | the dropme loop lists 0, 2, 4, … and dropping them yields SequenceRows(rows) |
| `EngineParams.DesignParams` | 0309_AmpSeqPrimerDesign.py:98-122 | primer Tm window is opt±3; probe window is that window moved up 5 (opt+5, min opt+2, max opt+8), so the probe's target is above the primer maximum; product range [A−B, A+B] is centred on A and contains A exactly when B ≥ 0 |
| `ResultReducer.OligoFields` | 0309_AmpSeqPrimerDesign.py:139-149 | a role's sequence and Tm at rank b: its sentinel and "N/A" when the count is 0, else the engine's two values, failing exactly when one of those keys is absent and then naming it |
| `ResultReducer.RankRecord` | 0309_AmpSeqPrimerDesign.py:127-155 | a record for rank b carries the site name and "Set b+1"; its full contract is stated by RankRecordSpec |
| `ResultReducer.RankRecordSpec` | 0309_AmpSeqPrimerDesign.py:127-155 | rank b yields a record exactly when every key it reads is present, otherwise a missing key it needs; the record has the site name, "Set b+1", the pair's size and penalty, and per role the engine's rank-b values if its count is nonzero, else the sentinel text and "N/A" |
| `ResultReducer.RankCount` | 0309_AmpSeqPrimerDesign.py:126 | range(0, numSets) visits no rank exactly when numSets ≤ 0, and numSets ranks otherwise |
| `ResultReducer.SiteRecords` | 0309_AmpSeqPrimerDesign.py:126-155 | ranks 0..k−1 give k records, record b being rank b's, exactly when every rank succeeds; otherwise the fault of the first failing rank |
| `ResultReducer.SiteRecordsStopAtFault` | 0309_AmpSeqPrimerDesign.py:126-155 | once a rank fails, asking for more ranks gives the same fault |
| `ResultReducer.SiteBlock` | 0309_AmpSeqPrimerDesign.py:90-155 | a site yields N = max(numSets, 0) records labelled "Set 1".."Set N" with its name, exactly when it has a name row, the engine returns, and all its ranks succeed |
| `ResultReducer.SiteBlockContents` | 0309_AmpSeqPrimerDesign.py:90-155 | a successful site's record b is exactly rank b's record from that site's engine output |
| `ResultReducer.OffsetIsProduct` | 0309_AmpSeqPrimerDesign.py:90-155 | the first record of site a sits at position a·N |
| `ResultReducer.Reduced` | 0309_AmpSeqPrimerDesign.py:89-155 | a successful run over k sites holds k·N records |
| `ResultReducer.ReducedSucceeds` | 0309_AmpSeqPrimerDesign.py:89-155 | the run gets past k sites exactly when each of those k sites succeeds |
| `ResultReducer.ReducedStopsAtFault` | 0309_AmpSeqPrimerDesign.py:89-155 | the first failing site's fault is the run's result: nothing after it is kept |
| `ResultReducer.BlockAt` | 0309_AmpSeqPrimerDesign.py:89-155 | in a successful run, the records at positions a·N .. a·N+N−1 are exactly site a's records |
| `ResultReducer.RecordLayout` | 0309_AmpSeqPrimerDesign.py:89-155 | a successful run holds, for every site in its original order, that site's N records |
| `ResultReducer.RecordAt` | 0309_AmpSeqPrimerDesign.py:89-155 | in a successful run, the record at position a·N + b is rank b's record of site a |
| `ResultReducer.SiteSentinels` | 0309_AmpSeqPrimerDesign.py:129-149 | when a role's NUM_RETURNED is 0, every record of that site holds that role's sentinel and "N/A" |
| `ResultReducer.ShortOutputAborts` | 0309_AmpSeqPrimerDesign.py:126-152 | if any key a requested rank reads (the pair's size or penalty, or a designed role's sequence or Tm) is missing from any site's output, the whole run faults |
| `ResultReducer.RunSentinel` | 0309_AmpSeqPrimerDesign.py:129-155 | in a successful run, a site whose role count is 0 has that role's sentinel and "N/A" at position a·N + b, for each requested rank b |
| `ResultReducer.DesignSite` | 0309_AmpSeqPrimerDesign.py:90-155 | one pass of the site loop's body (name lookup, engine call, rank loop) yields exactly SiteBlock for that site, N records on success |
| `ResultReducer.ReducedStep` | 0309_AmpSeqPrimerDesign.py:89-155 | appending a successful site's records extends the running list by that site's block; a failing site's fault is the run's result |
| `ResultReducer.RecordCount` | 0309_AmpSeqPrimerDesign.py:89-155 | a successful run holds exactly len(fastaSeqs)·N records |
| `ResultReducer.ReduceResults` | 0309_AmpSeqPrimerDesign.py:89-155 | the site loop's result is Reduced over all sequences: len(fastaSeqs)·N records on success, else the first fault |
| `HandleAppender.Adapted` | 0309_AmpSeqPrimerDesign.py:168-169 | the adapted Left Primer is the forward handle followed by str(Left Primer); likewise Right with the reverse handle; every other column is unchanged |
| `HandleAppender.HandleOnSentinel` | 0309_AmpSeqPrimerDesign.py:166-169 | the handles are prepended to sentinel text too |
| `HandleAppender.AdaptTwice` | 0309_AmpSeqPrimerDesign.py:166-169 | adapting twice prefixes the handles twice; the step is idempotent only when both handles are empty |
| `HandleAppender.AdaptRow` | 0309_AmpSeqPrimerDesign.py:168-169 | the two column writes of one row leave it equal to Adapted(old row) and every other row untouched |
| `HandleAppender.AppendHandles` | 0309_AmpSeqPrimerDesign.py:166-169 | a fresh table of the same length whose row i is Adapted(row i); the original table is not modified |
| `Pipeline.ExpansionKeepsNames` | 0309_AmpSeqPrimerDesign.py:64-67 | widening the windows leaves the name column unchanged, so the Site column carries the target table's names as read |
| `Pipeline.DesignPrimers` | 0309_AmpSeqPrimerDesign.py:40-169 | the target table is expanded in place; the names handed to the reduction are the table's names from before the expansion; the record table is the reduction of the split sequences, or the run ends with the first fault; the adapted table is a fresh row-by-row adapted copy |

## Left out

- Argument parsing, the PATH change and the timestamp (lines 15-33, 19): the settings are the `Pipeline.Config` parameter.
- Spreadsheet and text-file reads and writes: the input workbook, the `DesignSpaceBED_` and `DesignSequences_` files, and the output workbook (lines 47, 68, 72, 175-177).
- bedtools `getfasta` (lines 70-71) is the function parameter `getfasta`. It maps the expanded windows to the lines of the fetched file.
- `Pipeline.DesignPrimers`: failures of the sequence fetch and of reading the fetched file (lines 70-72) are not modelled. `getfasta` is total, so the model's run never stops there. The script does stop there: `read_csv` raises on the empty file an empty target table produces, and bedtools fails on a window it cannot fetch (for instance one whose start the expansion pushed below 0). In those cases the model returns tables where the script raises.
- primer3 `design_primers` (lines 94-122) is the function parameter `design`. It either returns an output dictionary or raises (`EngineFault`).
- Console output, and the unused write to `primerSeqs` at line 124.
- The `seqNames` list (line 77): it is never used afterwards.
- Floating point: the ratio is exact (`ratioNum / ratioDen`), so `DesignBuffer` does not model the rounding of the float product. Tm and penalty values are carried as opaque `Float` cells.
- `ResultReducer.Designed`: compares a count cell with `Int(0)`. Python would also treat a float zero as equal to 0. primer3's counts are integers.
- `ResultReducer.Key`: primer3's string keys (such as `PRIMER_RIGHT_0_SEQUENCE`) are a datatype, so the model does not build the key strings.
- Table columns other than name, chromosome, start and stop are not carried.
- pandas' type coercion of cells (`int(...)` of a cell, numbers read from the FASTA file) is not modelled. Names are text and coordinates are integers.
- `FastaSplit.DropRows`: a label naming no row is ignored, where pandas `drop` raises `KeyError`. The dropme loop only lists labels of existing rows, so the script never meets that case.
