# AMBR unshipped-orders reconciliation, modelled in Dafny

`AMBR.py` takes a daily batch of unshipped orders. It splits off return and
inventory rows (SKU containing `RET` or `INV`). It derives each row's vendor
from the SKU prefix and drops rows whose prefix is `Unknown`. For every vendor
it then:

- looks up the vendor's label type in the vendor registry;
- removes the orders whose id is already listed in the old or the new master
  sheet of that label type;
- flags SKUs the masters of that label type have never seen.

The per-vendor results are combined into three partitions (Label Vendors,
Non-Label Vendors, everything else). From the Label and Non-Label partitions
it computes distinct-order counts per vendor and overall, and row counts per
SKU.

The model keeps the script's stages as separate modules:

| module | file | what it holds |
|---|---|---|
| `Seqs` | `seqs.dfy` | subsequences, duplicate-free sequences, first-seen `Unique` (pandas `Series.unique`) |
| `Headers` | `headers.dfy` | header normalisation: `strip`, `lower`, space to `_` |
| `Sheets` | `sheets.dfy` | cells, columns, sheets and workbooks; loading-time header pass; `preload_skus` as a loop |
| `Orders` | `orders.dfy` | batch rows; the `RET`/`INV` split; vendor prefix; the `Unknown` filter |
| `Reconcile` | `reconcile.dfy` | registry lookup; `process_vendor`; a row-by-row reference definition it is proved against |
| `Aggregate` | `aggregate.dfy` | the combine loop as a method; distinct-order, per-vendor and per-SKU counts |
| `Pipeline` | `pipeline.dfy` | the order-preserving map over vendors; the whole run as one method |

Filters are specified by two facts together: the result is a subsequence of
the input, and each record occurs in it exactly as often as in the input when
it passes the test (zero times otherwise). Together these determine the
filter's output completely.

`process_vendor` is also proved equal to `Reconciled`, a row-by-row reference.
`Reconciled` keeps a row, tagged with its `new_sku` flag, exactly when its
order id is unknown for the label type of its own vendor. From this:

- `Pipeline.GatherCoversAll` shows that fanning out by vendor and combining
  again neither loses nor repeats a row;
- `Pipeline.RunPipeline` states the whole run's output row by row, in terms of
  the batch.

### Behaviour worth knowing

Facts about `AMBR.py` that the model keeps:

- There is no intra-batch de-duplication by order id. Two batch rows with the
  same id are both reported.
- Rows whose vendor prefix is literally `Unknown` are dropped (`AMBR.py:93`).
  They appear in no partition and not among the removed rows.
- Orders are de-duplicated for every label type, `Unknown` included. A master
  sheet named `Unknown` therefore filters vendors missing from the registry.
  The `new_sku` flag is false throughout only for the label `Unknown`.
- A registry label other than `Label Vendors` and `Non-Label Vendors` goes to
  the third partition (`AMBR.py:156-157`). Its rows still get a computed
  `new_sku` flag, which can be true.
- The SKU counts count rows (`value_counts`, `AMBR.py:169`), not distinct
  orders.
- The per-vendor counts can add up to more than the total: an order id shared
  by two vendors' rows counts once for each vendor
  (`Aggregate.SharedOrderCountedPerVendor`).
- The `RET`/`INV` test is an unanchored substring search. A SKU such as
  `INVICTA-12` is removed (`Orders.MarkerMatchesInsideWords`).
- A label whose master sheet has no `order_id` column makes the script raise
  (`AMBR.py:123`, `AMBR.py:126`). Nothing falls back to "no de-duplication".
  The model states the column's presence as a precondition.
- When no vendor of the prepared batch is labelled `Label Vendors` or
  `Non-Label Vendors`, both of those frames stay column-less `pd.DataFrame()`
  objects (`AMBR.py:146-147`). `groupby('vendor_name')` then raises `KeyError`
  (`AMBR.py:164`), and the run ends with no counts, no notification and no
  report workbook. An empty batch, or one whose rows are all marker rows, ends
  this way too. `Pipeline.RunPipeline` returns `GroupByKeyError` exactly then.
- The SKU enrichment client, its batching and its retries are not part of
  this model: `AMBR.py` contains no such code.

## Model

| member | source | states |
|---|---|---|
| Headers.Strip | AMBR.py:41 | the result is the header with its leading and trailing whitespace (Python `isspace` set) dropped: it sits in the header at some position, everything before and after it is whitespace, and it neither starts nor ends with whitespace |
| Headers.NormalizeHeader | AMBR.py:41 | the result has the stripped header's length, and each character is the stripped header's character lower-cased, or `_` where it was a space; hence trimmed, with no space and no upper-case ASCII letter |
| Sheets.NormalizeSheet | AMBR.py:41 | header i of the result is the normalised header i of the sheet, every header is then in normal form, and the columns keep their number, order and cells |
| Headers.NormalizeHeaderIdempotent | AMBR.py:59 | normalising a normalised header changes nothing, so the second pass over the registry sheet is a no-op |
| Headers.OrderIdHeader | AMBR.py:41 | a master-sheet header " Order ID" becomes `order_id` |
| Headers.BatchOrderIdHeader | AMBR.py:75 | the batch header "Order-Id " becomes `order-id`: hyphens survive, so batch and master keys differ |
| Sheets.NormalizeWorkbook | AMBR.py:36-42 | the loaded workbook has the same sheet names; header i of each sheet is the normalised original header i, every header is in normal form, and each column keeps its cells |
| Sheets.NormalizeSheetIdempotent | AMBR.py:59 | after the loading-time pass every header is in normal form and a second pass returns the same sheet |
| Sheets.ColumnCells | AMBR.py:123 | `df[name]` returns the cells of a column of the sheet carrying that header |
| Sheets.SkuValues | AMBR.py:100 | a SKU string is in the set exactly when a non-missing cell of the `sku` column holds it |
| Sheets.OrderIdValues | AMBR.py:123 | an id string is listed exactly when an `order_id` cell holds it, or when it is "nan" and a cell is missing |
| Sheets.SkuIndex | AMBR.py:96-101 | there is an entry exactly for the sheets with a `sku` column, and each entry is that sheet's SKU set |
| Sheets.PreloadSkus | AMBR.py:96-101 | the loop yields exactly the sheets with a `sku` column, each mapped to its non-missing SKUs, and equals `SkuIndex` |
| Orders.Contains | AMBR.py:82 | true exactly when the pattern occurs at some position of the SKU |
| Orders.IsRemovedSku | AMBR.py:82 | a SKU is removed exactly when `RET` or `INV` occurs at some position in it |
| Orders.RemovedRows | AMBR.py:82 | an order-preserving subsequence of the batch holding each row with `RET` or `INV` in its SKU as often as in the batch, and no other row |
| Orders.KeptRows | AMBR.py:85 | an order-preserving subsequence of the batch holding every other row with its multiplicity |
| Orders.SplitIsPartition | AMBR.py:82-85 | the removed and kept rows together are the batch as a multiset, their lengths add up to the batch length, and membership follows the marker test |
| Orders.VendorName | AMBR.py:89 | the vendor is a hyphen-free prefix of the SKU that ends at the first hyphen or at the end of the SKU |
| Orders.VendorNameUnique | AMBR.py:89 | no other prefix has those properties, so `VendorName` is `split('-')[0]` |
| Pipeline.VendorNames | AMBR.py:89 | one vendor name per row, in row order, each the prefix of that row's SKU |
| Orders.DropUnknownVendor | AMBR.py:93 | an order-preserving subsequence keeping every row whose vendor is not "Unknown", with its multiplicity |
| Orders.PreparedOrdersSpec | AMBR.py:82-93 | the rows reaching reconciliation are the batch rows with no marker and a vendor other than "Unknown", in batch order and with their multiplicity |
| Orders.MarkerMatchesInsideWords | AMBR.py:82-89 | the SKU `INVICTA-12` is removed although its vendor is `INVICTA` |
| Seqs.Unique | AMBR.py:140 | the vendor list has no duplicates and holds exactly the vendors of the rows |
| Seqs.UniqueFirstSeenOrder | AMBR.py:140 | vendors are listed in the order of their first row |
| Reconcile.FindPrefix | AMBR.py:118 | a found index is the first registry row whose prefix equals the vendor; none is found only when no row matches |
| Reconcile.LabelOf | AMBR.py:118-119 | the label is that of the first registry row with exactly the vendor's prefix, and "Unknown" when no row matches |
| Reconcile.ExistingSkus | AMBR.py:133 | a SKU is known exactly when it is in the old or the new SKU set of the label, a missing entry counting as empty |
| Reconcile.SelectVendorCount | AMBR.py:110 | the vendor's rows are the batch rows with that vendor name, each as often as in the batch |
| Reconcile.SelectVendorInOrder | AMBR.py:110 | the vendor's rows keep their batch order |
| Reconcile.DropOrders | AMBR.py:124 | an order-preserving subsequence keeping exactly the rows whose id is not listed, with their multiplicity |
| Reconcile.FlagRows | AMBR.py:129-134 | one flagged row per input row, in order; the flag is false for "Unknown" and otherwise says the SKU is not among the existing SKUs |
| Reconcile.DropKnownOrders | AMBR.py:122-127 | an order-preserving subsequence keeping exactly the rows whose id is in neither the old nor the new sheet of the label; an absent sheet filters nothing |
| Reconcile.ProcessVendor | AMBR.py:108-136 | the label (or "Unknown" for an empty selection); the rows are an order-preserving subsequence of the vendor's rows holding exactly the rows of that vendor whose id neither master of the label knows; `new_sku` as at lines 132-134 |
| Reconcile.ProcessVendorByRow | AMBR.py:108-136 | `process_vendor`'s rows are exactly the row-by-row reference applied to the vendor's rows |
| Reconcile.ReconcileIdempotent | AMBR.py:122-134 | for every label type, reprocessing a non-empty set of surviving rows against the same masters returns the same result |
| Reconcile.ReconciledCount | AMBR.py:122-134 | in the reference, a flagged row occurs once per input occurrence exactly when it carries its own tag and its id is unknown for its label |
| Reconcile.FlagsAreTags | AMBR.py:129-134 | each returned row carries exactly the reference flag, for every label type including "Unknown" |
| Reconcile.RowsCarryVendorLabel | AMBR.py:110-119 | each returned row belongs to the vendor, and its own label type is the result's label type |
| Aggregate.NewSkusOf | AMBR.py:159 | an order-preserving subsequence of the rows holding the rows flagged `new_sku`, each with its multiplicity, and no other row |
| Aggregate.PartitionsCoverAll | AMBR.py:151-157 | the three partitions together hold every result row exactly once, and their lengths add up to the total |
| Aggregate.PartitionRowsFromBucket | AMBR.py:152-157 | a row of a partition comes from a vendor result whose label selects that partition |
| Aggregate.NewSkuRowsAreFlagged | AMBR.py:158-159 | the new-SKU table holds exactly the flagged rows of all results, with multiplicity |
| Aggregate.Combine | AMBR.py:146-159 | the loop's four tables equal the vendor-by-vendor partition definitions; the partitions cover all rows as a multiset and by length; the new-SKU table is the flagged rows |
| Aggregate.OrderIds | AMBR.py:173-175 | an id is in the set exactly when some row carries it, and there are no more ids than rows |
| Aggregate.DistinctOrderCount | AMBR.py:173-175 | the count is the number of distinct ids, at most the row count, and 0 exactly for an empty table |
| Aggregate.TotalWithinPartitionCounts | AMBR.py:163-175 | the total distinct count is at least each partition's count and at most their sum |
| Aggregate.VendorOrderCounts | AMBR.py:163-164 | one entry per vendor present, each the number of distinct ids among that vendor's rows, between 1 and the total |
| Aggregate.SharedOrderCountedPerVendor | AMBR.py:164-175 | two vendors sharing one order id each count 1 while the total is 1 |
| Aggregate.SkuRowCount | AMBR.py:169 | the count is positive exactly when some row has the SKU, and at most the row count |
| Aggregate.SkuCounts | AMBR.py:169 | one entry per SKU present, each the number of rows with that SKU |
| Aggregate.SkuRowCountAppend | AMBR.py:163-169 | SKU counts over both partitions are the sums of the partitions' counts |
| Pipeline.ProcessAll | AMBR.py:142-143 | one result per vendor, the i-th being that vendor's `process_vendor` result (order preserved) |
| Pipeline.AllRowsIsGather | AMBR.py:140-159 | the rows of all results, vendor by vendor, are the reference applied vendor by vendor |
| Pipeline.GatherCount | AMBR.py:140-143 | grouping by a duplicate-free vendor list reports a row as often as the reference when its vendor is listed, and never otherwise |
| Pipeline.GatherCoversAll | AMBR.py:140-143 | with every vendor listed once, grouping by vendor yields the same rows as the reference on the whole batch |
| Pipeline.VendorResultsRows | AMBR.py:140-159 | the rows of all per-vendor results are, as a multiset, the reference applied to the prepared batch |
| Pipeline.VendorResults | AMBR.py:140-143 | one result per distinct vendor name of the prepared rows |
| Pipeline.VendorResultsSpec | AMBR.py:140-143 | the i-th result belongs to the i-th distinct vendor in first-seen order: its label is that vendor's registry label and its rows are that vendor's rows reconciled row by row |
| Pipeline.ResultHasRow | AMBR.py:108-119 | every result's label type is the label type of some prepared row |
| Pipeline.RowHasResult | AMBR.py:140-143 | every prepared row's vendor has a result carrying that row's label type |
| Pipeline.CountColumnsFromBatch | AMBR.py:146-164 | some result goes to the Label or Non-Label frame, so the grouping step has columns to group by, exactly when some prepared row belongs to a vendor with one of those labels |
| Pipeline.MastersOf | AMBR.py:36-49 | the masters keep the registry and the workbooks' sheet names; each sheet is its normalised original; the SKU sets have an entry exactly for the loaded sheets with a `sku` column, holding that sheet's SKUs |
| Pipeline.VendorResultsLabels | AMBR.py:151-157 | each row of a partition has its own vendor's label selecting that partition |
| Pipeline.BatchRowsCount | AMBR.py:82-136 | a batch row is reported once per occurrence exactly when it has no marker, its vendor is not "Unknown" and its id is new for its label, with its own flag |
| Pipeline.PartitionsFromBatch | AMBR.py:82-159 | over the per-vendor results of a batch, the three partitions together hold each batch row exactly as `BatchRowsCount` says; each partition holds only rows whose own label selects it; the new-SKU table is the flagged rows |
| Pipeline.CountsOfPartitions | AMBR.py:163-175 | the counts computed from the Label and Non-Label partitions satisfy every clause of `ReportCounts` |
| Pipeline.RunPipeline | AMBR.py:48-175 | the run raises `KeyError` at the grouping step exactly when no prepared batch row belongs to a Label or Non-Label vendor. Otherwise: the three partitions and the new-SKU table are the combine loop's tables over the per-vendor results in first-seen vendor order. The removed rows are the marker rows in batch order. The partitions hold each batch row exactly as `BatchRowsCount` says, each only rows whose own label selects it. The new-SKU table holds the flagged rows. The counts satisfy `ReportCounts`: distinct-id counts per partition and in total, the total between each partition's count and their sum; one vendor entry per vendor present, valued at that vendor's distinct ids; one SKU entry per SKU present, valued at the sum of the partitions' row counts |

## Left out

- The Discord notification (`send_to_discord`, and its call at the end) is a network call. It and the log message text, timestamps and the final `sleep` are not modelled.
- Reading the workbooks and the batch file, finding the `.txt` file, the `sys.exit` paths and writing the report workbook are I/O and are not modelled. The workbooks are inputs, and the batch is given as rows after header normalisation, each with its `order-id` and `sku`.
- Pipeline.RunPipeline: the vendor registry is an input list of (prefix, label) entries. It is not read from the `Overall vendors` sheet of the new workbook, and that sheet missing (a `sys.exit`) is not modelled.
- `multiprocessing.Pool` is modelled as the sequential, order-preserving map `Pipeline.ProcessAll`. The workers share no writable state, so nothing about concurrency is lost.
- The `columns_to_remove` drop only prunes report columns. Rows carry just the two columns the pipeline reads.
- Missing (NaN) SKU or order-id cells in the batch, and missing labels in the registry, are not modelled: batch fields are strings. In the master sheets, missing SKU cells are skipped and missing order ids read as "nan", as pandas does.
- Numeric cells (pandas rendering `123` as `"123.0"` or similar) are not modelled; cells are text.
- Sheets.ColumnCells: with two columns whose headers normalise to the same name, pandas returns both; the model takes the first.
- Headers.LowerChar: lower-cases ASCII letters only; Python's Unicode case mapping is not modelled.
- Reconcile.ProcessVendor: requires that the label's old and new master sheets, where present, have an `order_id` column; the source raises a `KeyError` otherwise, and that failure is not modelled.
- The case where the batch has no `sku` column (lines 78-85 are skipped and line 89 raises) is not modelled; every row has a SKU.
