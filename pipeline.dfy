/**
 * One run over a batch: normalise the master workbooks, split off the marker
 * rows, drop "Unknown"-prefixed rows, preload the SKU sets, reconcile every
 * vendor in first-seen order (the process pool's order-preserving map, run
 * sequentially), combine, and count.
 */
module Pipeline {
  import opened Seqs
  import opened Sheets
  import opened Orders
  import opened Reconcile
  import opened Aggregate

  /** `unshipped_orders['vendor_name']`: the vendor of each row. */
  function VendorNames(orders: seq<Order>): (names: seq<string>)
    ensures |names| == |orders|
    ensures forall i :: 0 <= i < |orders| ==> names[i] == VendorName(orders[i].sku)
  {
    seq(|orders|, i requires 0 <= i < |orders| => VendorName(orders[i].sku))
  }

  /** Every vendor name of the selected rows has readable `order_id` columns in the masters of its label type. */
  predicate MastersReadableFor(m: Masters, orders: seq<Order>)
  {
    forall o :: o in orders ==> OrderIdsReadable(m, RowLabel(m, o))
  }

  lemma ReadableForVendors(m: Masters, orders: seq<Order>, vendors: seq<string>)
    requires MastersReadableFor(m, orders)
    ensures forall v :: v in vendors && SelectVendor(orders, v) != [] ==> OrderIdsReadable(m, LabelOf(m.registry, v))
  {
    forall v | v in vendors && SelectVendor(orders, v) != []
      ensures OrderIdsReadable(m, LabelOf(m.registry, v))
    {
      SelectVendorCount(orders, v);
      var o := SelectVendor(orders, v)[0];
      assert multiset(SelectVendor(orders, v))[o] > 0;
      assert VendorName(o.sku) == v && multiset(orders)[o] > 0;
      assert o in orders;
    }
  }

  /** `pool.map(process_vendor, vendor_names)`: one result per vendor, in the same order. */
  function ProcessAll(m: Masters, orders: seq<Order>, vendors: seq<string>): (results: seq<VendorResult>)
    requires forall v :: v in vendors && SelectVendor(orders, v) != [] ==> OrderIdsReadable(m, LabelOf(m.registry, v))
    ensures |results| == |vendors|
    ensures forall i :: 0 <= i < |vendors| ==> results[i] == ProcessVendor(m, orders, vendors[i])
  {
    seq(|vendors|, i requires 0 <= i < |vendors| => ProcessVendor(m, orders, vendors[i]))
  }

  /** The reference fan-in: each vendor's rows reconciled row by row, vendor after vendor. */
  function Gather(m: Masters, orders: seq<Order>, vendors: seq<string>): seq<Flagged>
  {
    if vendors == [] then [] else
      Gather(m, orders, vendors[..|vendors| - 1]) + Reconciled(m, SelectVendor(orders, vendors[|vendors| - 1]))
  }

  lemma {:induction false} AllRowsIsGather(m: Masters, orders: seq<Order>, vendors: seq<string>)
    requires forall v :: v in vendors && SelectVendor(orders, v) != [] ==> OrderIdsReadable(m, LabelOf(m.registry, v))
    ensures AllRows(ProcessAll(m, orders, vendors)) == Gather(m, orders, vendors)
  {
    if vendors != [] {
      var n := |vendors| - 1;
      var results := ProcessAll(m, orders, vendors);
      assert results[..n] == ProcessAll(m, orders, vendors[..n]);
      AllRowsIsGather(m, orders, vendors[..n]);
      ProcessVendorByRow(m, orders, vendors[n]);
    }
  }

  /** Grouping by a duplicate-free list of vendors reports a row as often as the row-by-row reference does when its vendor is listed, and never otherwise. */
  lemma {:induction false} GatherCount(m: Masters, s: seq<Order>, vendors: seq<string>, f: Flagged)
    requires Distinct(vendors)
    ensures multiset(Gather(m, s, vendors))[f] ==
            if VendorName(f.order.sku) in vendors then multiset(Reconciled(m, s))[f] else 0
  {
    if vendors != [] {
      var n := |vendors| - 1;
      var v, front := vendors[n], vendors[..n];
      DistinctLast(vendors);
      GatherCount(m, s, front, f);
      ReconciledCount(m, SelectVendor(s, v), f);
      SelectVendorCount(s, v);
      ReconciledCount(m, s, f);
      assert multiset(Gather(m, s, vendors))[f] ==
             multiset(Gather(m, s, front))[f] + multiset(Reconciled(m, SelectVendor(s, v)))[f];
    }
  }

  /** Dropping the last name of a duplicate-free list leaves a duplicate-free list without that name. */
  lemma DistinctLast(vendors: seq<string>)
    requires Distinct(vendors) && vendors != []
    ensures Distinct(vendors[..|vendors| - 1])
    ensures vendors[|vendors| - 1] !in vendors[..|vendors| - 1]
    ensures vendors == vendors[..|vendors| - 1] + [vendors[|vendors| - 1]]
  {
  }

  /** Grouping by a duplicate-free list that covers every vendor of the batch neither loses nor repeats a row. */
  lemma GatherCoversAll(m: Masters, s: seq<Order>, vendors: seq<string>)
    requires Distinct(vendors)
    requires forall o :: o in s ==> VendorName(o.sku) in vendors
    ensures multiset(Gather(m, s, vendors)) == multiset(Reconciled(m, s))
  {
    forall f ensures multiset(Gather(m, s, vendors))[f] == multiset(Reconciled(m, s))[f] {
      GatherCount(m, s, vendors, f);
      ReconciledCount(m, s, f);
      if multiset(s)[f.order] > 0 {
        assert f.order in s;
      }
    }
  }

  /** Rows of the results' Label and Non-Label partitions carry their own vendor's label type. */
  lemma PartitionRowsCarryLabel(m: Masters, orders: seq<Order>, vendors: seq<string>, b: Bucket, f: Flagged)
    requires forall v :: v in vendors && SelectVendor(orders, v) != [] ==> OrderIdsReadable(m, LabelOf(m.registry, v))
    requires f in PartitionRows(ProcessAll(m, orders, vendors), b)
    ensures BucketOf(RowLabel(m, f.order)) == b
  {
    var results := ProcessAll(m, orders, vendors);
    PartitionRowsFromBucket(results, b, f);
    var i :| 0 <= i < |results| && f in results[i].rows && BucketOf(results[i].labelType) == b;
    RowsCarryVendorLabel(m, orders, vendors[i]);
  }

  /** The per-vendor results of a run: one per distinct vendor name, in first-seen order (`VendorResultsSpec` gives each one). */
  function VendorResults(m: Masters, orders: seq<Order>): (results: seq<VendorResult>)
    requires MastersReadableFor(m, orders)
    ensures |results| == |Unique(VendorNames(orders))|
  {
    var vendors := Unique(VendorNames(orders));
    ReadableForVendors(m, orders, vendors);
    ProcessAll(m, orders, vendors)
  }

  /** The `i`-th result is the `i`-th distinct vendor's registry label with that vendor's rows reconciled row by row. */
  lemma VendorResultsSpec(m: Masters, orders: seq<Order>, i: nat)
    requires MastersReadableFor(m, orders)
    requires i < |Unique(VendorNames(orders))|
    ensures
      var v, r := Unique(VendorNames(orders))[i], VendorResults(m, orders)[i];
      r.labelType == LabelOf(m.registry, v) && r.rows == Reconciled(m, SelectVendor(orders, v))
  {
    var vendors := Unique(VendorNames(orders));
    ReadableForVendors(m, orders, vendors);
    VendorSelected(orders, vendors[i]);
    ProcessVendorByRow(m, orders, vendors[i]);
  }

  /** Every vendor name taken from the rows selects at least one row. */
  lemma VendorSelected(orders: seq<Order>, v: string)
    requires v in VendorNames(orders)
    ensures SelectVendor(orders, v) != []
  {
    var names := VendorNames(orders);
    var j :| 0 <= j < |names| && names[j] == v;
    SelectVendorCount(orders, v);
    assert multiset(SelectVendor(orders, v))[orders[j]] > 0;
  }

  /** Fanning out by vendor and back in loses no row and repeats none: the rows are those of the row-by-row reference. */
  lemma VendorResultsRows(m: Masters, orders: seq<Order>)
    requires MastersReadableFor(m, orders)
    ensures multiset(AllRows(VendorResults(m, orders))) == multiset(Reconciled(m, orders))
  {
    var vendors := Unique(VendorNames(orders));
    ReadableForVendors(m, orders, vendors);
    forall o | o in orders ensures VendorName(o.sku) in vendors {
      var i :| 0 <= i < |orders| && orders[i] == o;
      assert VendorNames(orders)[i] == VendorName(o.sku);
    }
    AllRowsIsGather(m, orders, vendors);
    GatherCoversAll(m, orders, vendors);
  }

  /** Each row of a partition of the run belongs to that partition by its own vendor's label type. */
  lemma VendorResultsLabels(m: Masters, orders: seq<Order>, b: Bucket, f: Flagged)
    requires MastersReadableFor(m, orders)
    requires f in PartitionRows(VendorResults(m, orders), b)
    ensures BucketOf(RowLabel(m, f.order)) == b
  {
    var vendors := Unique(VendorNames(orders));
    ReadableForVendors(m, orders, vendors);
    PartitionRowsCarryLabel(m, orders, vendors, b, f);
  }

  /** From batch to reconciled rows: a row is reported, tagged, once per batch occurrence exactly when it reaches reconciliation and its order id is new. */
  lemma BatchRowsCount(m: Masters, batch: seq<Order>, f: Flagged)
    ensures multiset(Reconciled(m, PreparedOrders(batch)))[f] ==
            if Reconcilable(f.order) && f == Tag(m, f.order) && !KnownOrder(m, RowLabel(m, f.order), f.order.orderId)
            then multiset(batch)[f.order] else 0
  {
    ReconciledCount(m, PreparedOrders(batch), f);
    PreparedOrdersSpec(batch);
  }

  /** Everything the run reports. */
  datatype Report = Report(
    labelRows: seq<Flagged>,
    nonLabelRows: seq<Flagged>,
    unknownRows: seq<Flagged>,
    newSkuRows: seq<Flagged>,
    removedRows: seq<Order>,
    vendorOrderCounts: map<string, nat>,
    skuCounts: map<string, nat>,
    labelCount: nat,
    nonLabelCount: nat,
    totalCount: nat)

  /** The masters as the run builds them from the two workbooks it reads: headers normalised, SKU sets preloaded. */
  function MastersOf(registry: seq<VendorEntry>, oldBook: Workbook, newBook: Workbook): (m: Masters)
    ensures m.registry == registry
    ensures m.oldSheets.Keys == oldBook.Keys && m.newSheets.Keys == newBook.Keys
    ensures forall n :: n in m.oldSheets ==> m.oldSheets[n] == NormalizeSheet(oldBook[n])
    ensures forall n :: n in m.newSheets ==> m.newSheets[n] == NormalizeSheet(newBook[n])
    ensures forall n :: n in m.oldSkus <==> n in m.oldSheets && HasColumn(m.oldSheets[n], "sku")
    ensures forall n :: n in m.newSkus <==> n in m.newSheets && HasColumn(m.newSheets[n], "sku")
    ensures forall n :: n in m.oldSkus ==> m.oldSkus[n] == SkuValues(m.oldSheets[n])
    ensures forall n :: n in m.newSkus ==> m.newSkus[n] == SkuValues(m.newSheets[n])
  {
    var oldSheets, newSheets := NormalizeWorkbook(oldBook), NormalizeWorkbook(newBook);
    Masters(registry, oldSheets, newSheets, SkuIndex(oldSheets), SkuIndex(newSheets))
  }

  /** How a run ends: the counting step raises `KeyError` when neither the Label nor the Non-Label frame ever received a vendor's rows (both stay column-less), else the reports. */
  datatype Run = GroupByKeyError | Finished(report: Report)

  /** Some batch row that reaches reconciliation belongs to a vendor labelled Label or Non-Label. */
  predicate SomeCountedVendor(m: Masters, orders: seq<Order>)
  {
    exists o :: o in orders && BucketOf(RowLabel(m, o)) != UnknownBucket
  }

  /** The counting frames have columns exactly when some vendor of the batch is labelled Label or Non-Label. */
  lemma CountColumnsFromBatch(m: Masters, orders: seq<Order>)
    requires MastersReadableFor(m, orders)
    ensures HasCountColumns(VendorResults(m, orders)) <==> SomeCountedVendor(m, orders)
  {
    var results := VendorResults(m, orders);
    if HasCountColumns(results) {
      var i :| 0 <= i < |results| && BucketOf(results[i].labelType) != UnknownBucket;
      ResultHasRow(m, orders, i);
    }
    if SomeCountedVendor(m, orders) {
      var o :| o in orders && BucketOf(RowLabel(m, o)) != UnknownBucket;
      var i := RowHasResult(m, orders, o);
    }
  }

  /** Each result's label type is that of one of the batch rows. */
  lemma ResultHasRow(m: Masters, orders: seq<Order>, i: nat)
    requires MastersReadableFor(m, orders)
    requires i < |VendorResults(m, orders)|
    ensures exists o :: o in orders && RowLabel(m, o) == VendorResults(m, orders)[i].labelType
  {
    var names := VendorNames(orders);
    var vendors := Unique(names);
    VendorResultsSpec(m, orders, i);
    assert vendors[i] in names;
    var j :| 0 <= j < |names| && names[j] == vendors[i];
    assert orders[j] in orders && RowLabel(m, orders[j]) == LabelOf(m.registry, vendors[i]);
  }

  /** Each batch row's vendor has a result, carrying the row's label type. */
  lemma RowHasResult(m: Masters, orders: seq<Order>, o: Order) returns (i: nat)
    requires MastersReadableFor(m, orders)
    requires o in orders
    ensures i < |VendorResults(m, orders)| && VendorResults(m, orders)[i].labelType == RowLabel(m, o)
  {
    var names := VendorNames(orders);
    var vendors := Unique(names);
    var j :| 0 <= j < |orders| && orders[j] == o;
    assert names[j] == VendorName(o.sku);
    assert names[j] in vendors;
    i :| i < |vendors| && vendors[i] == names[j];
    VendorResultsSpec(m, orders, i);
  }

  /** The whole run, from the batch rows, the registry and the two master workbooks to the reports. */
  method RunPipeline(batch: seq<Order>, registry: seq<VendorEntry>, oldBook: Workbook, newBook: Workbook)
    returns (run: Run)
    requires MastersReadableFor(MastersOf(registry, oldBook, newBook), PreparedOrders(batch))
    ensures run.GroupByKeyError? <==> !SomeCountedVendor(MastersOf(registry, oldBook, newBook), PreparedOrders(batch))
    ensures run.Finished? ==>
      var m, rep := MastersOf(registry, oldBook, newBook), run.report;
      var results := VendorResults(m, PreparedOrders(batch));
      && rep.labelRows == PartitionRows(results, LabelBucket)
      && rep.nonLabelRows == PartitionRows(results, NonLabelBucket)
      && rep.unknownRows == PartitionRows(results, UnknownBucket)
      && rep.newSkuRows == NewSkuRows(results)
    ensures run.Finished? ==> IsSubseq(run.report.removedRows, batch)
    ensures run.Finished? ==> forall o :: multiset(run.report.removedRows)[o] == if IsRemovedSku(o.sku) then multiset(batch)[o] else 0
    ensures run.Finished? ==>
      var m, rep := MastersOf(registry, oldBook, newBook), run.report;
      forall f ::
        (multiset(rep.labelRows) + multiset(rep.nonLabelRows) + multiset(rep.unknownRows))[f] ==
        if Reconcilable(f.order) && f == Tag(m, f.order) && !KnownOrder(m, RowLabel(m, f.order), f.order.orderId)
        then multiset(batch)[f.order] else 0
    ensures run.Finished? ==>
      var m, rep := MastersOf(registry, oldBook, newBook), run.report;
      && (forall f :: f in rep.labelRows ==> RowLabel(m, f.order) == LabelVendors)
      && (forall f :: f in rep.nonLabelRows ==> RowLabel(m, f.order) == NonLabelVendors)
      && (forall f :: f in rep.unknownRows ==> RowLabel(m, f.order) != LabelVendors && RowLabel(m, f.order) != NonLabelVendors)
    ensures run.Finished? ==>
      var rep := run.report;
      forall f :: multiset(rep.newSkuRows)[f] ==
        if f.newSku then (multiset(rep.labelRows) + multiset(rep.nonLabelRows) + multiset(rep.unknownRows))[f] else 0
    ensures run.Finished? ==> ReportCounts(run.report)
  {
    var oldSheets := NormalizeWorkbook(oldBook);
    var newSheets := NormalizeWorkbook(newBook);

    var removed := RemovedRows(batch);
    var orders := DropUnknownVendor(KeptRows(batch));

    var oldSkus := PreloadSkus(oldSheets);
    var newSkus := PreloadSkus(newSheets);
    var m := Masters(registry, oldSheets, newSheets, oldSkus, newSkus);
    assert m == MastersOf(registry, oldBook, newBook);

    var results := VendorResults(m, orders);
    var labelRows, nonLabelRows, unknownRows, newSkuRows := Combine(results);

    CountColumnsFromBatch(m, orders);
    if !HasCountColumns(results) {
      return GroupByKeyError;
    }

    var all := labelRows + nonLabelRows;
    var rep := Report(labelRows, nonLabelRows, unknownRows, newSkuRows, removed,
                      VendorOrderCounts(all), SkuCounts(all),
                      DistinctOrderCount(labelRows), DistinctOrderCount(nonLabelRows), DistinctOrderCount(all));
    run := Finished(rep);
    PartitionsFromBatch(m, batch);
    CountsOfPartitions(labelRows, nonLabelRows);
  }

  /** The partitions of a run, row by row in terms of the batch: each reconcilable row whose id is new, tagged, once per batch occurrence; each in the partition its own label selects; the new-SKU table the flagged ones. */
  lemma PartitionsFromBatch(m: Masters, batch: seq<Order>)
    requires MastersReadableFor(m, PreparedOrders(batch))
    ensures
      var results := VendorResults(m, PreparedOrders(batch));
      var labelRows, nonLabelRows, unknownRows :=
        PartitionRows(results, LabelBucket), PartitionRows(results, NonLabelBucket), PartitionRows(results, UnknownBucket);
      && (forall f ::
            (multiset(labelRows) + multiset(nonLabelRows) + multiset(unknownRows))[f] ==
            if Reconcilable(f.order) && f == Tag(m, f.order) && !KnownOrder(m, RowLabel(m, f.order), f.order.orderId)
            then multiset(batch)[f.order] else 0)
      && (forall f :: f in labelRows ==> RowLabel(m, f.order) == LabelVendors)
      && (forall f :: f in nonLabelRows ==> RowLabel(m, f.order) == NonLabelVendors)
      && (forall f :: f in unknownRows ==> RowLabel(m, f.order) != LabelVendors && RowLabel(m, f.order) != NonLabelVendors)
      && (forall f :: multiset(NewSkuRows(results))[f] ==
            if f.newSku then (multiset(labelRows) + multiset(nonLabelRows) + multiset(unknownRows))[f] else 0)
  {
    var orders := PreparedOrders(batch);
    var results := VendorResults(m, orders);
    var labelRows, nonLabelRows, unknownRows :=
      PartitionRows(results, LabelBucket), PartitionRows(results, NonLabelBucket), PartitionRows(results, UnknownBucket);
    VendorResultsRows(m, orders);
    PartitionsCoverAll(results);
    NewSkuRowsAreFlagged(results);
    forall f: Flagged
      ensures (multiset(labelRows) + multiset(nonLabelRows) + multiset(unknownRows))[f] ==
              if Reconcilable(f.order) && f == Tag(m, f.order) && !KnownOrder(m, RowLabel(m, f.order), f.order.orderId)
              then multiset(batch)[f.order] else 0
    {
      BatchRowsCount(m, batch, f);
    }
    forall f | f in labelRows ensures RowLabel(m, f.order) == LabelVendors {
      VendorResultsLabels(m, orders, LabelBucket, f);
    }
    forall f | f in nonLabelRows ensures RowLabel(m, f.order) == NonLabelVendors {
      VendorResultsLabels(m, orders, NonLabelBucket, f);
    }
    forall f | f in unknownRows ensures RowLabel(m, f.order) != LabelVendors && RowLabel(m, f.order) != NonLabelVendors {
      VendorResultsLabels(m, orders, UnknownBucket, f);
    }
  }

  /** The counts reported over the Label and Non-Label partitions. */
  ghost predicate ReportCounts(rep: Report)
  {
    var all := rep.labelRows + rep.nonLabelRows;
    && rep.labelCount == |OrderIds(rep.labelRows)| && rep.nonLabelCount == |OrderIds(rep.nonLabelRows)|
    && rep.totalCount == |OrderIds(all)|
    && rep.labelCount <= rep.totalCount && rep.nonLabelCount <= rep.totalCount
    && rep.totalCount <= rep.labelCount + rep.nonLabelCount
    && (forall v :: v in rep.vendorOrderCounts <==> exists f :: f in all && RowVendor(f) == v)
    && (forall v :: v in rep.vendorOrderCounts ==>
          rep.vendorOrderCounts[v] == |OrderIds(RowsOfVendor(all, v))| && 1 <= rep.vendorOrderCounts[v] <= rep.totalCount)
    && (forall s :: s in rep.skuCounts <==> exists f :: f in all && f.order.sku == s)
    && (forall s :: s in rep.skuCounts ==> rep.skuCounts[s] == SkuRowCount(rep.labelRows, s) + SkuRowCount(rep.nonLabelRows, s))
  }

  /** The counts computed from two partitions are the ones the report promises. */
  lemma CountsOfPartitions(labelRows: seq<Flagged>, nonLabelRows: seq<Flagged>)
    ensures
      var all := labelRows + nonLabelRows;
      ReportCounts(Report(labelRows, nonLabelRows, [], [], [],
                          VendorOrderCounts(all), SkuCounts(all),
                          DistinctOrderCount(labelRows), DistinctOrderCount(nonLabelRows), DistinctOrderCount(all)))
  {
    var all := labelRows + nonLabelRows;
    TotalWithinPartitionCounts(labelRows, nonLabelRows);
    forall s | s in SkuCounts(all)
      ensures SkuCounts(all)[s] == SkuRowCount(labelRows, s) + SkuRowCount(nonLabelRows, s)
    {
      SkuRowCountAppend(labelRows, nonLabelRows, s);
    }
  }
}
