/**
 * Fan-in of the per-vendor results: the combine loop that appends each vendor's
 * rows to one of three partitions and collects the new-SKU rows, and the counts
 * reported over the Label and Non-Label partitions.
 */
module Aggregate {
  import opened Seqs
  import opened Orders
  import opened Reconcile

  const LabelVendors: string := "Label Vendors"
  const NonLabelVendors: string := "Non-Label Vendors"

  /** The three report partitions. */
  datatype Bucket = LabelBucket | NonLabelBucket | UnknownBucket

  /** Which partition a label type's rows go to: every label other than the two named ones lands in Unknown. */
  function BucketOf(labelType: string): (b: Bucket)
  {
    if labelType == LabelVendors then LabelBucket
    else if labelType == NonLabelVendors then NonLabelBucket
    else UnknownBucket
  }

  /** The rows the combine loop has appended to partition `b` after visiting `results`, vendor by vendor. */
  function PartitionRows(results: seq<VendorResult>, b: Bucket): seq<Flagged>
  {
    if results == [] then [] else
      var last := results[|results| - 1];
      PartitionRows(results[..|results| - 1], b) + (if BucketOf(last.labelType) == b then last.rows else [])
  }

  /** The Label or the Non-Label frame received some vendor's rows, so the frame the counts are computed over has columns. */
  predicate HasCountColumns(results: seq<VendorResult>)
  {
    exists i :: 0 <= i < |results| && BucketOf(results[i].labelType) != UnknownBucket
  }

  /** Every vendor's rows, vendor by vendor. */
  function AllRows(results: seq<VendorResult>): seq<Flagged>
  {
    if results == [] then [] else
      AllRows(results[..|results| - 1]) + results[|results| - 1].rows
  }

  /** `vendor_orders[vendor_orders['new_sku']]`. */
  function NewSkusOf(rows: seq<Flagged>): (r: seq<Flagged>)
    ensures IsSubseq(r, rows)
    ensures forall f :: multiset(r)[f] == if f.newSku then multiset(rows)[f] else 0
  {
    if rows == [] then [] else
      var rest := NewSkusOf(rows[1..]);
      assert rows == [rows[0]] + rows[1..];
      if rows[0].newSku then [rows[0]] + rest else rest
  }

  /** What the combine loop collects into `new_skus_orders`. */
  function NewSkuRows(results: seq<VendorResult>): seq<Flagged>
  {
    if results == [] then [] else
      NewSkuRows(results[..|results| - 1]) + NewSkusOf(results[|results| - 1].rows)
  }

  /** Each row of every vendor result sits in exactly one partition. */
  lemma {:induction false} PartitionsCoverAll(results: seq<VendorResult>)
    ensures multiset(PartitionRows(results, LabelBucket)) + multiset(PartitionRows(results, NonLabelBucket))
            + multiset(PartitionRows(results, UnknownBucket)) == multiset(AllRows(results))
    ensures |PartitionRows(results, LabelBucket)| + |PartitionRows(results, NonLabelBucket)|
            + |PartitionRows(results, UnknownBucket)| == |AllRows(results)|
  {
    if results != [] {
      PartitionsCoverAll(results[..|results| - 1]);
    }
  }

  /** A row of partition `b` comes from a vendor result whose label type belongs to `b`. */
  lemma {:induction false} PartitionRowsFromBucket(results: seq<VendorResult>, b: Bucket, f: Flagged)
    requires f in PartitionRows(results, b)
    ensures exists i :: 0 <= i < |results| && f in results[i].rows && BucketOf(results[i].labelType) == b
  {
    var p := results[..|results| - 1];
    var last := results[|results| - 1];
    if f in PartitionRows(p, b) {
      PartitionRowsFromBucket(p, b, f);
      var i :| 0 <= i < |p| && f in p[i].rows && BucketOf(p[i].labelType) == b;
      assert results[i] == p[i];
    } else {
      assert f in last.rows && BucketOf(last.labelType) == b;
    }
  }

  /** The new-SKU rows are exactly the rows flagged `new_sku`, across all partitions. */
  lemma {:induction false} NewSkuRowsAreFlagged(results: seq<VendorResult>)
    ensures forall f :: multiset(NewSkuRows(results))[f] == if f.newSku then multiset(AllRows(results))[f] else 0
  {
    if results != [] {
      NewSkuRowsAreFlagged(results[..|results| - 1]);
    }
  }

  /** The combine loop over the per-vendor results, in the order the vendors were processed. */
  method Combine(results: seq<VendorResult>)
    returns (labelRows: seq<Flagged>, nonLabelRows: seq<Flagged>, unknownRows: seq<Flagged>, newSkuRows: seq<Flagged>)
    ensures labelRows == PartitionRows(results, LabelBucket)
    ensures nonLabelRows == PartitionRows(results, NonLabelBucket)
    ensures unknownRows == PartitionRows(results, UnknownBucket)
    ensures newSkuRows == NewSkuRows(results)
    ensures multiset(labelRows) + multiset(nonLabelRows) + multiset(unknownRows) == multiset(AllRows(results))
    ensures |labelRows| + |nonLabelRows| + |unknownRows| == |AllRows(results)|
    ensures forall f :: multiset(newSkuRows)[f] == if f.newSku then multiset(AllRows(results))[f] else 0
  {
    labelRows, nonLabelRows, unknownRows, newSkuRows := [], [], [], [];
    var i := 0;
    while i < |results|
      invariant 0 <= i <= |results|
      invariant labelRows == PartitionRows(results[..i], LabelBucket)
      invariant nonLabelRows == PartitionRows(results[..i], NonLabelBucket)
      invariant unknownRows == PartitionRows(results[..i], UnknownBucket)
      invariant newSkuRows == NewSkuRows(results[..i])
    {
      var r := results[i];
      assert results[..i + 1][..i] == results[..i] && results[..i + 1][i] == r;
      if r.labelType == LabelVendors {
        labelRows := labelRows + r.rows;
      } else if r.labelType == NonLabelVendors {
        nonLabelRows := nonLabelRows + r.rows;
      } else {
        unknownRows := unknownRows + r.rows;
      }
      newSkuRows := newSkuRows + NewSkusOf(r.rows);
      i := i + 1;
    }
    assert results[..i] == results;
    PartitionsCoverAll(results);
    NewSkuRowsAreFlagged(results);
  }

  /** The distinct `order-id` values among the rows. */
  function OrderIds(rows: seq<Flagged>): (ids: set<string>)
    ensures forall id :: id in ids <==> exists f :: f in rows && f.order.orderId == id
    ensures |ids| <= |rows|
  {
    if rows == [] then {} else
      assert rows == [rows[0]] + rows[1..];
      {rows[0].order.orderId} + OrderIds(rows[1..])
  }

  /** `df['order-id'].nunique() if not df.empty else 0`. */
  function DistinctOrderCount(rows: seq<Flagged>): (n: nat)
    ensures n == |OrderIds(rows)| && n <= |rows|
    ensures rows == [] <==> n == 0
  {
    if rows == [] then 0 else
      assert rows[0].order.orderId in OrderIds(rows);
      |OrderIds(rows)|
  }

  lemma {:induction false} OrderIdsAppend(a: seq<Flagged>, b: seq<Flagged>)
    ensures OrderIds(a + b) == OrderIds(a) + OrderIds(b)
  {
    forall id ensures id in OrderIds(a + b) <==> id in OrderIds(a) + OrderIds(b) {
      if id in OrderIds(a + b) {
        var f :| f in a + b && f.order.orderId == id;
      }
    }
  }

  /** The distinct count over two partitions lies between the larger partition count and their sum. */
  lemma TotalWithinPartitionCounts(labelRows: seq<Flagged>, nonLabelRows: seq<Flagged>)
    ensures DistinctOrderCount(labelRows + nonLabelRows) <= DistinctOrderCount(labelRows) + DistinctOrderCount(nonLabelRows)
    ensures DistinctOrderCount(labelRows) <= DistinctOrderCount(labelRows + nonLabelRows)
    ensures DistinctOrderCount(nonLabelRows) <= DistinctOrderCount(labelRows + nonLabelRows)
  {
    var a, b := OrderIds(labelRows), OrderIds(nonLabelRows);
    OrderIdsAppend(labelRows, nonLabelRows);
    assert |a + b| == |a| + |b - a|;
    assert |a + b| == |b| + |a - b|;
  }

  /** The vendor of a reconciled row. */
  function RowVendor(f: Flagged): string
  {
    VendorName(f.order.sku)
  }

  /** The rows of one vendor. */
  function RowsOfVendor(rows: seq<Flagged>, vendor: string): (r: seq<Flagged>)
    ensures forall f :: f in r <==> f in rows && RowVendor(f) == vendor
  {
    if rows == [] then [] else
      var rest := RowsOfVendor(rows[1..], vendor);
      assert rows == [rows[0]] + rows[1..];
      if RowVendor(rows[0]) == vendor then [rows[0]] + rest else rest
  }

  lemma SubsetCard(a: set<string>, b: set<string>)
    requires a <= b
    ensures |a| <= |b|
  {
    assert b == a + (b - a);
  }

  /** `groupby('vendor_name')['order-id'].nunique()`. */
  function VendorOrderCounts(rows: seq<Flagged>): (counts: map<string, nat>)
    ensures forall v :: v in counts <==> exists f :: f in rows && RowVendor(f) == v
    ensures forall v :: v in counts ==> 1 <= counts[v] <= |OrderIds(rows)|
    ensures forall v :: v in counts ==> counts[v] == |OrderIds(RowsOfVendor(rows, v))|
  {
    var vendors := set f | f in rows :: RowVendor(f);
    var counts := map v | v in vendors :: |OrderIds(RowsOfVendor(rows, v))|;
    assert forall v :: v in counts ==> 1 <= counts[v] <= |OrderIds(rows)| by {
      forall v | v in counts ensures 1 <= counts[v] <= |OrderIds(rows)| {
        VendorCountBounds(rows, v);
      }
    }
    counts
  }

  /** A vendor with a row has at least one order id, and no more than all rows together. */
  lemma VendorCountBounds(rows: seq<Flagged>, v: string)
    requires exists f :: f in rows && RowVendor(f) == v
    ensures 1 <= |OrderIds(RowsOfVendor(rows, v))| <= |OrderIds(rows)|
  {
    var mine := RowsOfVendor(rows, v);
    var f :| f in rows && RowVendor(f) == v;
    assert f in mine;
    assert f.order.orderId in OrderIds(mine);
    assert OrderIds(mine) <= OrderIds(rows) by {
      forall id | id in OrderIds(mine) ensures id in OrderIds(rows) {
        var g :| g in mine && g.order.orderId == id;
        assert g in rows;
      }
    }
    SubsetCard(OrderIds(mine), OrderIds(rows));
  }

  /** An order id shared by two vendors' rows counts once per vendor but once in the total, so the per-vendor counts can add up to more than the total. */
  lemma SharedOrderCountedPerVendor()
    ensures
      var rows := [Flagged(Order("1", "A-1"), false), Flagged(Order("1", "B-2"), false)];
      var counts := VendorOrderCounts(rows);
      && "A" in counts && counts["A"] == 1
      && "B" in counts && counts["B"] == 1
      && DistinctOrderCount(rows) == 1
  {
    var rows := [Flagged(Order("1", "A-1"), false), Flagged(Order("1", "B-2"), false)];
    assert "A-1"[1] == '-' && "B-2"[1] == '-';
    VendorNameUnique("A-1", "A");
    VendorNameUnique("B-2", "B");
    assert RowVendor(rows[0]) == "A" && RowVendor(rows[1]) == "B";
    assert OrderIds(rows) == {"1"};
    assert RowsOfVendor(rows, "A") == [rows[0]];
    assert RowsOfVendor(rows, "B") == [rows[1]];
    assert OrderIds([rows[0]]) == {"1"} && OrderIds([rows[1]]) == {"1"};
  }

  /** Occurrences of `sku` among the rows. */
  function SkuRowCount(rows: seq<Flagged>, sku: string): (n: nat)
    ensures n <= |rows|
    ensures n > 0 <==> exists f :: f in rows && f.order.sku == sku
  {
    if rows == [] then 0 else
      assert rows == [rows[0]] + rows[1..];
      (if rows[0].order.sku == sku then 1 else 0) + SkuRowCount(rows[1..], sku)
  }

  /** `all_processed_orders['sku'].value_counts()`: rows per SKU. */
  function SkuCounts(rows: seq<Flagged>): (counts: map<string, nat>)
    ensures forall s :: s in counts <==> exists f :: f in rows && f.order.sku == s
    ensures forall s :: s in counts ==> 1 <= counts[s] <= |rows| && counts[s] == SkuRowCount(rows, s)
  {
    map s | s in (set f | f in rows :: f.order.sku) :: SkuRowCount(rows, s)
  }

  /** Counting over the Label and Non-Label partitions together adds up each partition's counts. */
  lemma {:induction false} SkuRowCountAppend(a: seq<Flagged>, b: seq<Flagged>, sku: string)
    ensures SkuRowCount(a + b, sku) == SkuRowCount(a, sku) + SkuRowCount(b, sku)
    decreases |a|
  {
    if a == [] {
      assert a + b == b;
    } else {
      assert (a + b)[0] == a[0] && (a + b)[1..] == a[1..] + b;
      SkuRowCountAppend(a[1..], b, sku);
    }
  }
}
