/**
 * Per-vendor reconciliation (`process_vendor`): select the vendor's orders,
 * resolve its label type from the vendor registry, drop orders already present
 * in the old or the new master sheet of that label, and flag SKUs that neither
 * master knows. `Reconciled` gives the same outcome row by row; the lemma
 * `ProcessVendorByRow` ties the two together.
 */
module Reconcile {
  import opened Seqs
  import opened Sheets
  import opened Orders

  datatype Option<T> = None | Some(value: T)

  /** One row of the "Overall vendors" sheet. */
  datatype VendorEntry = VendorEntry(prefix: string, labelType: string)

  /** The label type of a vendor the registry does not list. */
  const UnknownLabel: string := "Unknown"

  /** Everything `process_vendor` reads besides the batch: the registry, both master workbooks (headers normalised), and their preloaded SKU sets. */
  datatype Masters = Masters(
    registry: seq<VendorEntry>,
    oldSheets: Workbook,
    newSheets: Workbook,
    oldSkus: map<string, set<string>>,
    newSkus: map<string, set<string>>)

  /** A reconciled batch row with its `new_sku` column. */
  datatype Flagged = Flagged(order: Order, newSku: bool)

  /** What `process_vendor` returns: the surviving rows and the label type. */
  datatype VendorResult = VendorResult(rows: seq<Flagged>, labelType: string)

  /** Registry row `i` is the first whose prefix equals `vendor`. */
  predicate IsFirstMatch(registry: seq<VendorEntry>, vendor: string, i: nat)
  {
    i < |registry| && registry[i].prefix == vendor && forall j :: 0 <= j < i ==> registry[j].prefix != vendor
  }

  /** Index of the first registry row whose prefix is exactly `vendor`. */
  function FindPrefix(registry: seq<VendorEntry>, vendor: string): (r: Option<nat>)
    ensures r.Some? ==> IsFirstMatch(registry, vendor, r.value)
    ensures r.None? ==> forall e :: e in registry ==> e.prefix != vendor
  {
    if registry == [] then None
    else if registry[0].prefix == vendor then Some(0)
    else match FindPrefix(registry[1..], vendor)
      case None => None
      case Some(i) => Some(i + 1)
  }

  /** `vendor_info['label'].values[0] if not vendor_info.empty else 'Unknown'`. */
  function LabelOf(registry: seq<VendorEntry>, vendor: string): (labelType: string)
    ensures forall i: nat :: IsFirstMatch(registry, vendor, i) ==> labelType == registry[i].labelType
    ensures (forall e :: e in registry ==> e.prefix != vendor) ==> labelType == UnknownLabel
  {
    match FindPrefix(registry, vendor)
    case None => UnknownLabel
    case Some(i) => registry[i].labelType
  }

  /** A master sheet that `process_vendor` filters against has an `order_id` column (else pandas raises). */
  predicate OrderIdsReadable(m: Masters, labelType: string)
  {
    && (labelType in m.oldSheets ==> HasColumn(m.oldSheets[labelType], "order_id"))
    && (labelType in m.newSheets ==> HasColumn(m.newSheets[labelType], "order_id"))
  }

  /** `id` is listed in the sheet named `label` of `wb`; an absent sheet lists nothing. */
  predicate ListedIn(wb: Workbook, labelType: string, id: string)
  {
    labelType in wb && HasColumn(wb[labelType], "order_id") && id in OrderIdValues(wb[labelType])
  }

  /** The order id is already in the old or the new master sheet of the label. */
  predicate KnownOrder(m: Masters, labelType: string, id: string)
  {
    ListedIn(m.oldSheets, labelType, id) || ListedIn(m.newSheets, labelType, id)
  }

  /** `old_skus.get(label, set()).union(new_skus.get(label, set()))`. */
  function ExistingSkus(m: Masters, labelType: string): (r: set<string>)
    ensures forall s :: s in r <==> (labelType in m.oldSkus && s in m.oldSkus[labelType]) || (labelType in m.newSkus && s in m.newSkus[labelType])
  {
    (if labelType in m.oldSkus then m.oldSkus[labelType] else {}) + (if labelType in m.newSkus then m.newSkus[labelType] else {})
  }

  function OrdersOf(fs: seq<Flagged>): (r: seq<Order>)
    ensures |r| == |fs| && forall i :: 0 <= i < |fs| ==> r[i] == fs[i].order
  {
    if fs == [] then [] else [fs[0].order] + OrdersOf(fs[1..])
  }

  /** `unshipped_orders[unshipped_orders['vendor_name'] == vendor]`. */
  function SelectVendor(orders: seq<Order>, vendor: string): seq<Order>
  {
    if orders == [] then [] else
      var rest := SelectVendor(orders[1..], vendor);
      if VendorName(orders[0].sku) == vendor then [orders[0]] + rest else rest
  }

  /** The vendor's rows are exactly the batch rows with that vendor name, each as often as in the batch. */
  lemma {:induction false} SelectVendorCount(orders: seq<Order>, vendor: string)
    ensures forall o :: multiset(SelectVendor(orders, vendor))[o] == if VendorName(o.sku) == vendor then multiset(orders)[o] else 0
    decreases |orders|
  {
    if orders != [] {
      SelectVendorCount(orders[1..], vendor);
      assert orders == [orders[0]] + orders[1..];
    }
  }

  /** The vendor's rows keep their batch order. */
  lemma {:induction false} SelectVendorInOrder(orders: seq<Order>, vendor: string)
    ensures IsSubseq(SelectVendor(orders, vendor), orders)
    decreases |orders|
  {
    if orders != [] {
      SelectVendorInOrder(orders[1..], vendor);
    }
  }

  /** `rows[~rows['order-id'].isin(ids)]`. */
  function DropOrders(rows: seq<Order>, ids: set<string>): (r: seq<Order>)
    ensures IsSubseq(r, rows)
    ensures forall o :: multiset(r)[o] == if o.orderId in ids then 0 else multiset(rows)[o]
  {
    if rows == [] then [] else
      var rest := DropOrders(rows[1..], ids);
      assert rows == [rows[0]] + rows[1..];
      if rows[0].orderId in ids then rest else [rows[0]] + rest
  }

  /** The `new_sku` column: false throughout for the Unknown label, else "not among the existing SKUs". */
  function FlagRows(rows: seq<Order>, labelType: string, existing: set<string>): (r: seq<Flagged>)
    ensures OrdersOf(r) == rows
    ensures forall f :: f in r ==> f.newSku == (labelType != UnknownLabel && f.order.sku !in existing)
  {
    if rows == [] then [] else
      assert rows == [rows[0]] + rows[1..];
      [Flagged(rows[0], labelType != UnknownLabel && rows[0].sku !in existing)] + FlagRows(rows[1..], labelType, existing)
  }

  /** Lines dropping already-known orders: first against the old master sheet of the label type, then the new one; an absent sheet drops nothing. */
  function DropKnownOrders(m: Masters, labelType: string, rows: seq<Order>): (r: seq<Order>)
    requires OrderIdsReadable(m, labelType)
    ensures IsSubseq(r, rows)
    ensures forall o :: multiset(r)[o] == if KnownOrder(m, labelType, o.orderId) then 0 else multiset(rows)[o]
  {
    var afterOld := if labelType in m.oldSheets then DropOrders(rows, OrderIdValues(m.oldSheets[labelType])) else rows;
    var afterNew := if labelType in m.newSheets then DropOrders(afterOld, OrderIdValues(m.newSheets[labelType])) else afterOld;
    SubseqRefl(rows);
    SubseqRefl(afterOld);
    SubseqTrans(afterNew, afterOld, rows);
    afterNew
  }

  /** `process_vendor(vendor)`. */
  function ProcessVendor(m: Masters, orders: seq<Order>, vendor: string): (r: VendorResult)
    requires SelectVendor(orders, vendor) != [] ==> OrderIdsReadable(m, LabelOf(m.registry, vendor))
    ensures r.labelType == if SelectVendor(orders, vendor) == [] then UnknownLabel else LabelOf(m.registry, vendor)
    ensures IsSubseq(OrdersOf(r.rows), SelectVendor(orders, vendor))
    ensures IsSubseq(OrdersOf(r.rows), orders)
    ensures forall o ::
              multiset(OrdersOf(r.rows))[o] ==
              if VendorName(o.sku) == vendor && !KnownOrder(m, r.labelType, o.orderId) then multiset(orders)[o] else 0
    ensures forall f :: f in r.rows ==> f.newSku == (r.labelType != UnknownLabel && f.order.sku !in ExistingSkus(m, r.labelType))
  {
    var vendorOrders := SelectVendor(orders, vendor);
    SelectVendorCount(orders, vendor);
    if vendorOrders == [] then
      VendorResult([], UnknownLabel)
    else
      var labelType := LabelOf(m.registry, vendor);
      var survivors := DropKnownOrders(m, labelType, vendorOrders);
      SelectVendorInOrder(orders, vendor);
      SubseqTrans(survivors, vendorOrders, orders);
      VendorResult(FlagRows(survivors, labelType, ExistingSkus(m, labelType)), labelType)
  }

  /** The label type of the row's vendor. */
  function RowLabel(m: Masters, o: Order): string
  {
    LabelOf(m.registry, VendorName(o.sku))
  }

  /** The row as reconciliation flags it. */
  function Tag(m: Masters, o: Order): Flagged
  {
    var labelType := RowLabel(m, o);
    Flagged(o, labelType != UnknownLabel && o.sku !in ExistingSkus(m, labelType))
  }

  /** Row-by-row reference: each row whose id its label's masters do not know, flagged; the rest dropped. */
  function Reconciled(m: Masters, rows: seq<Order>): (r: seq<Flagged>)
  {
    if rows == [] then [] else
      var rest := Reconciled(m, rows[1..]);
      if KnownOrder(m, RowLabel(m, rows[0]), rows[0].orderId) then rest else [Tag(m, rows[0])] + rest
  }

  lemma {:induction false} ReconciledAppend(m: Masters, a: seq<Order>, b: seq<Order>)
    ensures Reconciled(m, a + b) == Reconciled(m, a) + Reconciled(m, b)
    decreases |a|
  {
    if a == [] {
      assert a + b == b;
    } else {
      var ab := a + b;
      assert ab[0] == a[0] && ab[1..] == a[1..] + b;
      ReconciledAppend(m, a[1..], b);
      var x, y := Reconciled(m, a[1..]), Reconciled(m, b);
      if KnownOrder(m, RowLabel(m, a[0]), a[0].orderId) {
        assert Reconciled(m, ab) == Reconciled(m, ab[1..]);
      } else {
        var t := [Tag(m, a[0])];
        assert Reconciled(m, ab) == t + Reconciled(m, ab[1..]);
        assert t + (x + y) == (t + x) + y;
      }
    }
  }

  lemma {:induction false} SelectVendorAppend(a: seq<Order>, b: seq<Order>, vendor: string)
    ensures SelectVendor(a + b, vendor) == SelectVendor(a, vendor) + SelectVendor(b, vendor)
    decreases |a|
  {
    if a == [] {
      assert a + b == b;
    } else {
      var ab := a + b;
      assert ab[0] == a[0] && ab[1..] == a[1..] + b;
      SelectVendorAppend(a[1..], b, vendor);
      var x, y := SelectVendor(a[1..], vendor), SelectVendor(b, vendor);
      if VendorName(a[0].sku) == vendor {
        assert SelectVendor(ab, vendor) == [a[0]] + SelectVendor(ab[1..], vendor);
        assert [a[0]] + (x + y) == ([a[0]] + x) + y;
      } else {
        assert SelectVendor(ab, vendor) == SelectVendor(ab[1..], vendor);
      }
    }
  }

  /** On rows of one vendor, the two dedup filters followed by flagging agree with `Reconciled`. */
  lemma {:induction false} VendorChainByRow(m: Masters, rows: seq<Order>, vendor: string)
    requires forall o :: o in rows ==> VendorName(o.sku) == vendor
    requires OrderIdsReadable(m, LabelOf(m.registry, vendor))
    ensures
      var labelType := LabelOf(m.registry, vendor);
      FlagRows(DropKnownOrders(m, labelType, rows), labelType, ExistingSkus(m, labelType)) == Reconciled(m, rows)
    decreases |rows|
  {
    if rows != [] {
      var labelType := LabelOf(m.registry, vendor);
      VendorChainByRow(m, rows[1..], vendor);
      DropKnownOrdersCons(m, labelType, rows);
      var rest := DropKnownOrders(m, labelType, rows[1..]);
      var flagged := FlagRows(rest, labelType, ExistingSkus(m, labelType));
      assert RowLabel(m, rows[0]) == labelType;
      if KnownOrder(m, labelType, rows[0].orderId) {
        assert [] + rest == rest;
        assert DropKnownOrders(m, labelType, rows) == rest;
        assert Reconciled(m, rows) == Reconciled(m, rows[1..]);
      } else {
        var front := [rows[0]] + rest;
        assert DropKnownOrders(m, labelType, rows) == front;
        FlagRowsCons(rows[0], rest, labelType, ExistingSkus(m, labelType));
        assert Reconciled(m, rows) == [Tag(m, rows[0])] + Reconciled(m, rows[1..]);
      }
    }
  }

  lemma FlagRowsCons(x: Order, rows: seq<Order>, labelType: string, existing: set<string>)
    ensures FlagRows([x] + rows, labelType, existing) ==
            [Flagged(x, labelType != UnknownLabel && x.sku !in existing)] + FlagRows(rows, labelType, existing)
  {
    assert ([x] + rows)[0] == x && ([x] + rows)[1..] == rows;
  }

  /** The two dedup filters look at one row at a time. */
  lemma DropKnownOrdersCons(m: Masters, labelType: string, rows: seq<Order>)
    requires OrderIdsReadable(m, labelType)
    requires rows != []
    ensures DropKnownOrders(m, labelType, rows) ==
            (if KnownOrder(m, labelType, rows[0].orderId) then [] else [rows[0]]) + DropKnownOrders(m, labelType, rows[1..])
  {
    var x, t := rows[0], rows[1..];
    var afterOld := if labelType in m.oldSheets then DropOrders(rows, OrderIdValues(m.oldSheets[labelType])) else rows;
    var tailOld := if labelType in m.oldSheets then DropOrders(t, OrderIdValues(m.oldSheets[labelType])) else t;
    var keptOld := !ListedIn(m.oldSheets, labelType, x.orderId);
    assert afterOld == (if keptOld then [x] else []) + tailOld;
    if keptOld && labelType in m.newSheets {
      var ids := OrderIdValues(m.newSheets[labelType]);
      assert afterOld[0] == x && afterOld[1..] == tailOld;
      assert DropOrders(afterOld, ids) == (if x.orderId in ids then [] else [x]) + DropOrders(tailOld, ids);
    } else if !keptOld {
      assert afterOld == tailOld;
    }
  }

  /** `process_vendor` keeps and flags each of the vendor's rows exactly as `Reconciled` does. */
  lemma ProcessVendorByRow(m: Masters, orders: seq<Order>, vendor: string)
    requires SelectVendor(orders, vendor) != [] ==> OrderIdsReadable(m, LabelOf(m.registry, vendor))
    ensures ProcessVendor(m, orders, vendor).rows == Reconciled(m, SelectVendor(orders, vendor))
  {
    var sel := SelectVendor(orders, vendor);
    if sel != [] {
      SelectVendorCount(orders, vendor);
      forall o | o in sel ensures VendorName(o.sku) == vendor {
        assert multiset(sel)[o] > 0;
      }
      VendorChainByRow(m, sel, vendor);
    }
  }

  /** Reconciling the survivors again against the same masters changes nothing. */
  lemma {:induction false} ReconcileIdempotent(m: Masters, orders: seq<Order>, vendor: string)
    requires SelectVendor(orders, vendor) != [] ==> OrderIdsReadable(m, LabelOf(m.registry, vendor))
    ensures
      var r := ProcessVendor(m, orders, vendor);
      r.rows != [] ==> ProcessVendor(m, OrdersOf(r.rows), vendor) == r
  {
    var r := ProcessVendor(m, orders, vendor);
    var kept := OrdersOf(r.rows);
    if r.rows != [] {
      assert SelectVendor(orders, vendor) != [];
      assert forall o :: o in kept ==> VendorName(o.sku) == vendor && !KnownOrder(m, r.labelType, o.orderId) by {
        forall o | o in kept ensures VendorName(o.sku) == vendor && !KnownOrder(m, r.labelType, o.orderId) {
          assert multiset(kept)[o] > 0;
        }
      }
      SelectAll(kept, vendor);
      ProcessVendorByRow(m, kept, vendor);
      ReconciledKeepsSurvivors(m, kept);
      FlagsAreTags(m, orders, vendor);
      assert Reconciled(m, kept) == r.rows;
    }
  }

  lemma {:induction false} SelectAll(rows: seq<Order>, vendor: string)
    requires forall o :: o in rows ==> VendorName(o.sku) == vendor
    ensures SelectVendor(rows, vendor) == rows
    decreases |rows|
  {
    if rows != [] {
      SelectAll(rows[1..], vendor);
    }
  }

  /** Rows none of which is known reconcile to their own tags. */
  lemma {:induction false} ReconciledKeepsSurvivors(m: Masters, rows: seq<Order>)
    requires forall o :: o in rows ==> !KnownOrder(m, RowLabel(m, o), o.orderId)
    ensures OrdersOf(Reconciled(m, rows)) == rows
    ensures forall i :: 0 <= i < |rows| ==> Reconciled(m, rows)[i] == Tag(m, rows[i])
    decreases |rows|
  {
    if rows != [] {
      ReconciledKeepsSurvivors(m, rows[1..]);
    }
  }

  /** Each row `process_vendor` returns carries the row's own tag. */
  lemma FlagsAreTags(m: Masters, orders: seq<Order>, vendor: string)
    requires SelectVendor(orders, vendor) != [] ==> OrderIdsReadable(m, LabelOf(m.registry, vendor))
    ensures
      var r := ProcessVendor(m, orders, vendor);
      forall f :: f in r.rows ==> f == Tag(m, f.order)
  {
    var r := ProcessVendor(m, orders, vendor);
    forall f | f in r.rows ensures RowLabel(m, f.order) == r.labelType {
      ProcessedRow(m, orders, vendor, f);
    }
  }

  /** A row `process_vendor` returns is one of the vendor's batch rows, its order id unknown for the vendor's label type. */
  lemma ProcessedRow(m: Masters, orders: seq<Order>, vendor: string, f: Flagged)
    requires SelectVendor(orders, vendor) != [] ==> OrderIdsReadable(m, LabelOf(m.registry, vendor))
    requires f in ProcessVendor(m, orders, vendor).rows
    ensures VendorName(f.order.sku) == vendor && f.order in orders
    ensures ProcessVendor(m, orders, vendor).labelType == LabelOf(m.registry, vendor) == RowLabel(m, f.order)
  {
    var r := ProcessVendor(m, orders, vendor);
    var i :| 0 <= i < |r.rows| && r.rows[i] == f;
    assert OrdersOf(r.rows)[i] == f.order;
    assert multiset(OrdersOf(r.rows))[f.order] > 0;
    assert VendorName(f.order.sku) == vendor && multiset(orders)[f.order] > 0;
    assert multiset(SelectVendor(orders, vendor))[f.order] > 0;
  }

  /** `Reconciled` keeps each row, tagged, exactly when its order id is not known for its label type, as often as the row occurs. */
  lemma {:induction false} ReconciledCount(m: Masters, rows: seq<Order>, f: Flagged)
    ensures multiset(Reconciled(m, rows))[f] ==
            if f == Tag(m, f.order) && !KnownOrder(m, RowLabel(m, f.order), f.order.orderId) then multiset(rows)[f.order] else 0
    decreases |rows|
  {
    if rows != [] {
      ReconciledCount(m, rows[1..], f);
      assert rows == [rows[0]] + rows[1..];
    }
  }

  /** Every row `process_vendor` returns belongs to a vendor whose label type is the result's label type. */
  lemma RowsCarryVendorLabel(m: Masters, orders: seq<Order>, vendor: string)
    requires SelectVendor(orders, vendor) != [] ==> OrderIdsReadable(m, LabelOf(m.registry, vendor))
    ensures
      var r := ProcessVendor(m, orders, vendor);
      forall f :: f in r.rows ==> VendorName(f.order.sku) == vendor && RowLabel(m, f.order) == r.labelType
  {
    var r := ProcessVendor(m, orders, vendor);
    forall f | f in r.rows ensures VendorName(f.order.sku) == vendor && RowLabel(m, f.order) == r.labelType {
      ProcessedRow(m, orders, vendor, f);
    }
  }
}
