/**
 * The unshipped-orders batch after its headers have been normalised: each row
 * carries its `order-id` and its `sku`. This module splits off the return and
 * inventory-adjustment rows, derives the vendor prefix, and drops rows whose
 * prefix is literally "Unknown".
 */
module Orders {
  import opened Seqs

  datatype Order = Order(orderId: string, sku: string)

  /** `pat` occurs in `s` starting at position `i`. */
  predicate OccursAt(s: string, pat: string, i: nat)
  {
    i + |pat| <= |s| && s[i..i + |pat|] == pat
  }

  /** Unanchored search for `pat`, as `re.search` does for a literal pattern. */
  function Contains(s: string, pat: string): (b: bool)
    ensures b <==> exists i: nat :: OccursAt(s, pat, i)
  {
    if pat <= s then
      assert OccursAt(s, pat, 0);
      true
    else if s == [] then false
    else
      var b := Contains(s[1..], pat);
      assert forall i: nat :: OccursAt(s, pat, i + 1) <==> OccursAt(s[1..], pat, i) by {
        forall i: nat ensures OccursAt(s, pat, i + 1) <==> OccursAt(s[1..], pat, i) {
          if i + 1 + |pat| <= |s| {
            var a, b := s[i + 1..i + 1 + |pat|], s[1..][i..i + |pat|];
            assert forall k :: 0 <= k < |a| ==> a[k] == b[k];
            assert a == b;
          }
        }
      }
      assert !OccursAt(s, pat, 0);
      assert forall i: nat :: OccursAt(s, pat, i) ==> i == 0 || OccursAt(s[1..], pat, i - 1);
      b
  }

  /** `sku.str.contains('RET|INV')`: a return or inventory-adjustment marker anywhere in the SKU. */
  function IsRemovedSku(sku: string): (removed: bool)
    ensures removed <==> exists i: nat :: OccursAt(sku, "RET", i) || OccursAt(sku, "INV", i)
  {
    Contains(sku, "RET") || Contains(sku, "INV")
  }

  /** `unshipped_orders[mask]`: the rows whose SKU carries a marker, in batch order. */
  function RemovedRows(rows: seq<Order>): (r: seq<Order>)
    ensures IsSubseq(r, rows)
    ensures forall o :: multiset(r)[o] == if IsRemovedSku(o.sku) then multiset(rows)[o] else 0
  {
    if rows == [] then [] else
      var rest := RemovedRows(rows[1..]);
      assert rows == [rows[0]] + rows[1..];
      if IsRemovedSku(rows[0].sku) then [rows[0]] + rest else rest
  }

  /** `unshipped_orders[~mask]`: every other row, in batch order. */
  function KeptRows(rows: seq<Order>): (r: seq<Order>)
    ensures IsSubseq(r, rows)
    ensures forall o :: multiset(r)[o] == if IsRemovedSku(o.sku) then 0 else multiset(rows)[o]
  {
    if rows == [] then [] else
      var rest := KeptRows(rows[1..]);
      assert rows == [rows[0]] + rows[1..];
      if IsRemovedSku(rows[0].sku) then rest else [rows[0]] + rest
  }

  /** Each batch row lands in exactly one of the removed rows and the kept rows. */
  lemma SplitIsPartition(rows: seq<Order>)
    ensures multiset(RemovedRows(rows)) + multiset(KeptRows(rows)) == multiset(rows)
    ensures |RemovedRows(rows)| + |KeptRows(rows)| == |rows|
    ensures forall o :: o in RemovedRows(rows) ==> o in rows && IsRemovedSku(o.sku)
    ensures forall o :: o in KeptRows(rows) ==> o in rows && !IsRemovedSku(o.sku)
  {
    var a, b := multiset(RemovedRows(rows)), multiset(KeptRows(rows));
    assert forall o :: (a + b)[o] == multiset(rows)[o];
    assert a + b == multiset(rows);
    assert |a + b| == |a| + |b|;
    forall o | o in RemovedRows(rows) ensures o in rows && IsRemovedSku(o.sku) {
      assert a[o] > 0;
    }
    forall o | o in KeptRows(rows) ensures o in rows && !IsRemovedSku(o.sku) {
      assert b[o] > 0;
    }
  }

  /** `sku.str.split('-').str[0]`: the text before the first hyphen, or all of it. */
  function VendorName(sku: string): (v: string)
    ensures v <= sku && '-' !in v
    ensures |v| == |sku| || sku[|v|] == '-'
  {
    if sku == [] || sku[0] == '-' then []
    else
      var rest := VendorName(sku[1..]);
      assert sku == [sku[0]] + sku[1..];
      [sku[0]] + rest
  }

  /** The three properties of `VendorName` pin it down: no other prefix has them. */
  lemma {:induction false} VendorNameUnique(sku: string, p: string)
    requires p <= sku && '-' !in p
    requires |p| == |sku| || sku[|p|] == '-'
    ensures p == VendorName(sku)
  {
    var v := VendorName(sku);
    assert forall k :: 0 <= k < |v| ==> sku[k] == v[k] != '-';
    assert forall k :: 0 <= k < |p| ==> sku[k] == p[k] != '-';
    assert |p| == |v|;
    assert p == sku[..|p|] && v == sku[..|v|];
  }

  const UnknownVendor: string := "Unknown"

  /** `vendor_name.isin(['Unknown'])` negated: rows whose prefix is not literally "Unknown". */
  function DropUnknownVendor(rows: seq<Order>): (r: seq<Order>)
    ensures IsSubseq(r, rows)
    ensures forall o :: multiset(r)[o] == if VendorName(o.sku) == UnknownVendor then 0 else multiset(rows)[o]
  {
    if rows == [] then [] else
      var rest := DropUnknownVendor(rows[1..]);
      assert rows == [rows[0]] + rows[1..];
      if VendorName(rows[0].sku) == UnknownVendor then rest else [rows[0]] + rest
  }

  /** A batch row that reaches reconciliation. */
  predicate Reconcilable(o: Order)
  {
    !IsRemovedSku(o.sku) && VendorName(o.sku) != UnknownVendor
  }

  /** The batch as it enters reconciliation: marker rows split off, then "Unknown"-prefixed rows dropped. */
  function PreparedOrders(batch: seq<Order>): (r: seq<Order>)
  {
    DropUnknownVendor(KeptRows(batch))
  }

  /** The prepared orders are the batch rows that pass both filters, in batch order and with their multiplicity. */
  lemma {:induction false} PreparedOrdersSpec(batch: seq<Order>)
    ensures IsSubseq(PreparedOrders(batch), batch)
    ensures forall o :: multiset(PreparedOrders(batch))[o] == if Reconcilable(o) then multiset(batch)[o] else 0
    ensures forall o :: o in PreparedOrders(batch) ==> !IsRemovedSku(o.sku) && VendorName(o.sku) != UnknownVendor
  {
    var k := KeptRows(batch);
    SubseqTrans(PreparedOrders(batch), k, batch);
    forall o | o in PreparedOrders(batch)
      ensures !IsRemovedSku(o.sku) && VendorName(o.sku) != UnknownVendor
    {
      assert multiset(PreparedOrders(batch))[o] > 0;
    }
  }

  /** A SKU such as "INVICTA-12" counts as removed: the match is on the letters anywhere, not on a separate token. */
  lemma MarkerMatchesInsideWords()
    ensures IsRemovedSku("INVICTA-12")
    ensures VendorName("INVICTA-12") == "INVICTA"
  {
    assert OccursAt("INVICTA-12", "INV", 0);
    assert "INVICTA-12"[7] == '-';
    VendorNameUnique("INVICTA-12", "INVICTA");
  }
}
