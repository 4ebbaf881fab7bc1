/**
 * Column-header normalisation, applied to every master sheet when it is loaded,
 * again to the vendor registry sheet, and to the unshipped-orders batch:
 * trim surrounding whitespace, lower-case, and turn each space into `_`.
 * Hyphens are untouched, so the batch's "Order-Id" becomes `order-id`
 * while a master sheet's "Order ID" becomes `order_id`.
 */
module Headers {

  /** The characters Python's `str.isspace` accepts. */
  predicate IsSpace(c: char)
  {
    || c == ' ' || c == '\t' || c == '\n' || c == '\r' || c == '\U{0B}' || c == '\U{0C}'
    || ('\U{1C}' <= c <= '\U{1F}') || c == '\U{85}' || c == '\U{A0}' || c == '\U{1680}'
    || ('\U{2000}' <= c <= '\U{200A}') || c == '\U{2028}' || c == '\U{2029}'
    || c == '\U{202F}' || c == '\U{205F}' || c == '\U{3000}'
  }

  predicate IsUpper(c: char)
  {
    'A' <= c <= 'Z'
  }

  /** Neither the first nor the last character is whitespace. */
  predicate Trimmed(s: string)
  {
    s == [] || (!IsSpace(s[0]) && !IsSpace(s[|s| - 1]))
  }

  /** The first position at or after `lo` that is not whitespace, or the end of `s`. */
  function SkipLeft(s: string, lo: nat): (k: nat)
    requires lo <= |s|
    ensures lo <= k <= |s|
    ensures forall i :: lo <= i < k ==> IsSpace(s[i])
    ensures k == |s| || !IsSpace(s[k])
    decreases |s| - lo
  {
    if lo < |s| && IsSpace(s[lo]) then SkipLeft(s, lo + 1) else lo
  }

  /** The end of `s[lo..hi]` once its trailing whitespace is dropped. */
  function SkipRight(s: string, lo: nat, hi: nat): (k: nat)
    requires lo <= hi <= |s|
    ensures lo <= k <= hi
    ensures forall i :: k <= i < hi ==> IsSpace(s[i])
    ensures k == lo || !IsSpace(s[k - 1])
    decreases hi
  {
    if lo < hi && IsSpace(s[hi - 1]) then SkipRight(s, lo, hi - 1) else hi
  }

  /** `r` sits in `s` starting at position `lo`. */
  predicate SliceAt(s: string, lo: nat, r: string)
  {
    lo + |r| <= |s| && r == s[lo..lo + |r|]
  }

  /** `r` is what remains of `s` once the whitespace before position `lo` and after `r` is dropped. */
  predicate StripsTo(s: string, lo: nat, r: string)
  {
    && SliceAt(s, lo, r)
    && (forall i :: 0 <= i < lo ==> IsSpace(s[i]))
    && (forall i :: lo + |r| <= i < |s| ==> IsSpace(s[i]))
  }

  /** Python's `str.strip()`: what lies between the leading and the trailing whitespace. */
  function Strip(s: string): (r: string)
    ensures Trimmed(r) && |r| <= |s|
    ensures exists lo: nat :: StripsTo(s, lo, r)
  {
    var lo := SkipLeft(s, 0);
    var hi := SkipRight(s, lo, |s|);
    assert StripsTo(s, lo, s[lo..hi]);
    s[lo..hi]
  }

  function LowerChar(c: char): (d: char)
    ensures !IsUpper(d)
    ensures d == c || 'a' <= d <= 'z'
    ensures IsSpace(d) == IsSpace(c)
  {
    if IsUpper(c) then (c as int - 'A' as int + 'a' as int) as char else c
  }

  /** `str.lower()` on the ASCII letters. */
  function Lower(s: string): (r: string)
    ensures |r| == |s|
    ensures forall i :: 0 <= i < |r| ==> r[i] == LowerChar(s[i])
  {
    seq(|s|, i requires 0 <= i < |s| => LowerChar(s[i]))
  }

  /** `str.replace(' ', '_')`. */
  function ReplaceSpaces(s: string): (r: string)
    ensures |r| == |s| && ' ' !in r
    ensures forall i :: 0 <= i < |r| ==> r[i] == (if s[i] == ' ' then '_' else s[i])
  {
    seq(|s|, i requires 0 <= i < |s| => if s[i] == ' ' then '_' else s[i])
  }

  /** The header as the pipeline looks it up: stripped, then each character lower-cased, or `_` where it was a space. */
  function NormalizeHeader(h: string): (r: string)
    ensures |r| == |Strip(h)|
    ensures forall i :: 0 <= i < |r| ==> r[i] == if Strip(h)[i] == ' ' then '_' else LowerChar(Strip(h)[i])
    ensures Trimmed(r) && |r| <= |h|
    ensures ' ' !in r
    ensures forall i :: 0 <= i < |r| ==> !IsUpper(r[i])
  {
    var st := Strip(h);
    LowerKeepsTrimmed(st);
    ReplaceSpaces(Lower(st))
  }

  /** Lower-casing and replacing spaces keep a trimmed header trimmed. */
  lemma LowerKeepsTrimmed(st: string)
    requires Trimmed(st)
    ensures Trimmed(ReplaceSpaces(Lower(st)))
  {
    var t := Lower(st);
    var r := ReplaceSpaces(t);
    if r != [] {
      var k := |r| - 1;
      assert !IsSpace(st[0]) && !IsSpace(st[k]);
      assert !IsSpace(t[0]) && !IsSpace(t[k]);
      assert r[0] == t[0] && r[k] == t[k];
    }
  }

  lemma StripTrimmed(s: string)
    requires Trimmed(s)
    ensures Strip(s) == s
  {
  }

  /** Normalising an already normalised header changes nothing (so the second pass over the registry sheet is a no-op). */
  lemma {:induction false} NormalizeHeaderIdempotent(h: string)
    ensures NormalizeHeader(NormalizeHeader(h)) == NormalizeHeader(h)
  {
    var n := NormalizeHeader(h);
    StripTrimmed(n);
    LowerNoUpper(n);
    ReplaceSpacesNoSpace(n);
    NormalizeHeaderSteps(n, n, n);
  }

  /** A header without upper-case letters is its own lower-case form. */
  lemma LowerNoUpper(s: string)
    requires forall i :: 0 <= i < |s| ==> !IsUpper(s[i])
    ensures Lower(s) == s
  {
  }

  /** A header without spaces keeps its underscores and hyphens as they are. */
  lemma ReplaceSpacesNoSpace(s: string)
    requires ' ' !in s
    ensures ReplaceSpaces(s) == s
  {
  }

  /** The three passes, one after the other. */
  lemma NormalizeHeaderSteps(h: string, stripped: string, lowered: string)
    requires Strip(h) == stripped && Lower(stripped) == lowered
    ensures NormalizeHeader(h) == ReplaceSpaces(lowered)
  {
  }

  /** Headers that differ only in case, surrounding whitespace and space-versus-underscore meet. */
  lemma OrderIdHeader()
    ensures NormalizeHeader(" Order ID") == "order_id"
  {
    StripSpacedOrderId();
    LowerOrderId();
    ReplaceOrderId();
    NormalizeHeaderSteps(" Order ID", "Order ID", "order id");
  }

  lemma StripSpacedOrderId()
    ensures Strip(" Order ID") == "Order ID"
  {
    var h := " Order ID";
    assert IsSpace(h[0]) && !IsSpace(h[1]) && !IsSpace(h[8]);
    assert SkipLeft(h, 0) == SkipLeft(h, 1) == 1;
    assert SkipRight(h, 1, 9) == 9;
    assert h[1..9] == "Order ID";
  }

  lemma ReplaceOrderId()
    ensures ReplaceSpaces("order id") == "order_id"
  {
    var replaced := ReplaceSpaces("order id");
    assert forall k :: 0 <= k < 8 ==> replaced[k] == "order_id"[k];
  }

  lemma LowerOrderId()
    ensures Lower("Order ID") == "order id"
  {
    var lowered := Lower("Order ID");
    assert LowerChar('O') == 'o' && LowerChar('I') == 'i' && LowerChar('D') == 'd';
    assert forall k :: 0 <= k < 8 ==> lowered[k] == "order id"[k];
  }

  /** A hyphen is kept, so the batch's order-id header never meets the master sheets' `order_id`. */
  lemma BatchOrderIdHeader()
    ensures NormalizeHeader("Order-Id ") == "order-id"
  {
    StripBatchOrderId();
    LowerBatchOrderId();
    ReplaceBatchOrderId();
    NormalizeHeaderSteps("Order-Id ", "Order-Id", "order-id");
  }

  lemma ReplaceBatchOrderId()
    ensures ReplaceSpaces("order-id") == "order-id"
  {
    ReplaceSpacesNoSpace("order-id");
  }

  lemma StripBatchOrderId()
    ensures Strip("Order-Id ") == "Order-Id"
  {
    var h := "Order-Id ";
    assert !IsSpace(h[0]) && !IsSpace(h[7]) && IsSpace(h[8]);
    assert SkipLeft(h, 0) == 0;
    assert SkipRight(h, 0, 9) == SkipRight(h, 0, 8) == 8;
    assert h[0..8] == "Order-Id";
  }

  lemma LowerBatchOrderId()
    ensures Lower("Order-Id") == "order-id"
  {
    var lowered := Lower("Order-Id");
    assert LowerChar('O') == 'o' && LowerChar('I') == 'i';
    assert forall k :: 0 <= k < 8 ==> lowered[k] == "order-id"[k];
  }
}
