/**
 * Master workbooks: each sheet is a list of named columns of cells; a workbook
 * maps sheet names (the label types, e.g. "Label Vendors") to sheets.
 * Covers the header pass at load time and the SKU preload.
 */
module Sheets {
  import opened Headers

  /** A spreadsheet cell: empty (pandas NaN) or text. */
  datatype Cell = Missing | Text(text: string)

  datatype Column = Column(header: string, cells: seq<Cell>)

  datatype Sheet = Sheet(columns: seq<Column>)

  type Workbook = map<string, Sheet>

  /** `sheet.columns.str.strip().str.lower().str.replace(' ', '_')`. */
  function NormalizeSheet(s: Sheet): (r: Sheet)
    ensures |r.columns| == |s.columns|
    ensures forall i :: 0 <= i < |r.columns| ==> r.columns[i].header == NormalizeHeader(s.columns[i].header)
    ensures forall i :: 0 <= i < |r.columns| ==> r.columns[i].cells == s.columns[i].cells
    ensures HeadersNormal(r)
  {
    var r := Sheet(seq(|s.columns|, i requires 0 <= i < |s.columns| =>
      Column(NormalizeHeader(s.columns[i].header), s.columns[i].cells)));
    assert HeadersNormal(r) by {
      forall i | 0 <= i < |r.columns| ensures NormalizeHeader(r.columns[i].header) == r.columns[i].header {
        NormalizeHeaderIdempotent(s.columns[i].header);
      }
    }
    r
  }

  /** Every sheet of a loaded workbook has its headers normalised. */
  function NormalizeWorkbook(wb: Workbook): (r: Workbook)
    ensures r.Keys == wb.Keys
    ensures forall n :: n in r ==> HeadersNormal(r[n])
    ensures forall n :: n in r ==> |r[n].columns| == |wb[n].columns|
    ensures forall n, i :: n in r && 0 <= i < |r[n].columns| ==> r[n].columns[i].header == NormalizeHeader(wb[n].columns[i].header)
    ensures forall n, i :: n in r && 0 <= i < |r[n].columns| ==> r[n].columns[i].cells == wb[n].columns[i].cells
  {
    map n | n in wb :: NormalizeSheet(wb[n])
  }

  /** Every header is already in normal form. */
  predicate HeadersNormal(s: Sheet)
  {
    forall i :: 0 <= i < |s.columns| ==> NormalizeHeader(s.columns[i].header) == s.columns[i].header
  }

  /** After the load-time pass, normalising again (as is done to the registry sheet) changes nothing. */
  lemma {:induction false} NormalizeSheetIdempotent(s: Sheet)
    ensures HeadersNormal(NormalizeSheet(s))
    ensures NormalizeSheet(NormalizeSheet(s)) == NormalizeSheet(s)
  {
    var n := NormalizeSheet(s);
    assert NormalizeSheet(n).columns == n.columns;
  }

  /** `name in df.columns`. */
  predicate HasColumn(s: Sheet, name: string)
  {
    exists c :: c in s.columns && c.header == name
  }

  /** `df[name]`: the cells of the first column with that header. */
  function ColumnCells(s: Sheet, name: string): (cells: seq<Cell>)
    requires HasColumn(s, name)
    ensures Column(name, cells) in s.columns
    decreases |s.columns|
  {
    if s.columns[0].header == name then s.columns[0].cells
    else
      assert s.columns == [s.columns[0]] + s.columns[1..];
      ColumnCells(Sheet(s.columns[1..]), name)
  }

  /** `astype(str)`: pandas renders a missing cell as the text "nan". */
  function CellText(c: Cell): string
  {
    match c
    case Missing => "nan"
    case Text(t) => t
  }

  /** `set(df['sku'].dropna().astype(str).unique())`. */
  function SkuValues(s: Sheet): (r: set<string>)
    requires HasColumn(s, "sku")
    ensures forall t :: t in r <==> Text(t) in ColumnCells(s, "sku")
  {
    set c | c in ColumnCells(s, "sku") && c.Text? :: c.text
  }

  /** `df['order_id'].astype(str)`, as the set `isin` tests against. */
  function OrderIdValues(s: Sheet): (r: set<string>)
    requires HasColumn(s, "order_id")
    ensures forall t :: t in r <==> Text(t) in ColumnCells(s, "order_id") || (t == "nan" && Missing in ColumnCells(s, "order_id"))
  {
    set c | c in ColumnCells(s, "order_id") :: CellText(c)
  }

  /** What `preload_skus` returns: one entry per sheet that has a `sku` column. */
  function SkuIndex(wb: Workbook): (r: map<string, set<string>>)
    ensures forall n :: n in r <==> n in wb && HasColumn(wb[n], "sku")
    ensures forall n :: n in r ==> r[n] == SkuValues(wb[n])
  {
    map n | n in wb && HasColumn(wb[n], "sku") :: SkuValues(wb[n])
  }

  /** `preload_skus`: fills the index one sheet at a time. */
  method PreloadSkus(sheets: Workbook) returns (skus: map<string, set<string>>)
    ensures skus.Keys <= sheets.Keys
    ensures forall n :: n in sheets ==> (n in skus <==> HasColumn(sheets[n], "sku"))
    ensures forall n :: n in skus ==> skus[n] == SkuValues(sheets[n])
    ensures skus == SkuIndex(sheets)
  {
    skus := map[];
    var todo := sheets.Keys;
    while todo != {}
      invariant todo <= sheets.Keys
      invariant forall n :: n in skus <==> n in sheets && n !in todo && HasColumn(sheets[n], "sku")
      invariant forall n :: n in skus ==> skus[n] == SkuValues(sheets[n])
      decreases todo
    {
      var n :| n in todo;
      if HasColumn(sheets[n], "sku") {
        skus := skus[n := SkuValues(sheets[n])];
      }
      todo := todo - {n};
    }
  }
}
