/** The invoice normaliser of Proycontable/scripts/etl_invoices.py,
    `clean_invoices`: column names stripped and lower-cased, `client` (or,
    failing that, `supplier`) renamed to `name`, the date parsed, the amount
    filtered with `[^\d\.-]`, parsed and made absolute, the name stripped and
    upper-cased, `method` renamed to `mode`, and the frame projected onto
    date, amount, mode, name. */
module InvoiceEtl {
  import opened Text
  import opened Tables
  import opened Decimal

  // ----------------------------------------------------------- column names

  /** `col.strip().lower()`. */
  function ColumnKey(c: string): (r: string)
    ensures IsTrimmed(r) && NoUpperLetter(r)
  {
    TrimSpec(c);
    LowerKeepsTrimmed(Trim(c));
    Lower(Trim(c))
  }

  /** `[col.strip().lower() for col in df.columns]`. */
  function NormalizeColumns(cols: seq<string>): (r: seq<string>)
    ensures |r| == |cols|
    ensures forall j :: 0 <= j < |r| ==> IsTrimmed(r[j]) && NoUpperLetter(r[j])
    ensures forall j :: 0 <= j < |r| ==> r[j] == ColumnKey(cols[j])
  {
    seq(|cols|, j requires 0 <= j < |cols| => ColumnKey(cols[j]))
  }

  /** A normalised column name is its own key. */
  lemma ColumnKeyIdempotent(c: string)
    ensures ColumnKey(ColumnKey(c)) == ColumnKey(c)
  {
    var t := Trim(c);
    TrimSpec(c);
    LowerKeepsTrimmed(t);
    TrimmedIsFixpoint(Lower(t));
    LowerIdempotent(t);
  }

  lemma NormalizeColumnsIdempotent(cols: seq<string>)
    ensures NormalizeColumns(NormalizeColumns(cols)) == NormalizeColumns(cols)
  {
    forall j | 0 <= j < |cols|
      ensures ColumnKey(ColumnKey(cols[j])) == ColumnKey(cols[j])
    {
      ColumnKeyIdempotent(cols[j]);
    }
  }

  /** `df.rename(columns={src: dst})`: every column called `src` is called `dst`. */
  function Rename(cols: seq<string>, src: string, dst: string): (r: seq<string>)
    ensures |r| == |cols|
    ensures forall j :: 0 <= j < |cols| ==> r[j] == if cols[j] == src then dst else cols[j]
    ensures src != dst ==> src !in r
    ensures dst in r <==> dst in cols || src in cols
    ensures forall x :: x != src && x != dst ==> (x in r <==> x in cols)
  {
    seq(|cols|, j requires 0 <= j < |cols| => if cols[j] == src then dst else cols[j])
  }

  /** Lines 24-27: `client`, else `supplier`, is renamed to `name`. */
  function RenameParty(cols: seq<string>): (r: seq<string>)
    ensures |r| == |cols|
  {
    if "client" in cols then Rename(cols, "client", "name")
    else if "supplier" in cols then Rename(cols, "supplier", "name")
    else cols
  }

  /** `client` wins over `supplier`: with a `client` column, every `supplier`
      column keeps its name; `supplier` becomes `name` only without `client`;
      no other column changes; and afterwards there is a `name` column exactly
      when there was one of `name`, `client` or `supplier`. */
  lemma PartyPrecedence(cols: seq<string>)
    ensures var r := RenameParty(cols);
      && ("client" in cols ==> "name" in r && "client" !in r)
      && ("client" in cols ==> forall j :: 0 <= j < |cols| && cols[j] == "supplier" ==> r[j] == "supplier")
      && ("client" !in cols && "supplier" in cols ==> "name" in r && "supplier" !in r)
      && ("client" !in cols && "supplier" !in cols ==> r == cols)
      && (forall j :: 0 <= j < |cols| && cols[j] != "client" && cols[j] != "supplier" ==> r[j] == cols[j])
      && ("name" in r <==> "name" in cols || "client" in cols || "supplier" in cols)
  {
  }

  /** Lines 40-41: `method`, when present, is renamed to `mode`. */
  function RenameMethod(cols: seq<string>): (r: seq<string>)
    ensures |r| == |cols|
    ensures forall j :: 0 <= j < |cols| && cols[j] != "method" ==> r[j] == cols[j]
  {
    if "method" in cols then Rename(cols, "method", "mode") else cols
  }

  /** Without `method` the step changes nothing; with it, `method` is gone and
      `mode` is there; a `mode` column exists afterwards exactly when `mode`
      or `method` existed before. */
  lemma MethodBecomesMode(cols: seq<string>)
    ensures var r := RenameMethod(cols);
      && ("method" in cols ==> "mode" in r && "method" !in r)
      && ("method" !in cols ==> r == cols)
      && ("mode" in r <==> "mode" in cols || "method" in cols)
  {
  }

  /** The column names after line 27. */
  function PartyColumns(df: Frame): seq<string> {
    RenameParty(NormalizeColumns(df.columns))
  }

  // ----------------------------------------------------------------- values

  /** The characters `[^\d\.-]` does not remove. */
  predicate IsInvoiceNumberChar(c: char) {
    IsDigit(c) || c == '.' || c == '-'
  }

  /** The invoice filter keeps exactly the digits, '.' and '-' of the cell's
      text in their original order, and filtering again changes nothing. */
  lemma InvoiceNumberTextSpec(c: Cell)
    ensures IsSubsequence(NumberText(c, IsInvoiceNumberChar), CellText(c))
    ensures forall x :: IsInvoiceNumberChar(x) ==>
      multiset(NumberText(c, IsInvoiceNumberChar))[x] == multiset(CellText(c))[x]
    ensures forall x :: !IsInvoiceNumberChar(x) ==> x !in NumberText(c, IsInvoiceNumberChar)
    ensures Filter(NumberText(c, IsInvoiceNumberChar), IsInvoiceNumberChar) == NumberText(c, IsInvoiceNumberChar)
  {
    FilterIsSubsequence(CellText(c), IsInvoiceNumberChar);
    FilterCounts(CellText(c), IsInvoiceNumberChar);
    FilterIdempotent(CellText(c), IsInvoiceNumberChar);
  }

  /** Python's `str(x).strip().upper()` on ASCII. */
  function CanonicalText(s: string): (r: string)
    ensures IsTrimmed(r) && NoLowerLetter(r)
    ensures |r| <= |s|
  {
    TrimSpec(s);
    UpperKeepsTrimmed(Trim(s));
    Upper(Trim(s))
  }

  /** Line 38 on one cell: `.astype(str).str.strip().str.upper()`. */
  function CanonicalName(c: Cell): (r: string)
    ensures IsTrimmed(r) && NoLowerLetter(r)
  {
    CanonicalText(CellText(c))
  }

  /** A trimmed string without lower-case letters is its own canonical form,
      so canonicalising twice is canonicalising once. */
  lemma CanonicalTextFixpoint(s: string)
    requires IsTrimmed(s) && NoLowerLetter(s)
    ensures CanonicalText(s) == s
  {
    TrimmedIsFixpoint(s);
  }

  lemma CanonicalTextIdempotent(s: string)
    ensures CanonicalText(CanonicalText(s)) == CanonicalText(s)
  {
    CanonicalTextFixpoint(CanonicalText(s));
  }

  // -------------------------------------------------------- clean_invoices

  /** A canonical invoice record: exactly the columns date, amount, mode, name. */
  datatype InvoiceRecord = InvoiceRecord(date: Option<int>, amount: real, mode: Cell, name: string)

  const InvoiceColumns: seq<string> := ["date", "amount", "mode", "name"]

  /** `clean_invoices` (lines 15-44) on the frame `load_invoices` read. */
  function CleanInvoices(df: Frame, parseDate: string -> Option<int>): (r: Result<seq<InvoiceRecord>, CleanError>)
    requires df.WellShaped()
    ensures r.Ok? ==> |r.value| == |df.rows|
    ensures r.Ok? ==> forall k :: 0 <= k < |r.value| ==>
      r.value[k].amount >= 0.0 && IsTrimmed(r.value[k].name) && NoLowerLetter(r.value[k].name)
    ensures r.Ok? ==> "date" in PartyColumns(df) && "amount" in PartyColumns(df) && "name" in PartyColumns(df)
    ensures r.Ok? ==> "mode" in RenameMethod(PartyColumns(df))
    ensures "date" !in PartyColumns(df) ==> r == Err(MissingColumns(["date"]))
    ensures "name" !in PartyColumns(df) || "mode" !in RenameMethod(PartyColumns(df)) ==> r.Err?
  {
    var cols := PartyColumns(df);
    match IndexOf(cols, "date")
    case None => Err(MissingColumns(["date"]))
    case Some(di) =>
      match IndexOf(cols, "amount")
      case None => Err(MissingColumns(["amount"]))
      case Some(ai) =>
        match ParseColumn(Column(df, ai), IsInvoiceNumberChar)
        case Err(k) => Err(NotANumber("amount", k))
        case Ok(amounts) =>
          match IndexOf(cols, "name")
          case None => Err(MissingColumns(["name"]))
          case Some(ni) =>
            var final := RenameMethod(cols);
            match IndexOf(final, "mode")
            case None => Err(MissingColumns(Absent(final, InvoiceColumns)))
            case Some(mi) => Ok(InvoiceRecords(df, parseDate, di, amounts, mi, ni))
  }

  /** Lines 29-44 once every column was found and the amounts parsed: one
      record per row. */
  function InvoiceRecords(df: Frame, parseDate: string -> Option<int>, di: nat, amounts: seq<real>,
                          mi: nat, ni: nat): (r: seq<InvoiceRecord>)
    requires df.WellShaped() && di < |df.columns| && mi < |df.columns| && ni < |df.columns|
    requires |amounts| == |df.rows|
    ensures |r| == |df.rows|
    ensures forall k :: 0 <= k < |r| ==>
      r[k].amount >= 0.0 && IsTrimmed(r[k].name) && NoLowerLetter(r[k].name)
  {
    seq(|df.rows|, k requires 0 <= k < |df.rows| =>
      InvoiceRecord(DateOf(df.rows[k][di], parseDate), Abs(amounts[k]), df.rows[k][mi], CanonicalName(df.rows[k][ni])))
  }

  /** Each cleaned record takes its date, amount, mode and name from the first
      column of that (normalised, renamed) name in its row: the amount is the
      magnitude of the filtered and parsed text, the name its canonical form. */
  lemma CleanInvoicesFields(df: Frame, parseDate: string -> Option<int>, k: nat)
    requires df.WellShaped() && CleanInvoices(df, parseDate).Ok? && k < |df.rows|
    ensures forall x :: x in InvoiceColumns ==> IndexOf(RenameMethod(PartyColumns(df)), x).Some?
    ensures var rec := CleanInvoices(df, parseDate).value[k];
      var cols := PartyColumns(df);
      var row := df.rows[k];
      && rec.date == DateOf(row[IndexOf(cols, "date").value], parseDate)
      && ParseFloat(NumberText(row[IndexOf(cols, "amount").value], IsInvoiceNumberChar)).Some?
      && rec.amount == Abs(ParseFloat(NumberText(row[IndexOf(cols, "amount").value], IsInvoiceNumberChar)).value)
      && rec.mode == row[IndexOf(RenameMethod(cols), "mode").value]
      && rec.name == CanonicalName(row[IndexOf(cols, "name").value])
  {
    var r := CleanInvoices(df, parseDate);
    var cols := PartyColumns(df);
    var di := IndexOf(cols, "date").value;
    var ai := IndexOf(cols, "amount").value;
    var ni := IndexOf(cols, "name").value;
    var mi := IndexOf(RenameMethod(cols), "mode").value;
    var amounts := ParseColumn(Column(df, ai), IsInvoiceNumberChar).value;
    assert r.value == InvoiceRecords(df, parseDate, di, amounts, mi, ni);
    assert r.value[k] == InvoiceRecord(DateOf(df.rows[k][di], parseDate), Abs(amounts[k]),
                                       df.rows[k][mi], CanonicalName(df.rows[k][ni]));
    assert Column(df, ai)[k] == df.rows[k][ai];
    assert IndexOf(RenameMethod(cols), "date").Some?;
  }

  /** With a `client` column and no column already called `name`, the name
      values come from the first `client` column, even when a `supplier`
      column is present too. */
  lemma ClientBecomesName(df: Frame, parseDate: string -> Option<int>, k: nat)
    requires df.WellShaped() && CleanInvoices(df, parseDate).Ok? && k < |df.rows|
    requires "client" in NormalizeColumns(df.columns) && "name" !in NormalizeColumns(df.columns)
    ensures CleanInvoices(df, parseDate).value[k].name ==
      CanonicalName(df.rows[k][IndexOf(NormalizeColumns(df.columns), "client").value])
  {
    CleanInvoicesFields(df, parseDate, k);
    var norm := NormalizeColumns(df.columns);
    FirstRenamed(norm, "client", "name");
  }

  /** Without a `client` column, and with no column already called `name`,
      the name values come from the first `supplier` column. */
  lemma SupplierBecomesName(df: Frame, parseDate: string -> Option<int>, k: nat)
    requires df.WellShaped() && CleanInvoices(df, parseDate).Ok? && k < |df.rows|
    requires "client" !in NormalizeColumns(df.columns) && "name" !in NormalizeColumns(df.columns)
    ensures "supplier" in NormalizeColumns(df.columns)
    ensures CleanInvoices(df, parseDate).value[k].name ==
      CanonicalName(df.rows[k][IndexOf(NormalizeColumns(df.columns), "supplier").value])
  {
    CleanInvoicesFields(df, parseDate, k);
    var norm := NormalizeColumns(df.columns);
    FirstRenamed(norm, "supplier", "name");
  }

  /** After renaming `src` to a name `dst` that was absent, the first `dst`
      is where the first `src` was. */
  lemma FirstRenamed(cols: seq<string>, src: string, dst: string)
    requires src in cols && dst !in cols
    ensures IndexOf(Rename(cols, src, dst), dst) == IndexOf(cols, src)
  {
    var r := Rename(cols, src, dst);
    var p := IndexOf(cols, src).value;
    assert r[p] == dst;
    assert dst !in r[..p] by {
      forall j | 0 <= j < p
        ensures r[j] != dst
      {
        assert cols[j] != src && cols[j] != dst by {
          assert cols[j] in cols[..p];
        }
      }
    }
    var q := IndexOf(r, dst).value;
    assert q <= p by {
      assert r[..p + 1][p] == dst;
    }
  }
}
