/** The bank-statement normaliser of Proycontable/scripts/etl_bank.py:
    `load_bank_statement` (single-column detection, delimiter choice, split
    into ten positional fields, strip of every string cell) and
    `clean_bank_df` (date parse, the `[^\d\.]` amount/balance filter and
    float parse, absolute amount, projection onto five columns). */
module BankEtl {
  import opened Text
  import opened Tables
  import opened Decimal

  /** The ten positional fields a single-column export is split into. */
  const SplitFields: seq<string> :=
    ["date", "DrCr", "amount", "balance", "mode", "name", "Day", "Month", "Year", "Tday"]

  /** What `load_bank_statement` raises on a single-column frame:
      `iloc[0, 0]` on no rows (IndexError), `"," in nan` (TypeError), no
      delimiter in the first cell (ValueError), and a column assignment whose
      length is not ten (ValueError). */
  datatype LoadError = NoRows | SampleNotText | NoDelimiter | FieldCountMismatch(width: nat)

  /** No string cell has leading or trailing whitespace. */
  predicate AllTrimmed(f: Frame) {
    forall k, j :: 0 <= k < |f.rows| && 0 <= j < |f.rows[k]| && f.rows[k][j].Str? ==> IsTrimmed(f.rows[k][j].s)
  }

  predicate SingleColumnRows(rows: seq<seq<Cell>>) {
    forall k :: 0 <= k < |rows| ==> |rows[k]| >= 1
  }

  /** `"," if "," in sample else ";" if ";" in sample else None`. */
  function DetectDelimiter(sample: string): (r: Option<char>)
    ensures r.Some? ==> r.value in sample && (r.value == ',' || r.value == ';')
    ensures r == Some(';') ==> ',' !in sample
    ensures r.None? <==> ',' !in sample && ';' !in sample
  {
    if ',' in sample then Some(',') else if ';' in sample then Some(';') else None
  }

  /** The number of columns `str.split(d, expand=True)` produces: the most
      pieces any string row splits into. */
  function Width(rows: seq<seq<Cell>>, d: char): (w: nat)
    requires SingleColumnRows(rows)
    ensures forall k :: 0 <= k < |rows| && rows[k][0].Str? ==> |Split(rows[k][0].s, d)| <= w
    ensures w == 0 || exists k :: 0 <= k < |rows| && rows[k][0].Str? && |Split(rows[k][0].s, d)| == w
    decreases |rows|
  {
    if rows == [] then 0
    else
      var rest := Width(rows[1..], d);
      var here := match rows[0][0] case Str(s) => |Split(s, d)| case Missing => 0;
      assert forall k :: 1 <= k < |rows| ==> rows[k] == rows[1..][k - 1];
      if here > rest then here else rest
  }

  /** One expanded and stripped row of `w` cells: the stripped pieces of a
      string, padded with missing cells; a missing cell expands to missing
      cells only. */
  function SplitCell(c: Cell, d: char, w: nat): (r: seq<Cell>)
    requires c.Str? ==> |Split(c.s, d)| <= w
    ensures |r| == w
    ensures c.Missing? ==> forall j :: 0 <= j < w ==> r[j] == Missing
    ensures c.Str? ==> forall j :: 0 <= j < w ==>
      r[j] == (if j < |Split(c.s, d)| then Str(Trim(Split(c.s, d)[j])) else Missing)
    ensures forall j :: 0 <= j < w ==> (r[j].Str? <==> c.Str? && j < |Split(c.s, d)|)
    ensures forall j :: 0 <= j < w && r[j].Str? ==> IsTrimmed(r[j].s)
    ensures c.Str? ==> Join(Split(c.s, d), d) == c.s && NoPieceHas(Split(c.s, d), d)
  {
    match c
    case Missing => seq(w, j => Missing)
    case Str(s) =>
      var pieces := Split(s, d);
      SplitJoin(s, d);
      SplitPiecesFree(s, d);
      seq(w, j requires 0 <= j < w => if j < |pieces| then TrimCell(Str(pieces[j])) else Missing)
  }

  /** Lines 36-41: split the single column on `d`, strip, and name the ten fields. */
  function SplitOn(raw: Frame, d: char): (r: Result<Frame, LoadError>)
    requires SingleColumnRows(raw.rows)
    ensures r.Err? <==> Width(raw.rows, d) != 10
    ensures r.Err? ==> r.error == FieldCountMismatch(Width(raw.rows, d))
    ensures r.Ok? ==> r.value.columns == SplitFields && r.value.WellShaped() && |r.value.rows| == |raw.rows|
    ensures r.Ok? ==> forall k :: 0 <= k < |raw.rows| ==> r.value.rows[k] == SplitCell(raw.rows[k][0], d, 10)
    ensures r.Ok? ==> AllTrimmed(r.value)
  {
    var w := Width(raw.rows, d);
    if w != |SplitFields| then Err(FieldCountMismatch(w))
    else
      var f := Frame(SplitFields, seq(|raw.rows|, k requires 0 <= k < |raw.rows| => SplitCell(raw.rows[k][0], d, 10)));
      assert AllTrimmed(f) by {
        forall k, j | 0 <= k < |f.rows| && 0 <= j < |f.rows[k]| && f.rows[k][j].Str?
          ensures IsTrimmed(f.rows[k][j].s)
        {
          var c := raw.rows[k][0];
          TrimSpec(Split(c.s, d)[j]);
        }
      }
      Ok(f)
  }

  /** `df.applymap(lambda x: x.strip() if isinstance(x, str) else x)`. */
  function TrimRows(rows: seq<seq<Cell>>): (r: seq<seq<Cell>>)
    ensures |r| == |rows|
    ensures forall k :: 0 <= k < |rows| ==> |r[k]| == |rows[k]|
    ensures forall k, j :: 0 <= k < |rows| && 0 <= j < |rows[k]| ==> r[k][j] == TrimCell(rows[k][j])
    ensures forall k, j :: 0 <= k < |rows| && 0 <= j < |rows[k]| ==>
      (r[k][j].Str? <==> rows[k][j].Str?) && (r[k][j].Str? ==> IsTrimmed(r[k][j].s))
  {
    seq(|rows|, k requires 0 <= k < |rows| =>
      seq(|rows[k]|, j requires 0 <= j < |rows[k]| => TrimCell(rows[k][j])))
  }

  /** Stripping the cells of stripped rows changes nothing. */
  lemma TrimRowsIdempotent(rows: seq<seq<Cell>>)
    ensures TrimRows(TrimRows(rows)) == TrimRows(rows)
  {
    var t := TrimRows(rows);
    forall k | 0 <= k < |rows|
      ensures TrimRows(t)[k] == t[k]
    {
      forall j | 0 <= j < |rows[k]|
        ensures TrimRows(t)[k][j] == t[k][j]
      {
        TrimCellIdempotent(rows[k][j]);
      }
    }
  }

  /** `load_bank_statement` after the file has been read (lines 28-47). */
  function Load(raw: Frame): (r: Result<Frame, LoadError>)
    requires raw.WellShaped()
    ensures r.Ok? ==> r.value.WellShaped() && |r.value.rows| == |raw.rows| && AllTrimmed(r.value)
    ensures |raw.columns| != 1 ==> r.Ok? && r.value.columns == raw.columns
    ensures |raw.columns| != 1 ==> forall k, j :: 0 <= k < |raw.rows| && 0 <= j < |raw.columns| ==>
      r.value.rows[k][j] == TrimCell(raw.rows[k][j])
    ensures |raw.columns| == 1 && r.Ok? ==> r.value.columns == SplitFields
    ensures |raw.columns| == 1 && raw.rows == [] ==> r == Err(NoRows)
  {
    if |raw.columns| == 1 then
      if raw.rows == [] then Err(NoRows)
      else
        match raw.rows[0][0]
        case Missing => Err(SampleNotText)
        case Str(sample) =>
          match DetectDelimiter(sample)
          case None => Err(NoDelimiter)
          case Some(d) => SplitOn(raw, d)
    else
      var f := raw.(rows := TrimRows(raw.rows));
      assert AllTrimmed(f);
      Ok(f)
  }

  predicate IsSingleColumnWithSample(raw: Frame, sample: string) {
    raw.WellShaped() && |raw.columns| == 1 && raw.rows != [] && raw.rows[0][0] == Str(sample)
  }

  /** A comma in the first cell decides for the comma, whatever else it holds. */
  lemma LoadPrefersComma(raw: Frame, sample: string)
    requires IsSingleColumnWithSample(raw, sample) && ',' in sample
    ensures Load(raw) == SplitOn(raw, ',')
  {
  }

  /** The semicolon is chosen only when the first cell has no comma. */
  lemma LoadFallsBackToSemicolon(raw: Frame, sample: string)
    requires IsSingleColumnWithSample(raw, sample) && ',' !in sample && ';' in sample
    ensures Load(raw) == SplitOn(raw, ';')
  {
  }

  /** Loading a single-column frame fails for want of a delimiter exactly
      when its first cell is a string holding neither ',' nor ';'. */
  lemma LoadNoDelimiter(raw: Frame)
    requires raw.WellShaped()
    ensures Load(raw) == Err(NoDelimiter) <==>
      |raw.columns| == 1 && raw.rows != [] && raw.rows[0][0].Str? &&
      ',' !in raw.rows[0][0].s && ';' !in raw.rows[0][0].s
  {
  }

  /** A loaded frame is a fixpoint of loading: stripping twice is stripping
      once, and a split frame has ten columns, so it is not split again. */
  lemma LoadIdempotent(raw: Frame)
    requires raw.WellShaped() && Load(raw).Ok?
    ensures Load(Load(raw).value) == Load(raw)
  {
    var f := Load(raw).value;
    assert |f.columns| != 1 by {
      if |raw.columns| == 1 {
        assert f.columns == SplitFields;
      }
    }
    var g := Load(f).value;
    assert g.rows == f.rows by {
      forall k | 0 <= k < |f.rows|
        ensures g.rows[k] == f.rows[k]
      {
        forall j | 0 <= j < |f.rows[k]|
          ensures g.rows[k][j] == f.rows[k][j]
        {
          if f.rows[k][j].Str? {
            TrimmedIsFixpoint(f.rows[k][j].s);
          }
        }
      }
    }
  }

  /** Each string row of a split frame is its loaded fields, unstripped, joined
      by the delimiter: nothing but surrounding whitespace is lost. */
  lemma SplitOnIsLossless(raw: Frame, d: char, k: nat)
    requires SingleColumnRows(raw.rows) && SplitOn(raw, d).Ok?
    requires k < |raw.rows| && raw.rows[k][0].Str?
    ensures var pieces := Split(raw.rows[k][0].s, d);
      |pieces| <= 10 && Join(pieces, d) == raw.rows[k][0].s && NoPieceHas(pieces, d) &&
      forall j :: 0 <= j < |pieces| ==> SplitOn(raw, d).value.rows[k][j] == Str(Trim(pieces[j]))
  {
    SplitJoin(raw.rows[k][0].s, d);
    SplitPiecesFree(raw.rows[k][0].s, d);
  }

  // ------------------------------------------------------ clean_bank_df

  /** A canonical bank record: exactly the columns date, amount, balance, mode, name. */
  datatype BankRecord = BankRecord(date: Option<int>, amount: real, balance: real, mode: Cell, name: Cell)

  /** The characters `[^\d\.]` does not remove. */
  predicate IsBankNumberChar(c: char) {
    IsDigit(c) || c == '.'
  }

  /** `.astype(str).str.replace(r"[^\d\.]", "", regex=True)` on one cell. */
  function BankNumberText(c: Cell): (r: string)
    ensures forall i :: 0 <= i < |r| ==> IsBankNumberChar(r[i])
  {
    NumberText(c, IsBankNumberChar)
  }

  /** The filter keeps exactly the digits and '.' of the cell's text, in
      their original order. */
  lemma BankNumberTextSpec(c: Cell)
    ensures IsSubsequence(BankNumberText(c), CellText(c))
    ensures forall x :: IsBankNumberChar(x) ==> multiset(BankNumberText(c))[x] == multiset(CellText(c))[x]
    ensures forall x :: !IsBankNumberChar(x) ==> x !in BankNumberText(c)
  {
    FilterIsSubsequence(CellText(c), IsBankNumberChar);
    FilterCounts(CellText(c), IsBankNumberChar);
  }

  /** The bank filter is idempotent. */
  lemma BankNumberTextIdempotent(c: Cell)
    ensures Filter(BankNumberText(c), IsBankNumberChar) == BankNumberText(c)
  {
    FilterIdempotent(CellText(c), IsBankNumberChar);
  }

  const BankColumns: seq<string> := ["date", "amount", "balance", "mode", "name"]

  /** `clean_bank_df` (lines 72-78) on the frame `load_bank_statement` returned. */
  function CleanBank(df: Frame, parseDate: string -> Option<int>): (r: Result<seq<BankRecord>, CleanError>)
    requires df.WellShaped()
    ensures r.Ok? ==> |r.value| == |df.rows| && forall x :: x in BankColumns ==> x in df.columns
    ensures r.Ok? ==> forall k :: 0 <= k < |r.value| ==> r.value[k].amount >= 0.0 && r.value[k].balance >= 0.0
  {
    match IndexOf(df.columns, "date")
    case None => Err(MissingColumns(["date"]))
    case Some(di) =>
      match IndexOf(df.columns, "amount")
      case None => Err(MissingColumns(["amount"]))
      case Some(ai) =>
        match ParseColumn(Column(df, ai), IsBankNumberChar)
        case Err(k) => Err(NotANumber("amount", k))
        case Ok(amounts) => CleanBankBalance(df, parseDate, di, amounts)
  }

  /** Lines 76-78, after the date and amount columns were found and the
      amounts parsed. */
  function CleanBankBalance(df: Frame, parseDate: string -> Option<int>, di: nat, amounts: seq<real>)
    : (r: Result<seq<BankRecord>, CleanError>)
    requires df.WellShaped() && di < |df.columns| && |amounts| == |df.rows|
    ensures r.Ok? ==> |r.value| == |df.rows| && "balance" in df.columns && "mode" in df.columns && "name" in df.columns
    ensures r.Ok? ==> forall k :: 0 <= k < |r.value| ==> r.value[k].amount >= 0.0 && r.value[k].balance >= 0.0
  {
    match IndexOf(df.columns, "balance")
    case None => Err(MissingColumns(["balance"]))
    case Some(bi) =>
      match ParseColumn(Column(df, bi), IsBankNumberChar)
      case Err(k) => Err(NotANumber("balance", k))
      case Ok(balances) =>
        match (IndexOf(df.columns, "mode"), IndexOf(df.columns, "name"))
        case (Some(mi), Some(ni)) => Ok(BankRecords(df, parseDate, di, amounts, balances, mi, ni))
        case _ => Err(MissingColumns(Absent(df.columns, BankColumns)))
  }

  /** Lines 77-78 once every column was found and parsed: one record per row. */
  function BankRecords(df: Frame, parseDate: string -> Option<int>, di: nat, amounts: seq<real>,
                       balances: seq<real>, mi: nat, ni: nat): (r: seq<BankRecord>)
    requires df.WellShaped() && di < |df.columns| && mi < |df.columns| && ni < |df.columns|
    requires |amounts| == |df.rows| && |balances| == |df.rows|
    ensures |r| == |df.rows|
    ensures forall k :: 0 <= k < |r| ==> r[k].amount >= 0.0 && r[k].balance == balances[k]
    ensures forall k :: 0 <= k < |r| ==> r[k].amount == amounts[k] || r[k].amount == -amounts[k]
    ensures forall k :: 0 <= k < |r| ==>
      r[k].date == DateOf(df.rows[k][di], parseDate) && r[k].mode == df.rows[k][mi] && r[k].name == df.rows[k][ni]
  {
    seq(|df.rows|, k requires 0 <= k < |df.rows| =>
      BankRecord(DateOf(df.rows[k][di], parseDate), Abs(amounts[k]), balances[k], df.rows[k][mi], df.rows[k][ni]))
  }

  /** Lines 74-78 raise `KeyError` for the first absent column among date,
      amount and balance, and for mode and name together; every name in the
      error is a wanted column the frame lacks. */
  lemma CleanBankErrors(df: Frame, parseDate: string -> Option<int>)
    requires df.WellShaped()
    ensures "date" !in df.columns ==> CleanBank(df, parseDate) == Err(MissingColumns(["date"]))
    ensures "date" in df.columns && "amount" !in df.columns ==> CleanBank(df, parseDate) == Err(MissingColumns(["amount"]))
    ensures var r := CleanBank(df, parseDate);
      r.Err? && r.error.MissingColumns? ==> forall x :: x in r.error.names ==> x in BankColumns && x !in df.columns
    ensures (exists x :: x in BankColumns && x !in df.columns) ==> CleanBank(df, parseDate).Err?
  {
  }

  /** Each cleaned record takes its date, amount, balance, mode and name from
      the first column of that name in its row: date parsed, amount and
      balance filtered and parsed (the amount as a magnitude), mode and name
      as loaded (the bank side does not upper-case names). */
  lemma CleanBankFields(df: Frame, parseDate: string -> Option<int>, k: nat)
    requires df.WellShaped() && CleanBank(df, parseDate).Ok? && k < |df.rows|
    ensures forall x :: x in BankColumns ==> IndexOf(df.columns, x).Some?
    ensures var rec := CleanBank(df, parseDate).value[k];
      var row := df.rows[k];
      && rec.date == DateOf(row[IndexOf(df.columns, "date").value], parseDate)
      && ParseFloat(BankNumberText(row[IndexOf(df.columns, "amount").value])) == Some(rec.amount)
      && ParseFloat(BankNumberText(row[IndexOf(df.columns, "balance").value])) == Some(rec.balance)
      && rec.mode == row[IndexOf(df.columns, "mode").value]
      && rec.name == row[IndexOf(df.columns, "name").value]
  {
    var di := IndexOf(df.columns, "date").value;
    var ai := IndexOf(df.columns, "amount").value;
    var bi := IndexOf(df.columns, "balance").value;
    var mi := IndexOf(df.columns, "mode").value;
    var ni := IndexOf(df.columns, "name").value;
    CleanBankValue(df, parseDate);
    BankRecordFields(df, parseDate, di, ai, bi, mi, ni, k);
  }

  lemma BankRecordFields(df: Frame, parseDate: string -> Option<int>, di: nat, ai: nat, bi: nat, mi: nat, ni: nat, k: nat)
    requires df.WellShaped() && di < |df.columns| && ai < |df.columns| && bi < |df.columns|
    requires mi < |df.columns| && ni < |df.columns| && k < |df.rows|
    requires ParseColumn(Column(df, ai), IsBankNumberChar).Ok? && ParseColumn(Column(df, bi), IsBankNumberChar).Ok?
    ensures var rec := BankRecords(df, parseDate, di, ParseColumn(Column(df, ai), IsBankNumberChar).value,
                                   ParseColumn(Column(df, bi), IsBankNumberChar).value, mi, ni)[k];
      var row := df.rows[k];
      && rec.date == DateOf(row[di], parseDate)
      && ParseFloat(BankNumberText(row[ai])) == Some(rec.amount)
      && ParseFloat(BankNumberText(row[bi])) == Some(rec.balance)
      && rec.mode == row[mi] && rec.name == row[ni]
  {
    assert Column(df, ai)[k] == df.rows[k][ai];
    assert Column(df, bi)[k] == df.rows[k][bi];
  }

  /** A successful clean is the record construction on the first columns
      named date, amount, balance, mode and name. */
  lemma CleanBankValue(df: Frame, parseDate: string -> Option<int>)
    requires df.WellShaped() && CleanBank(df, parseDate).Ok?
    ensures forall x :: x in BankColumns ==> IndexOf(df.columns, x).Some?
    ensures ParseColumn(Column(df, IndexOf(df.columns, "amount").value), IsBankNumberChar).Ok?
    ensures ParseColumn(Column(df, IndexOf(df.columns, "balance").value), IsBankNumberChar).Ok?
    ensures CleanBank(df, parseDate).value ==
      BankRecords(df, parseDate, IndexOf(df.columns, "date").value,
                  ParseColumn(Column(df, IndexOf(df.columns, "amount").value), IsBankNumberChar).value,
                  ParseColumn(Column(df, IndexOf(df.columns, "balance").value), IsBankNumberChar).value,
                  IndexOf(df.columns, "mode").value, IndexOf(df.columns, "name").value)
  {
  }

  /** An amount cell without a digit cannot become a number, so cleaning
      fails instead of defaulting it to zero. */
  lemma AmountWithoutDigitsFails(df: Frame, parseDate: string -> Option<int>, k: nat)
    requires df.WellShaped() && "date" in df.columns && "amount" in df.columns && k < |df.rows|
    requires forall i :: 0 <= i < |CellText(df.rows[k][IndexOf(df.columns, "amount").value])| ==>
      !IsDigit(CellText(df.rows[k][IndexOf(df.columns, "amount").value])[i])
    ensures CleanBank(df, parseDate).Err?
  {
    var ai := IndexOf(df.columns, "amount").value;
    NoDigitCellFails(df.rows[k][ai]);
    assert Column(df, ai)[k] == df.rows[k][ai];
    assert ParseColumn(Column(df, ai), IsBankNumberChar).Err?;
  }

  /** A cell whose text has no digit filters to a string with no digit,
      which is not a number. */
  lemma NoDigitCellFails(c: Cell)
    requires forall i :: 0 <= i < |CellText(c)| ==> !IsDigit(CellText(c)[i])
    ensures ParseFloat(BankNumberText(c)) == None
  {
    var src, t := CellText(c), BankNumberText(c);
    BankNumberTextSpec(c);
    assert forall x :: IsDigit(x) ==> x !in multiset(src);
    assert forall i :: 0 <= i < |t| ==> !IsDigit(t[i]) by {
      forall i | 0 <= i < |t|
        ensures !IsDigit(t[i])
      {
        assert t[i] in multiset(t);
      }
    }
    NoDigitNoNumber(t);
  }
}
