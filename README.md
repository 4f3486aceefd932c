# Proycontable bank reconciliation, modelled in Dafny

Proycontable reconciles a bank statement against a ledger of invoices in
three steps.

1. `etl_bank.py` loads a raw statement and normalises it.
   - A one-column export is split on the delimiter found in its first cell
     (a comma, else a semicolon) into ten named fields.
   - Every string cell is stripped.
   - `clean_bank_df` parses the dates and reduces `amount` and `balance` to
     the digits and '.' they contain before parsing them as numbers.
   - The amount is made absolute.
   - The frame is projected onto `date, amount, balance, mode, name`.
2. `etl_invoices.py` normalises an invoice ledger.
   - Column names are stripped and lower-cased; `client` (or, without it,
     `supplier`) becomes `name`.
   - Amounts are filtered to digits, '.' and '-', parsed and made absolute.
   - Names are stripped and upper-cased; `method` becomes `mode`.
   - The frame is projected onto `date, amount, mode, name`.
3. `reconciliation.py` runs a greedy one-pass matcher.
   - Names on both sides are upper-cased and stripped, and every row gets a
     `conciliado` flag set to false.
   - For each bank row, in load order, the first still-unflagged invoice with
     the same amount, the same name and a date at most three days away
     (inclusive) is taken: both rows are flagged and a match is recorded.
   - The unflagged rows of each side are the unmatched partitions.

The project has six modules:

| module | file | role |
|---|---|---|
| `Text` | `text.dfy` | ASCII strip, upper/lower, the regex character filter, `str.split`/`str.join` |
| `Tables` | `tables.dfy` | frames of string-or-missing cells, column lookup, the error type of the cleaners |
| `Decimal` | `decimal.dfy` | `float(s)` on filtered numeric text, as exact decimals |
| `BankEtl` | `bank_etl.dfy` | `load_bank_statement` and `clean_bank_df` |
| `InvoiceEtl` | `invoice_etl.dfy` | `clean_invoices` |
| `Reconciliation` | `reconciliation.dfy` | the matcher |

The matcher has two forms:

- a specification on values: `Initial`, `Visit`, `Pass`, `Reconcile`;
- the class `Reconciler`, which updates two arrays of records in place and
  appends to its list of matches, with one method per part of the loop.

The specification's properties are proved through one inductive invariant,
`Inv`. The class's methods are proved to follow the specification step by
step.
`Reconciler.Run` ends in `Pass(start, |start.bank|)`, where `start` is a ghost
constant that only the constructor sets. The constructor makes `start` equal to
`Initial(bankRows, invoiceRows)`, so the final state is
`Reconcile(bankRows, invoiceRows)`.

Some consequences of the code that the model makes explicit:

- **Negative bank balances lose their sign.** The bank filter `[^\d\.]`
  removes '-', so a balance of "-120.50" is read as 120.5. `CleanBank`
  proves that every cleaned balance is non-negative.
- **Decimal commas are misread.** A bank amount written "1.234,56" filters to
  "1.23456" and is read as 1.23456.
- **Missing names become "NAN".** A missing name prints as "nan" and becomes
  the name "NAN" on both sides, so two missing names can match
  (`Reconciliation.MissingNameIsNan`).
- **A missing or digit-free amount is an error.** It filters to text with no
  digit, so `astype(float)` raises instead of giving zero
  (`BankEtl.AmountWithoutDigitsFails`).
- **Only the matcher canonicalises bank names.** The bank normaliser leaves
  names as loaded. The matcher's `upper().strip()` equals the invoice side's
  `strip().upper()` (`Reconciliation.Canonical`).
- **The delimiter is read from `iloc[0, 0]` only**, not from the first
  non-empty cell. A missing first cell raises (`SampleNotText`), and an empty
  one has no delimiter (`NoDelimiter`).

## Model

| member | source | states |
|---|---|---|
| Text.TrimSpec | Proycontable/scripts/etl_bank.py:37 | `strip()` removes a run of whitespace from each end and nothing else, and leaves no whitespace at either end |
| Text.Split | Proycontable/scripts/etl_bank.py:36 | `split(d)` always gives at least one piece; what the pieces are is stated by `SplitJoin`, `SplitPiecesFree`, `SplitCount` and `JoinSplit` |
| Text.TrimIdempotent | Proycontable/scripts/etl_bank.py:45 | stripping twice is stripping once |
| Text.Upper | Proycontable/scripts/etl_invoices.py:38 | `upper()` keeps the length, maps every a..z to A..Z, keeps every other character, and leaves no lower-case letter |
| Text.Lower | Proycontable/scripts/etl_invoices.py:21 | `lower()` keeps the length, maps every A..Z to a..z, keeps every other character, and leaves no upper-case letter |
| Text.UpperTrimCommute | Proycontable/scripts/reconciliation.py:9-10 | `upper().strip()` equals `strip().upper()` |
| Text.Filter | Proycontable/scripts/etl_bank.py:60 | the regex deletion keeps only accepted characters and never lengthens the text |
| Text.FilterCounts | Proycontable/scripts/etl_bank.py:60 | every occurrence of an accepted character survives, and no other character does |
| Text.FilterIsSubsequence | Proycontable/scripts/etl_bank.py:60 | the filtered text is the input with characters deleted, order kept |
| Text.FilterIdempotent | Proycontable/scripts/etl_bank.py:66 | filtering again changes nothing |
| Text.SplitJoin | Proycontable/scripts/etl_bank.py:36 | joining the pieces of `split(d)` with `d` restores the text |
| Text.SplitPiecesFree | Proycontable/scripts/etl_bank.py:36 | no piece of `split(d)` contains `d` |
| Text.SplitCount | Proycontable/scripts/etl_bank.py:36 | `split(d)` has one piece more than there are occurrences of `d` |
| Text.JoinSplit | Proycontable/scripts/etl_bank.py:36 | splitting a join of separator-free pieces gives the pieces back |
| Tables.TrimCell | Proycontable/scripts/etl_bank.py:37 | the strip lambda keeps missing cells missing and strips string cells |
| Tables.TrimCellIdempotent | Proycontable/scripts/etl_bank.py:45 | applying the strip lambda twice is applying it once |
| Tables.CellText | Proycontable/scripts/etl_bank.py:59 | `astype(str)` keeps a string as it is and prints a missing value as "nan", a word of letters only (no digit, so a missing amount cannot parse) |
| Tables.DateOf | Proycontable/scripts/etl_bank.py:51 | `to_datetime(errors="coerce")` makes a missing cell NaT and parses a string cell with the given calendar parser |
| Tables.Absent | Proycontable/scripts/etl_bank.py:78 | the columns named in a projection's `KeyError` are exactly the wanted ones the frame lacks |
| Decimal.Abs | Proycontable/scripts/etl_bank.py:77 | `abs()` is non-negative and is the value or its negation |
| Decimal.ParseFloat | Proycontable/scripts/etl_bank.py:61 | a text that `float` accepts holds a digit and only digits, '.' and a leading '-', and is negative only when it starts with '-' |
| Decimal.ParseColumn | Proycontable/scripts/etl_bank.py:57-62 | `astype(float)` on a filtered column either parses every row (one value per row, each the row's parse, none negative when '-' was filtered out) or fails at the first row that does not parse |
| Decimal.ParseFloatNat | Proycontable/scripts/etl_bank.py:61 | `float` reads back the decimal text of a whole number, with or without a leading '-' |
| Decimal.ParseFloatCents | Proycontable/scripts/etl_bank.py:61 | `float` reads "n.cc" as n plus cc hundredths |
| Decimal.ParseWithoutMinusNonNegative | Proycontable/scripts/etl_bank.py:60-61 | text without '-' never parses to a negative value |
| Decimal.NoDigitNoNumber | Proycontable/scripts/etl_bank.py:61 | text without a digit ("", ".", "-", "-.") is not a number |
| BankEtl.Width | Proycontable/scripts/etl_bank.py:36 | the width of `str.split(expand=True)` is the largest piece count of any string row, reached by some row |
| BankEtl.DetectDelimiter | Proycontable/scripts/etl_bank.py:33 | the chosen delimiter is ',' or ';' and occurs in the sample; ';' is chosen only without a comma; there is none exactly when the sample has neither |
| BankEtl.SplitCell | Proycontable/scripts/etl_bank.py:36-37 | an expanded row has `w` cells; a cell is a string exactly when the source cell is a string with that many pieces, and every string cell is stripped; the pieces hold no delimiter and join back to the source cell; a missing cell expands to missing cells only |
| BankEtl.SplitOn | Proycontable/scripts/etl_bank.py:36-41 | the split fails exactly when the width is not ten; otherwise it names the ten fields, keeps the row count, and every row is the split of its cell |
| BankEtl.TrimRows | Proycontable/scripts/etl_bank.py:45 | `applymap` keeps the shape, keeps missing cells missing and string cells strings, and leaves every string stripped |
| BankEtl.TrimRowsIdempotent | Proycontable/scripts/etl_bank.py:45 | stripping the cells of stripped rows changes nothing |
| BankEtl.Load | Proycontable/scripts/etl_bank.py:28-47 | a loaded frame is rectangular, keeps the row count and has every string stripped; a multi-column frame keeps its columns with every cell stripped; a split frame has the ten names; a one-column frame without rows fails |
| BankEtl.LoadPrefersComma | Proycontable/scripts/etl_bank.py:33 | a comma in the first cell means splitting on commas, whatever else the cell holds |
| BankEtl.LoadFallsBackToSemicolon | Proycontable/scripts/etl_bank.py:33 | without a comma, a semicolon in the first cell means splitting on semicolons |
| BankEtl.LoadNoDelimiter | Proycontable/scripts/etl_bank.py:31-35 | the delimiter error is raised exactly for a one-column frame whose first cell is a string with neither ',' nor ';' |
| BankEtl.LoadIdempotent | Proycontable/scripts/etl_bank.py:28-47 | loading a loaded frame again changes nothing |
| BankEtl.SplitOnIsLossless | Proycontable/scripts/etl_bank.py:36-37 | each split row's loaded fields are its pieces stripped, and the pieces join back to the original cell |
| BankEtl.BankNumberText | Proycontable/scripts/etl_bank.py:60 | the `[^\d\.]` filter leaves only digits and '.' |
| BankEtl.BankNumberTextSpec | Proycontable/scripts/etl_bank.py:60 | the filter keeps every ASCII digit and '.' of the cell's text, in order, and nothing else |
| BankEtl.BankNumberTextIdempotent | Proycontable/scripts/etl_bank.py:66 | filtering the filtered text again changes nothing |
| BankEtl.CleanBank | Proycontable/scripts/etl_bank.py:72-78 | a successful clean has one record per row, needs all five columns, and has non-negative amounts and balances |
| BankEtl.CleanBankBalance | Proycontable/scripts/etl_bank.py:63-78 | after the amounts, success needs balance, mode and name columns, and gives one record per row with non-negative amounts and balances |
| BankEtl.BankRecords | Proycontable/scripts/etl_bank.py:77-78 | one record per row: the date parsed from the date column, the magnitude of the amount (non-negative, and the parsed amount or its negation), the parsed balance, and the mode and name cells of their columns |
| BankEtl.CleanBankErrors | Proycontable/scripts/etl_bank.py:72-78 | a missing date is reported first, then a missing amount; every reported name is a wanted column the frame lacks; any missing wanted column makes the clean fail |
| BankEtl.CleanBankFields | Proycontable/scripts/etl_bank.py:72-78 | each record's fields come from the first column of each name in its row: the date parsed, amount and balance filtered and parsed, mode and name unchanged |
| BankEtl.CleanBankValue | Proycontable/scripts/etl_bank.py:72-78 | a successful clean is the record construction over the first columns of the five names |
| BankEtl.AmountWithoutDigitsFails | Proycontable/scripts/etl_bank.py:56-62 | one amount cell without a digit makes the whole clean fail |
| BankEtl.NoDigitCellFails | Proycontable/scripts/etl_bank.py:57-61 | a cell without a digit does not parse after the bank filter |
| InvoiceEtl.ColumnKey | Proycontable/scripts/etl_invoices.py:21 | a normalised column name is stripped and has no upper-case letter |
| InvoiceEtl.NormalizeColumns | Proycontable/scripts/etl_invoices.py:21 | every column is renamed to its key, and the count is kept |
| InvoiceEtl.ColumnKeyIdempotent | Proycontable/scripts/etl_invoices.py:21 | a normalised name is its own key |
| InvoiceEtl.NormalizeColumnsIdempotent | Proycontable/scripts/etl_invoices.py:21 | normalising the columns twice is normalising once |
| InvoiceEtl.Rename | Proycontable/scripts/etl_invoices.py:25 | after `rename`, no column is called `src` (when `dst` differs), a `dst` column exists exactly when a `src` or `dst` column did, and every other name is present exactly when it was |
| InvoiceEtl.RenameParty | Proycontable/scripts/etl_invoices.py:24-27 | the party rename keeps the column count |
| InvoiceEtl.PartyPrecedence | Proycontable/scripts/etl_invoices.py:24-27 | `client` wins over `supplier`, which is renamed only without `client`; no other column changes; a `name` column exists afterwards exactly when one of name, client or supplier existed |
| InvoiceEtl.RenameMethod | Proycontable/scripts/etl_invoices.py:40-41 | only columns called `method` change |
| InvoiceEtl.MethodBecomesMode | Proycontable/scripts/etl_invoices.py:40-41 | with `method`, it is gone and `mode` is present; without it nothing changes; `mode` exists afterwards exactly when mode or method existed |
| InvoiceEtl.InvoiceNumberTextSpec | Proycontable/scripts/etl_invoices.py:30-33 | the `[^\d\.-]` filter keeps every ASCII digit, '.' and '-' in order and nothing else, and filtering again changes nothing |
| InvoiceEtl.CanonicalText | Proycontable/scripts/etl_invoices.py:38 | `strip().upper()` is stripped, has no lower-case letter and is never longer |
| InvoiceEtl.CanonicalName | Proycontable/scripts/etl_invoices.py:38 | a cleaned invoice name is stripped and has no lower-case letter |
| InvoiceEtl.CanonicalTextFixpoint | Proycontable/scripts/etl_invoices.py:38 | a stripped name without lower-case letters is left as it is |
| InvoiceEtl.CanonicalTextIdempotent | Proycontable/scripts/etl_invoices.py:38 | canonicalising twice is canonicalising once |
| InvoiceEtl.CleanInvoices | Proycontable/scripts/etl_invoices.py:15-44 | success gives one record per row with non-negative amounts and canonical names, and needs date, amount, name and mode columns after renaming; a missing date is the first error |
| InvoiceEtl.InvoiceRecords | Proycontable/scripts/etl_invoices.py:29-44 | one record per row, with a non-negative amount and a canonical name |
| InvoiceEtl.CleanInvoicesFields | Proycontable/scripts/etl_invoices.py:15-44 | each record's fields come from the first column of each renamed name in its row: the date parsed, the amount the magnitude of the filtered parse, the name canonical, the mode unchanged |
| InvoiceEtl.ClientBecomesName | Proycontable/scripts/etl_invoices.py:24-25 | with `client` and no `name` column, the names come from the first `client` column, even beside a `supplier` column |
| InvoiceEtl.SupplierBecomesName | Proycontable/scripts/etl_invoices.py:26-27 | without `client` or `name`, a clean succeeds only with a `supplier` column, and the names come from it |
| InvoiceEtl.FirstRenamed | Proycontable/scripts/etl_invoices.py:24-27 | after renaming into an absent name, the first renamed column is where the first source column was |
| Reconciliation.Canonical | Proycontable/scripts/reconciliation.py:9-10 | the matcher's `upper().strip()` name equals the invoice normaliser's `strip().upper()` name, and is stripped with no lower-case letter |
| Reconciliation.CanonicalKeepsCleanNames | Proycontable/scripts/reconciliation.py:10 | re-canonicalising an already cleaned invoice name changes nothing |
| Reconciliation.MissingNameIsNan | Proycontable/scripts/reconciliation.py:9-10 | a missing name becomes "NAN", so missing names on the two sides compare equal |
| Reconciliation.PrepareSpec | Proycontable/scripts/reconciliation.py:9-14 | a prepared row is unflagged, has the invoice normaliser's canonical name, and keeps its date, amount and other columns |
| Reconciliation.WindowBounds | Proycontable/scripts/reconciliation.py:24-25 | `between(d - 3 days, d + 3 days)` holds exactly when the day difference is between -3 and 3, is the same seen from either side, and fails whenever a date is NaT |
| Reconciliation.FirstCandidate | Proycontable/scripts/reconciliation.py:20-28 | `posibles.index[0]` is a candidate with no candidate before it; when there is none, no invoice is a candidate |
| Reconciliation.Initial | Proycontable/scripts/reconciliation.py:9-16 | the initial state keeps both row counts, has no match and has every flag false |
| Reconciliation.VisitFrame | Proycontable/scripts/reconciliation.py:20-36 | one iteration changes only its bank row and at most one invoice, which was a free candidate and is now flagged; no flag is cleared; it appends at most one match and keeps the earlier ones |
| Reconciliation.PassGrows | Proycontable/scripts/reconciliation.py:19-36 | after the first `n` iterations the later bank rows are untouched, no flag was cleared, and at most `n` matches were appended to the earlier ones |
| Reconciliation.Reconcile | Proycontable/scripts/reconciliation.py:9-36 | the state after the pass has one record per row on each side; what holds of it is stated by `ReconcileInv` and the lemmas after it |
| Reconciliation.UnreconciledMembers | Proycontable/scripts/reconciliation.py:40-41 | a record is in the unmatched partition exactly when it is one of the records and its flag is clear |
| Reconciliation.UnreconciledKeepsOrder | Proycontable/scripts/reconciliation.py:40-41 | the unmatched partition keeps the records in their original order |
| Reconciliation.Count | Proycontable/scripts/reconciliation.py:45-46 | the flagged count plus the size of the unflagged partition that lines 45-46 print is the number of records |
| Reconciliation.CountIsFlaggedPositions | Proycontable/scripts/reconciliation.py:29-30 | the count is the number of positions whose flag is set |
| Reconciliation.ReconcileInv | Proycontable/scripts/reconciliation.py:19-36 | the whole pass ends in a state that satisfies the loop invariant |
| Reconciliation.MatchesQualify | Proycontable/scripts/reconciliation.py:19-36 | every match pairs rows with equal amounts, equal canonical names and valid dates at most three days apart, and records the bank date, invoice date, bank name and bank amount |
| Reconciliation.InvalidDateNeverMatches | Proycontable/scripts/reconciliation.py:24-25 | a row with an invalid date, on either side, is never flagged, and every match has two valid dates |
| Reconciliation.OneToOne | Proycontable/scripts/reconciliation.py:19-36 | bank rows are paired at most once, in visiting order; invoices are paired at most once; a record is flagged exactly when it is paired |
| Reconciliation.FirstEligibleChosen | Proycontable/scripts/reconciliation.py:27-28 | each match takes an invoice that was still free, and every qualifying invoice before it was already taken by an earlier match |
| Reconciliation.NoRetryLater | Proycontable/scripts/reconciliation.py:19-27 | an unmatched bank row found every qualifying invoice already taken by an earlier bank row |
| Reconciliation.MatchCounts | Proycontable/scripts/reconciliation.py:39-46 | there are as many matches as flagged bank rows and as flagged invoices, and matched plus unmatched counts give each side's total |
| Reconciliation.FieldsPreserved | Proycontable/scripts/reconciliation.py:9-36 | apart from the flag, every record is its prepared row: nothing else changes and nothing moves |
| Reconciliation.OnePairWindow | Proycontable/scripts/reconciliation.py:24-25 | one bank row and one invoice with equal amount and name match exactly when their dates are at most three days apart (D+3 matches, D+4 does not) |
| Reconciliation.EarlierInvoiceWins | Proycontable/scripts/reconciliation.py:28 | when the first of two invoices qualifies for the only bank row (equal amount and canonical name, dates at most three days apart), it is the one taken, and the second stays unmatched even when it qualifies just as well |
| Reconciliation.Reconciler.constructor | Proycontable/scripts/reconciliation.py:9-16 | the arrays hold the prepared rows with every flag false, and there is no match, which is the state `Initial` describes |
| Reconciliation.Reconciler.Run | Proycontable/scripts/reconciliation.py:19-36 | visiting every bank row in place leaves the arrays and match list in the state `Pass` gives after the last row, which is `Reconcile` of the rows |
| Reconciliation.Reconciler.VisitRow | Proycontable/scripts/reconciliation.py:20-36 | one loop iteration in place is one `Visit` of the state |
| Reconciliation.Reconciler.Take | Proycontable/scripts/reconciliation.py:29-36 | flags bank row `i` and invoice `j`, appends their match, and changes nothing else |
| Reconciliation.Reconciler.UnmatchedBank | Proycontable/scripts/reconciliation.py:40 | the exported bank rows are exactly the unflagged ones, in order, and there are as many of them as the bank rows minus the flagged ones |
| Reconciliation.Reconciler.UnmatchedInvoices | Proycontable/scripts/reconciliation.py:41 | the exported invoices are exactly the unflagged ones, in order, and there are as many of them as the invoices minus the flagged ones |

## Left out

- File input and output are not modelled: `_read_csv`, `_read_excel`, `load_invoices`, the `read_csv` calls of reconciliation.py lines 5-6, every `to_csv`, and the `print` calls. The loaders start from the frame that was read, and the matcher starts from the rows it read back. The messages are not part of any contract.
- The `__main__` blocks (etl_bank.py lines 81-94, etl_invoices.py lines 47-64) are not modelled because they are command-line drivers. Lines 96-98 of etl_bank.py run outside that block and use an undefined `clean_df` on import; that I/O is also left out.
- Date parsing (`pd.to_datetime(errors="coerce")`, and `parse_dates` on reading back) is the parameter `parseDate`. A date is a whole day number, or `None` for NaT. Times of day are not modelled.
- Floating point is not modelled: amounts are exact decimals (`real`), and equality of amounts is exact. The CSV round trip between the normalisers and the matcher is not modelled either.
- Strip and case mapping cover ASCII whitespace and letters only; Unicode whitespace and case mapping are not modelled.
- Duplicate column names: `df["col"]` on a frame with repeated names returns several columns in pandas. The model takes the first column of that name.
- Unicode digits: in Python's `re`, `\d` matches every Unicode decimal digit, and `float` accepts such digits. `Text.IsDigit` accepts only '0'..'9'. So the filters of etl_bank.py lines 60 and 66 and etl_invoices.py line 33, and `Decimal.ParseFloat`, are modelled on ASCII digits only: a cell such as "１５０" parses in Python but fails in the model.
- Date parsing is modelled per cell: `Tables.DateOf` applies `parseDate` to each cell on its own. pandas `to_datetime` may infer one format for the whole column from its first non-missing value, and that column-wide inference is not modelled.
- Ragged splits: pandas pads a short split row with `None` and a missing cell with NaN. The model treats both as missing cells, and detail beyond that is not modelled.
- The exact text and type of the raised exceptions are not modelled, only which one is raised: `LoadError` and `CleanError`.
