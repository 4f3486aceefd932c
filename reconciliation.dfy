/** The greedy matcher of Proycontable/scripts/reconciliation.py (lines 9-41).
    Names on both sides are upper-cased and stripped and every record gets a
    `conciliado` (here `reconciled`) flag set to false. The bank rows are then
    visited in load order. For each one the first invoice that is still
    unflagged and has the same amount, the same name and a date at most three
    days away is taken: both records are flagged and a match record is
    appended. Afterwards the unflagged rows of each side are the unmatched
    partitions.

    The pass is specified as a function on values (`Visit`, `Pass`,
    `Reconcile`), whose properties are proved through the inductive invariant
    `Inv`. The class `Reconciler` runs it in place over two arrays and is
    proved to end in the state `Reconcile` describes. */
module Reconciliation {
  import opened Text
  import opened Tables
  import InvoiceEtl

  // ---------------------------------------------------------------- records

  /** A row of bank_clean.csv or invoices_clean.csv as read back: the parsed
      date (None for NaT), the amount, the name cell, and the other columns,
      which the matcher carries along untouched. */
  datatype Row = Row(date: Option<int>, amount: real, name: Cell, rest: seq<Cell>)

  /** A row after lines 9-14: canonical name and the `conciliado` flag. */
  datatype Record = Record(date: Option<int>, amount: real, name: string, rest: seq<Cell>, reconciled: bool)

  /** `.astype(str).str.upper().str.strip()`. It is the canonical name the
      invoice normaliser gives (there stripped first and upper-cased second):
      trimmed, with no lower-case letter. */
  function Canonical(c: Cell): (r: string)
    ensures r == InvoiceEtl.CanonicalName(c)
    ensures IsTrimmed(r) && NoLowerLetter(r)
  {
    UpperTrimCommute(CellText(c));
    Trim(Upper(CellText(c)))
  }

  /** A name the invoice normaliser already canonicalised is left as it is. */
  lemma CanonicalKeepsCleanNames(s: string)
    ensures Canonical(Str(InvoiceEtl.CanonicalText(s))) == InvoiceEtl.CanonicalText(s)
  {
    InvoiceEtl.CanonicalTextIdempotent(s);
  }

  /** A missing name reads as "nan" and becomes "NAN", so missing names on
      the two sides compare equal. */
  lemma MissingNameIsNan()
    ensures Canonical(Missing) == "NAN"
  {
    assert Upper("nan") == "NAN";
    TrimmedIsFixpoint("NAN");
  }

  /** Lines 9-14 on one row: canonical name, flag cleared, every other field
      kept. */
  function Prepare(row: Row): Record {
    Record(row.date, row.amount, Canonical(row.name), row.rest, false)
  }

  /** A prepared row is unflagged, carries the invoice normaliser's canonical
      name, and keeps its date, amount and other columns. */
  lemma PrepareSpec(row: Row)
    ensures var r := Prepare(row);
      && !r.reconciled && r.date == row.date && r.amount == row.amount && r.rest == row.rest
      && r.name == InvoiceEtl.CanonicalName(row.name) && IsTrimmed(r.name) && NoLowerLetter(r.name)
  {
  }

  // ------------------------------------------------------------- the rule

  /** `inv_date.between(bank_date - 3 days, bank_date + 3 days)`: inclusive
      on both ends, and false whenever either date is NaT. */
  predicate InWindow(bankDate: Option<int>, invoiceDate: Option<int>) {
    bankDate.Some? && invoiceDate.Some? &&
    bankDate.value - 3 <= invoiceDate.value <= bankDate.value + 3
  }

  /** The window is inclusive at both ends, the same seen from either side,
      and shut whenever a date is NaT. */
  lemma WindowBounds(d: int, delta: int)
    ensures InWindow(Some(d), Some(d + delta)) <==> -3 <= delta <= 3
    ensures InWindow(Some(d), Some(d + delta)) <==> InWindow(Some(d + delta), Some(d))
    ensures forall x :: !InWindow(None, x) && !InWindow(x, None)
  {
  }

  /** Lines 22-25 without the flag: same amount, same name, dates in the window. */
  predicate Qualifies(b: Record, i: Record) {
    i.amount == b.amount && i.name == b.name && InWindow(b.date, i.date)
  }

  /** The whole mask of lines 20-26. */
  predicate Candidate(b: Record, i: Record) {
    !i.reconciled && Qualifies(b, i)
  }

  /** `posibles.index[0]`, if `posibles` is not empty: the lowest position
      holding a candidate for `b`. */
  function FirstCandidate(b: Record, invoices: seq<Record>): (r: Option<nat>)
    ensures r.Some? ==> r.value < |invoices| && Candidate(b, invoices[r.value])
    ensures r.Some? ==> forall j :: 0 <= j < r.value ==> !Candidate(b, invoices[j])
    ensures r.None? ==> forall j :: 0 <= j < |invoices| ==> !Candidate(b, invoices[j])
    decreases |invoices|
  {
    if invoices == [] then None
    else if Candidate(b, invoices[0]) then Some(0)
    else
      match FirstCandidate(b, invoices[1..])
      case None => None
      case Some(k) => Some(k + 1)
  }

  /** The dictionary appended at lines 31-36: bank date, invoice date, bank
      name, bank amount. */
  datatype Match = Match(bankDate: Option<int>, invoiceDate: Option<int>, name: string, amount: real)

  function MatchOf(b: Record, i: Record): Match {
    Match(b.date, i.date, b.name, b.amount)
  }

  // ------------------------------------------------------------- the pass

  /** Which bank row was paired with which invoice (positions); the source
      keeps no such list, it is the proof's record of the pass. */
  datatype Pair = Pair(bank: nat, invoice: nat)

  datatype State = State(bank: seq<Record>, invoices: seq<Record>, matches: seq<Match>, pairs: seq<Pair>)

  /** Lines 9-16: canonical names, every flag false, no match yet. */
  function Initial(bankRows: seq<Row>, invoiceRows: seq<Row>): (st: State)
    ensures |st.bank| == |bankRows| && |st.invoices| == |invoiceRows|
    ensures st.matches == [] && st.pairs == []
    ensures forall x :: 0 <= x < |st.bank| ==> !st.bank[x].reconciled
    ensures forall x :: 0 <= x < |st.invoices| ==> !st.invoices[x].reconciled
  {
    State(seq(|bankRows|, x requires 0 <= x < |bankRows| => Prepare(bankRows[x])),
          seq(|invoiceRows|, x requires 0 <= x < |invoiceRows| => Prepare(invoiceRows[x])),
          [], [])
  }

  /** One iteration of the loop of lines 19-36, for bank row `b`. */
  function Visit(st: State, b: nat): (r: State)
    requires b < |st.bank|
    ensures |r.bank| == |st.bank| && |r.invoices| == |st.invoices|
  {
    match FirstCandidate(st.bank[b], st.invoices)
    case None => st
    case Some(j) =>
      State(st.bank[b := st.bank[b].(reconciled := true)],
            st.invoices[j := st.invoices[j].(reconciled := true)],
            st.matches + [MatchOf(st.bank[b], st.invoices[j])],
            st.pairs + [Pair(b, j)])
  }

  /** The state after the first `n` bank rows were visited. */
  function Pass(st: State, n: nat): (r: State)
    requires n <= |st.bank|
    ensures |r.bank| == |st.bank| && |r.invoices| == |st.invoices|
    decreases n
  {
    if n == 0 then st else Visit(Pass(st, n - 1), n - 1)
  }

  /** One visit changes only bank row `b` and at most one invoice, which was
      a free candidate for `b` and is now flagged; no flag is cleared; at
      most one match is appended and the earlier ones are kept. */
  lemma VisitFrame(st: State, b: nat)
    requires b < |st.bank|
    ensures var r := Visit(st, b);
      && (forall x :: 0 <= x < |st.bank| && x != b ==> r.bank[x] == st.bank[x])
      && (forall x :: 0 <= x < |st.bank| && st.bank[x].reconciled ==> r.bank[x].reconciled)
      && (forall x :: 0 <= x < |st.invoices| && st.invoices[x].reconciled ==> r.invoices[x].reconciled)
      && (forall x :: 0 <= x < |st.invoices| && r.invoices[x] != st.invoices[x] ==>
            Candidate(st.bank[b], st.invoices[x]) && r.invoices[x] == st.invoices[x].(reconciled := true))
      && (forall x, y ::
            0 <= x < |st.invoices| && 0 <= y < |st.invoices| &&
            r.invoices[x] != st.invoices[x] && r.invoices[y] != st.invoices[y]
            ==> x == y)
      && st.matches <= r.matches && |r.matches| <= |st.matches| + 1
  {
  }

  /** The first `n` visits leave the later bank rows alone, clear no flag,
      and append at most one match per visited row. */
  lemma {:induction false} PassGrows(st: State, n: nat)
    requires n <= |st.bank|
    ensures var r := Pass(st, n);
      && (forall x :: n <= x < |st.bank| ==> r.bank[x] == st.bank[x])
      && (forall x :: 0 <= x < |st.bank| && st.bank[x].reconciled ==> r.bank[x].reconciled)
      && (forall x :: 0 <= x < |st.invoices| && st.invoices[x].reconciled ==> r.invoices[x].reconciled)
      && st.matches <= r.matches && |r.matches| <= |st.matches| + n
    decreases n
  {
    if n > 0 {
      PassGrows(st, n - 1);
      VisitFrame(Pass(st, n - 1), n - 1);
    }
  }

  /** Lines 9-36: the state after the whole pass. */
  function Reconcile(bankRows: seq<Row>, invoiceRows: seq<Row>): (r: State)
    ensures |r.bank| == |bankRows| && |r.invoices| == |invoiceRows|
  {
    var init := Initial(bankRows, invoiceRows);
    Pass(init, |init.bank|)
  }

  /** `df[~df["conciliado"]]` (lines 40-41): the unflagged records, in order. */
  function Unreconciled(rs: seq<Record>): (r: seq<Record>)
    decreases |rs|
  {
    if rs == [] then []
    else if rs[0].reconciled then Unreconciled(rs[1..])
    else [rs[0]] + Unreconciled(rs[1..])
  }

  /** The unmatched partition holds exactly the unflagged records. */
  lemma {:induction false} UnreconciledMembers(rs: seq<Record>)
    ensures forall x :: x in Unreconciled(rs) <==> x in rs && !x.reconciled
    decreases |rs|
  {
    if rs != [] {
      UnreconciledMembers(rs[1..]);
      assert rs == [rs[0]] + rs[1..];
    }
  }

  /** The unmatched partition keeps the records in their original order. */
  lemma {:induction false} UnreconciledKeepsOrder(rs: seq<Record>)
    ensures IsSubsequence(Unreconciled(rs), rs)
    decreases |rs|
  {
    if rs != [] {
      UnreconciledKeepsOrder(rs[1..]);
    }
  }

  /** The number of flagged records, counted last record first: together
      with the unmatched partition (whose size lines 45-46 print) it
      accounts for every record. */
  function Count(rs: seq<Record>): (n: nat)
    ensures n + |Unreconciled(rs)| == |rs|
    decreases |rs|
  {
    if rs == [] then 0
    else
      UnreconciledLast(rs);
      Count(rs[..|rs| - 1]) + (if rs[|rs| - 1].reconciled then 1 else 0)
  }

  /** The unmatched partition of a sequence grows by its last record when
      that one is unflagged. */
  lemma {:induction false} UnreconciledLast(rs: seq<Record>)
    requires rs != []
    ensures Unreconciled(rs) == Unreconciled(rs[..|rs| - 1]) + (if rs[|rs| - 1].reconciled then [] else [rs[|rs| - 1]])
    decreases |rs|
  {
    var n := |rs|;
    if n > 1 {
      assert rs[1..][..n - 2] == rs[..n - 1][1..];
      UnreconciledLast(rs[1..]);
      assert rs[..n - 1][0] == rs[0];
    } else {
      assert rs[..0] == [];
    }
  }

  /** The count is the number of flagged positions. */
  lemma CountIsFlaggedPositions(rs: seq<Record>)
    ensures Count(rs) == |set x | 0 <= x < |rs| && rs[x].reconciled|
  {
    CountIsSize(rs, set x | 0 <= x < |rs| && rs[x].reconciled);
  }

  // ------------------------------------------------------- bookkeeping sets

  function BankSet(ps: seq<Pair>): set<nat>
    decreases |ps|
  {
    if ps == [] then {} else BankSet(ps[..|ps| - 1]) + {ps[|ps| - 1].bank}
  }

  function InvoiceSet(ps: seq<Pair>): set<nat>
    decreases |ps|
  {
    if ps == [] then {} else InvoiceSet(ps[..|ps| - 1]) + {ps[|ps| - 1].invoice}
  }

  /** The invoices taken by bank rows before position `b`. */
  function InvoicesBefore(ps: seq<Pair>, b: nat): set<nat>
    decreases |ps|
  {
    if ps == [] then {}
    else InvoicesBefore(ps[..|ps| - 1], b) + (if ps[|ps| - 1].bank < b then {ps[|ps| - 1].invoice} else {})
  }

  lemma AppendSets(ps: seq<Pair>, p: Pair)
    ensures BankSet(ps + [p]) == BankSet(ps) + {p.bank}
    ensures InvoiceSet(ps + [p]) == InvoiceSet(ps) + {p.invoice}
    ensures forall b :: InvoicesBefore(ps + [p], b) == InvoicesBefore(ps, b) + (if p.bank < b then {p.invoice} else {})
  {
    assert (ps + [p])[..|ps|] == ps;
  }

  lemma {:induction false} InvoiceSetHas(ps: seq<Pair>)
    ensures forall k :: 0 <= k < |ps| ==> ps[k].invoice in InvoiceSet(ps)
    decreases |ps|
  {
    if ps != [] {
      var q := ps[..|ps| - 1];
      InvoiceSetHas(q);
      assert forall k :: 0 <= k < |q| ==> ps[k] == q[k];
    }
  }

  lemma {:induction false} BankSetBelow(ps: seq<Pair>, n: nat)
    requires forall k :: 0 <= k < |ps| ==> ps[k].bank < n
    ensures forall x :: x in BankSet(ps) ==> x < n
    decreases |ps|
  {
    if ps != [] {
      var q := ps[..|ps| - 1];
      assert forall k :: 0 <= k < |q| ==> q[k] == ps[k];
      BankSetBelow(q, n);
    }
  }

  lemma {:induction false} InvoicesBeforeAll(ps: seq<Pair>, b: nat)
    requires forall k :: 0 <= k < |ps| ==> ps[k].bank < b
    ensures InvoicesBefore(ps, b) == InvoiceSet(ps)
    decreases |ps|
  {
    if ps != [] {
      var q := ps[..|ps| - 1];
      assert forall k :: 0 <= k < |q| ==> q[k] == ps[k];
      InvoicesBeforeAll(q, b);
    }
  }

  // ------------------------------------------------------------ invariant

  /** `now` holds the records of `was` with possibly other flags. */
  ghost predicate KeepsFields(was: seq<Record>, now: seq<Record>) {
    |now| == |was| && forall x :: 0 <= x < |now| ==> now[x] == was[x].(reconciled := now[x].reconciled)
  }

  ghost predicate PairsInRange(ps: seq<Pair>, n: nat, invoices: nat) {
    forall k :: 0 <= k < |ps| ==> ps[k].bank < n && ps[k].invoice < invoices
  }

  /** Bank positions strictly increase along the pairs: one pair per bank
      row at most, in the order the rows were visited. */
  ghost predicate Increasing(ps: seq<Pair>) {
    forall k, l :: 0 <= k < l < |ps| ==> ps[k].bank < ps[l].bank
  }

  ghost predicate DistinctInvoices(ps: seq<Pair>) {
    forall k, l :: 0 <= k < l < |ps| ==> ps[k].invoice != ps[l].invoice
  }

  /** Every pair qualifies and its match record is the one lines 31-36 build. */
  ghost predicate MatchesAgree(init: State, ps: seq<Pair>, ms: seq<Match>) {
    forall k :: 0 <= k < |ps| ==>
      ps[k].bank < |init.bank| && ps[k].invoice < |init.invoices| && k < |ms| &&
      Qualifies(init.bank[ps[k].bank], init.invoices[ps[k].invoice]) &&
      ms[k] == MatchOf(init.bank[ps[k].bank], init.invoices[ps[k].invoice])
  }

  /** Every qualifying invoice ahead of the chosen one was already taken by
      an earlier pair. */
  ghost predicate FirstEligible(init: State, ps: seq<Pair>) {
    forall k, j :: 0 <= k < |ps| && 0 <= j < ps[k].invoice && ps[k].bank < |init.bank| &&
      j < |init.invoices| && Qualifies(init.bank[ps[k].bank], init.invoices[j])
      ==> j in InvoiceSet(ps[..k])
  }

  /** A visited bank row left unflagged found every qualifying invoice taken
      by an earlier bank row. */
  ghost predicate NoRetry(init: State, st: State, n: nat) {
    forall b, j :: 0 <= b < n && b < |st.bank| && b < |init.bank| && 0 <= j < |init.invoices| &&
      !st.bank[b].reconciled && Qualifies(init.bank[b], init.invoices[j])
      ==> j in InvoicesBefore(st.pairs, b)
  }

  ghost predicate Flags(st: State) {
    && (forall x :: 0 <= x < |st.bank| ==> (st.bank[x].reconciled <==> x in BankSet(st.pairs)))
    && (forall x :: 0 <= x < |st.invoices| ==> (st.invoices[x].reconciled <==> x in InvoiceSet(st.pairs)))
  }

  ghost predicate Inv(init: State, st: State, n: nat) {
    && n <= |init.bank|
    && KeepsFields(init.bank, st.bank) && KeepsFields(init.invoices, st.invoices)
    && |st.matches| == |st.pairs|
    && PairsInRange(st.pairs, n, |init.invoices|)
    && Flags(st)
    && Increasing(st.pairs) && DistinctInvoices(st.pairs)
    && MatchesAgree(init, st.pairs, st.matches)
    && FirstEligible(init, st.pairs)
    && NoRetry(init, st, n)
  }

  lemma InvInitial(init: State)
    requires init.matches == [] && init.pairs == []
    requires forall x :: 0 <= x < |init.bank| ==> !init.bank[x].reconciled
    requires forall x :: 0 <= x < |init.invoices| ==> !init.invoices[x].reconciled
    ensures Inv(init, init, 0)
  {
  }

  /** A visit that finds no candidate changes nothing, and the bank row it
      leaves unflagged had every qualifying invoice taken already. */
  lemma VisitNone(init: State, st: State, n: nat)
    requires Inv(init, st, n) && n < |init.bank|
    requires FirstCandidate(st.bank[n], st.invoices).None?
    ensures Inv(init, st, n + 1)
  {
    var ps := st.pairs;
    forall j | 0 <= j < |init.invoices| && Qualifies(init.bank[n], init.invoices[j])
      ensures j in InvoicesBefore(ps, n)
    {
      assert Qualifies(st.bank[n], st.invoices[j]);
      assert st.invoices[j].reconciled;
      InvoicesBeforeAll(ps, n);
    }
  }

  lemma VisitSome(init: State, st: State, n: nat, j: nat)
    requires Inv(init, st, n) && n < |init.bank|
    requires FirstCandidate(st.bank[n], st.invoices) == Some(j)
    ensures Inv(init, Visit(st, n), n + 1)
  {
    VisitSomeRecords(init, st, n, j);
    VisitSomeFlags(init, st, n, j);
    VisitSomePairs(init, st, n, j);
    VisitSomeHistory(init, st, n, j);
  }

  lemma PassNext(init: State, n: nat)
    requires n < |init.bank|
    ensures Pass(init, n + 1) == Visit(Pass(init, n), n)
  {
  }

  /** The visit that takes invoice `j` for bank row `n`, written out. */
  function Taken(st: State, n: nat, j: nat): State
    requires n < |st.bank| && j < |st.invoices|
  {
    State(st.bank[n := st.bank[n].(reconciled := true)],
          st.invoices[j := st.invoices[j].(reconciled := true)],
          st.matches + [MatchOf(st.bank[n], st.invoices[j])],
          st.pairs + [Pair(n, j)])
  }

  lemma VisitSomeRecords(init: State, st: State, n: nat, j: nat)
    requires Inv(init, st, n) && n < |init.bank|
    requires FirstCandidate(st.bank[n], st.invoices) == Some(j)
    ensures Visit(st, n) == Taken(st, n, j)
    ensures var st' := Taken(st, n, j);
      KeepsFields(init.bank, st'.bank) && KeepsFields(init.invoices, st'.invoices) && |st'.matches| == |st'.pairs|
  {
  }

  lemma VisitSomeFlags(init: State, st: State, n: nat, j: nat)
    requires Inv(init, st, n) && n < |init.bank|
    requires FirstCandidate(st.bank[n], st.invoices) == Some(j)
    ensures Flags(Taken(st, n, j))
  {
    AppendSets(st.pairs, Pair(n, j));
  }

  lemma VisitSomePairs(init: State, st: State, n: nat, j: nat)
    requires Inv(init, st, n) && n < |init.bank|
    requires FirstCandidate(st.bank[n], st.invoices) == Some(j)
    ensures var ps' := st.pairs + [Pair(n, j)];
      && Increasing(ps') && DistinctInvoices(ps') && PairsInRange(ps', n + 1, |init.invoices|)
      && MatchesAgree(init, ps', st.matches + [MatchOf(st.bank[n], st.invoices[j])])
  {
    InvoiceSetHas(st.pairs);
    assert !st.invoices[j].reconciled;
    PairsExtend(st.pairs, n, j, |init.invoices|);
    assert Qualifies(init.bank[n], init.invoices[j]) by {
      assert Qualifies(st.bank[n], st.invoices[j]);
    }
    assert MatchOf(st.bank[n], st.invoices[j]) == MatchOf(init.bank[n], init.invoices[j]);
    MatchesExtend(init, st.pairs, st.matches, n, j);
  }

  /** Appending a pair for a later bank row and an untaken invoice keeps the
      pairs increasing, distinct and in range. */
  lemma PairsExtend(ps: seq<Pair>, n: nat, j: nat, invoices: nat)
    requires Increasing(ps) && DistinctInvoices(ps) && PairsInRange(ps, n, invoices)
    requires j < invoices && forall k :: 0 <= k < |ps| ==> ps[k].invoice != j
    ensures var ps' := ps + [Pair(n, j)];
      Increasing(ps') && DistinctInvoices(ps') && PairsInRange(ps', n + 1, invoices)
  {
  }

  /** Appending a qualifying pair and its match keeps matches and pairs in
      agreement. */
  lemma MatchesExtend(init: State, ps: seq<Pair>, ms: seq<Match>, n: nat, j: nat)
    requires MatchesAgree(init, ps, ms) && |ms| == |ps|
    requires n < |init.bank| && j < |init.invoices| && Qualifies(init.bank[n], init.invoices[j])
    ensures MatchesAgree(init, ps + [Pair(n, j)], ms + [MatchOf(init.bank[n], init.invoices[j])])
  {
  }

  lemma VisitSomeHistory(init: State, st: State, n: nat, j: nat)
    requires Inv(init, st, n) && n < |init.bank|
    requires FirstCandidate(st.bank[n], st.invoices) == Some(j)
    ensures FirstEligible(init, st.pairs + [Pair(n, j)])
    ensures NoRetry(init, Taken(st, n, j), n + 1)
  {
    VisitSomeFirst(init, st, n, j);
    AppendSets(st.pairs, Pair(n, j));
  }

  /** The chosen invoice is the first eligible one: those ahead of it are
      taken by earlier pairs. */
  lemma VisitSomeFirst(init: State, st: State, n: nat, j: nat)
    requires Inv(init, st, n) && n < |init.bank|
    requires FirstCandidate(st.bank[n], st.invoices) == Some(j)
    ensures FirstEligible(init, st.pairs + [Pair(n, j)])
  {
    var ps, p := st.pairs, Pair(n, j);
    var ps' := ps + [p];
    forall k | 0 <= k < |ps|
      ensures ps'[..k] == ps[..k]
    {
    }
    assert ps'[..|ps|] == ps;
    forall j' | 0 <= j' < j && Qualifies(init.bank[n], init.invoices[j'])
      ensures j' in InvoiceSet(ps)
    {
      assert Qualifies(st.bank[n], st.invoices[j']);
      assert st.invoices[j'].reconciled;
    }
  }

  lemma VisitInv(init: State, st: State, n: nat)
    requires Inv(init, st, n) && n < |init.bank|
    ensures Inv(init, Visit(st, n), n + 1)
  {
    match FirstCandidate(st.bank[n], st.invoices)
    case None => VisitNone(init, st, n);
    case Some(j) => VisitSome(init, st, n, j);
  }

  lemma {:induction false} PassInv(init: State, n: nat)
    requires n <= |init.bank|
    requires init.matches == [] && init.pairs == []
    requires forall x :: 0 <= x < |init.bank| ==> !init.bank[x].reconciled
    requires forall x :: 0 <= x < |init.invoices| ==> !init.invoices[x].reconciled
    ensures Inv(init, Pass(init, n), n)
    decreases n
  {
    if n == 0 {
      InvInitial(init);
    } else {
      PassInv(init, n - 1);
      StepInv(init, n - 1);
    }
  }

  lemma StepInv(init: State, n: nat)
    requires n < |init.bank| && Inv(init, Pass(init, n), n)
    ensures Inv(init, Pass(init, n + 1), n + 1)
  {
    VisitInv(init, Pass(init, n), n);
  }

  lemma ReconcileInv(bankRows: seq<Row>, invoiceRows: seq<Row>)
    ensures Inv(Initial(bankRows, invoiceRows), Reconcile(bankRows, invoiceRows), |bankRows|)
  {
    PassInv(Initial(bankRows, invoiceRows), |bankRows|);
  }

  // ----------------------------------------------------------- properties

  /** Every match pairs a bank row and an invoice with equal amounts, equal
      canonical names and valid dates at most three days apart, and carries
      the bank date, the invoice date, the bank name and the bank amount. */
  lemma MatchesQualify(bankRows: seq<Row>, invoiceRows: seq<Row>)
    ensures var r := Reconcile(bankRows, invoiceRows);
      |r.matches| == |r.pairs| &&
      forall k :: 0 <= k < |r.pairs| ==>
        var b, i := r.pairs[k].bank, r.pairs[k].invoice;
        b < |bankRows| && i < |invoiceRows| &&
        bankRows[b].amount == invoiceRows[i].amount &&
        Canonical(bankRows[b].name) == Canonical(invoiceRows[i].name) &&
        bankRows[b].date.Some? && invoiceRows[i].date.Some? &&
        -3 <= invoiceRows[i].date.value - bankRows[b].date.value <= 3 &&
        r.matches[k] == Match(bankRows[b].date, invoiceRows[i].date, Canonical(bankRows[b].name), bankRows[b].amount)
  {
    var init, r := Initial(bankRows, invoiceRows), Reconcile(bankRows, invoiceRows);
    ReconcileInv(bankRows, invoiceRows);
    InitialAt(bankRows, invoiceRows);
    forall k | 0 <= k < |r.pairs|
      ensures var b, i := r.pairs[k].bank, r.pairs[k].invoice;
        b < |bankRows| && i < |invoiceRows| &&
        bankRows[b].amount == invoiceRows[i].amount &&
        Canonical(bankRows[b].name) == Canonical(invoiceRows[i].name) &&
        bankRows[b].date.Some? && invoiceRows[i].date.Some? &&
        -3 <= invoiceRows[i].date.value - bankRows[b].date.value <= 3 &&
        r.matches[k] == Match(bankRows[b].date, invoiceRows[i].date, Canonical(bankRows[b].name), bankRows[b].amount)
    {
      var b, i := r.pairs[k].bank, r.pairs[k].invoice;
      assert Qualifies(init.bank[b], init.invoices[i]) && r.matches[k] == MatchOf(init.bank[b], init.invoices[i]);
      assert init.bank[b] == Prepare(bankRows[b]) && init.invoices[i] == Prepare(invoiceRows[i]);
    }
  }

  /** The initial records are the prepared rows. */
  lemma InitialAt(bankRows: seq<Row>, invoiceRows: seq<Row>)
    ensures var init := Initial(bankRows, invoiceRows);
      && (forall x :: 0 <= x < |bankRows| ==> init.bank[x] == Prepare(bankRows[x]))
      && (forall x :: 0 <= x < |invoiceRows| ==> init.invoices[x] == Prepare(invoiceRows[x]))
  {
  }

  /** A row with an invalid date, on either side, is never matched. */
  lemma InvalidDateNeverMatches(bankRows: seq<Row>, invoiceRows: seq<Row>)
    ensures var r := Reconcile(bankRows, invoiceRows);
      && (forall b :: 0 <= b < |bankRows| && bankRows[b].date.None? ==> !r.bank[b].reconciled)
      && (forall i :: 0 <= i < |invoiceRows| && invoiceRows[i].date.None? ==> !r.invoices[i].reconciled)
      && (forall k :: 0 <= k < |r.matches| ==> r.matches[k].bankDate.Some? && r.matches[k].invoiceDate.Some?)
  {
    var init, r := Initial(bankRows, invoiceRows), Reconcile(bankRows, invoiceRows);
    ReconcileInv(bankRows, invoiceRows);
    InitialAt(bankRows, invoiceRows);
    FlaggedHaveDates(init, r, |bankRows|);
  }

  /** Under the invariant, a flagged record and every match have valid dates. */
  lemma FlaggedHaveDates(init: State, st: State, n: nat)
    requires Inv(init, st, n)
    ensures forall b :: 0 <= b < |st.bank| && st.bank[b].reconciled ==> init.bank[b].date.Some?
    ensures forall i :: 0 <= i < |st.invoices| && st.invoices[i].reconciled ==> init.invoices[i].date.Some?
    ensures forall k :: 0 <= k < |st.matches| ==> st.matches[k].bankDate.Some? && st.matches[k].invoiceDate.Some?
  {
    forall b | 0 <= b < |st.bank| && st.bank[b].reconciled
      ensures init.bank[b].date.Some?
    {
      var k := BankSetHas(st.pairs, b);
      assert Qualifies(init.bank[b], init.invoices[st.pairs[k].invoice]);
    }
    forall i | 0 <= i < |st.invoices| && st.invoices[i].reconciled
      ensures init.invoices[i].date.Some?
    {
      var k := InvoiceSetHasPair(st.pairs, i);
      assert Qualifies(init.bank[st.pairs[k].bank], init.invoices[i]);
    }
  }

  /** A bank position in `BankSet` is the bank position of some pair. */
  lemma {:induction false} BankSetHas(ps: seq<Pair>, b: nat) returns (k: nat)
    requires b in BankSet(ps)
    ensures k < |ps| && ps[k].bank == b
    decreases |ps|
  {
    var q := ps[..|ps| - 1];
    if ps[|ps| - 1].bank == b {
      k := |ps| - 1;
    } else {
      k := BankSetHas(q, b);
    }
  }

  lemma {:induction false} InvoiceSetHasPair(ps: seq<Pair>, i: nat) returns (k: nat)
    requires i in InvoiceSet(ps)
    ensures k < |ps| && ps[k].invoice == i
    decreases |ps|
  {
    var q := ps[..|ps| - 1];
    if ps[|ps| - 1].invoice == i {
      k := |ps| - 1;
    } else {
      k := InvoiceSetHasPair(q, i);
    }
  }

  /** One-to-one: bank rows are paired at most once and in visiting order,
      invoices at most once, and a record is flagged exactly when it is
      paired. */
  lemma OneToOne(bankRows: seq<Row>, invoiceRows: seq<Row>)
    ensures var r := Reconcile(bankRows, invoiceRows);
      && (forall k, l :: 0 <= k < l < |r.pairs| ==> r.pairs[k].bank < r.pairs[l].bank)
      && (forall k, l :: 0 <= k < l < |r.pairs| ==> r.pairs[k].invoice != r.pairs[l].invoice)
      && (forall b :: 0 <= b < |r.bank| ==> (r.bank[b].reconciled <==> b in BankSet(r.pairs)))
      && (forall i :: 0 <= i < |r.invoices| ==> (r.invoices[i].reconciled <==> i in InvoiceSet(r.pairs)))
  {
    ReconcileInv(bankRows, invoiceRows);
  }

  /** The chosen invoice was still free, and every qualifying invoice before
      it had been taken by an earlier match. */
  lemma FirstEligibleChosen(bankRows: seq<Row>, invoiceRows: seq<Row>)
    ensures var init, r := Initial(bankRows, invoiceRows), Reconcile(bankRows, invoiceRows);
      forall k :: 0 <= k < |r.pairs| ==>
        r.pairs[k].bank < |init.bank| && r.pairs[k].invoice < |init.invoices| &&
        r.pairs[k].invoice !in InvoiceSet(r.pairs[..k]) &&
        forall j :: 0 <= j < r.pairs[k].invoice && Qualifies(init.bank[r.pairs[k].bank], init.invoices[j]) ==>
          j in InvoiceSet(r.pairs[..k])
  {
    ReconcileInv(bankRows, invoiceRows);
    FirstEligibleFromInv(Initial(bankRows, invoiceRows), Reconcile(bankRows, invoiceRows), |bankRows|);
  }

  lemma FirstEligibleFromInv(init: State, st: State, n: nat)
    requires Inv(init, st, n)
    ensures forall k :: 0 <= k < |st.pairs| ==>
        st.pairs[k].bank < |init.bank| && st.pairs[k].invoice < |init.invoices| &&
        st.pairs[k].invoice !in InvoiceSet(st.pairs[..k]) &&
        forall j :: 0 <= j < st.pairs[k].invoice && Qualifies(init.bank[st.pairs[k].bank], init.invoices[j]) ==>
          j in InvoiceSet(st.pairs[..k])
  {
    forall k | 0 <= k < |st.pairs|
      ensures st.pairs[k].invoice !in InvoiceSet(st.pairs[..k])
    {
      InvoiceSetOnly(st.pairs[..k], st.pairs[k].invoice);
    }
  }

  lemma {:induction false} InvoiceSetOnly(ps: seq<Pair>, x: nat)
    requires forall l :: 0 <= l < |ps| ==> ps[l].invoice != x
    ensures x !in InvoiceSet(ps)
    decreases |ps|
  {
    if ps != [] {
      var q := ps[..|ps| - 1];
      assert forall l :: 0 <= l < |q| ==> q[l] == ps[l];
      InvoiceSetOnly(q, x);
    }
  }

  /** A bank row `b` left unflagged found, when it was visited, every
      qualifying invoice `j` already taken by an earlier bank row; it is never
      retried against invoices freed later (none are). */
  lemma NoRetryLater(bankRows: seq<Row>, invoiceRows: seq<Row>, b: nat, j: nat)
    requires b < |bankRows| && j < |invoiceRows|
    requires !Reconcile(bankRows, invoiceRows).bank[b].reconciled
    requires var init := Initial(bankRows, invoiceRows); Qualifies(init.bank[b], init.invoices[j])
    ensures var r := Reconcile(bankRows, invoiceRows);
      r.invoices[j].reconciled && j in InvoicesBefore(r.pairs, b)
  {
    var init, r := Initial(bankRows, invoiceRows), Reconcile(bankRows, invoiceRows);
    ReconcileInv(bankRows, invoiceRows);
    assert j in InvoicesBefore(r.pairs, b);
    InvoicesBeforeSub(r.pairs);
    assert j in InvoiceSet(r.pairs);
  }

  lemma {:induction false} InvoicesBeforeSub(ps: seq<Pair>)
    ensures forall b :: InvoicesBefore(ps, b) <= InvoiceSet(ps)
    decreases |ps|
  {
    if ps != [] {
      InvoicesBeforeSub(ps[..|ps| - 1]);
    }
  }

  /** As many matches as flagged bank rows and as flagged invoices; together
      with the unmatched partitions they account for every row exactly once. */
  lemma MatchCounts(bankRows: seq<Row>, invoiceRows: seq<Row>)
    ensures var r := Reconcile(bankRows, invoiceRows);
      && |r.matches| == Count(r.bank) == Count(r.invoices)
      && |Unreconciled(r.bank)| + |r.matches| == |bankRows|
      && |Unreconciled(r.invoices)| + |r.matches| == |invoiceRows|
  {
    var init, r := Initial(bankRows, invoiceRows), Reconcile(bankRows, invoiceRows);
    ReconcileInv(bankRows, invoiceRows);
    CountsFromInv(init, r, |bankRows|);
  }

  lemma CountsFromInv(init: State, st: State, n: nat)
    requires Inv(init, st, n)
    ensures Count(st.bank) == |st.pairs| && Count(st.invoices) == |st.pairs|
  {
    BankSetBelow(st.pairs, |st.bank|);
    InvoiceSetBelow(st.pairs, |st.invoices|);
    CountIsSize(st.bank, BankSet(st.pairs));
    CountIsSize(st.invoices, InvoiceSet(st.pairs));
    BankSetSize(st.pairs);
    InvoiceSetSize(st.pairs);
  }

  /** When the flagged positions of `rs` are exactly the set `s`, there are
      |s| flagged records. */
  lemma {:induction false} CountIsSize(rs: seq<Record>, s: set<nat>)
    requires forall x :: 0 <= x < |rs| ==> (rs[x].reconciled <==> x in s)
    requires forall x :: x in s ==> x < |rs|
    ensures Count(rs) == |s|
    decreases |rs|
  {
    if rs == [] {
      assert s == {};
    } else {
      var m := |rs| - 1;
      DropLastPosition(rs, s);
      CountIsSize(rs[..m], s - {m});
    }
  }

  /** Removing the last position from a set of flagged positions gives the
      flagged positions of the prefix, one fewer when the last is flagged. */
  lemma DropLastPosition(rs: seq<Record>, s: set<nat>)
    requires rs != []
    requires forall x :: 0 <= x < |rs| ==> (rs[x].reconciled <==> x in s)
    requires forall x :: x in s ==> x < |rs|
    ensures var m, q, t := |rs| - 1, rs[..|rs| - 1], s - {|rs| - 1};
      && (forall x :: 0 <= x < |q| ==> (q[x].reconciled <==> x in t))
      && (forall x :: x in t ==> x < |q|)
      && |s| == |t| + (if rs[m].reconciled then 1 else 0)
  {
    var m := |rs| - 1;
    var t := s - {m};
    if rs[m].reconciled {
      assert s == t + {m} && m !in t;
    } else {
      assert s == t;
    }
  }

  lemma {:induction false} BankSetSize(ps: seq<Pair>)
    requires Increasing(ps)
    ensures |BankSet(ps)| == |ps|
    decreases |ps|
  {
    if ps != [] {
      var q := ps[..|ps| - 1];
      assert forall k :: 0 <= k < |q| ==> q[k] == ps[k];
      BankSetSize(q);
      BankSetBelow(q, ps[|ps| - 1].bank);
    }
  }

  lemma {:induction false} InvoiceSetSize(ps: seq<Pair>)
    requires DistinctInvoices(ps)
    ensures |InvoiceSet(ps)| == |ps|
    decreases |ps|
  {
    if ps != [] {
      var q := ps[..|ps| - 1];
      assert forall k :: 0 <= k < |q| ==> q[k] == ps[k];
      InvoiceSetSize(q);
      InvoiceSetOnly(q, ps[|ps| - 1].invoice);
    }
  }

  lemma {:induction false} InvoiceSetBelow(ps: seq<Pair>, n: nat)
    requires forall k :: 0 <= k < |ps| ==> ps[k].invoice < n
    ensures forall x :: x in InvoiceSet(ps) ==> x < n
    decreases |ps|
  {
    if ps != [] {
      var q := ps[..|ps| - 1];
      assert forall k :: 0 <= k < |q| ==> q[k] == ps[k];
      InvoiceSetBelow(q, n);
    }
  }

  /** Apart from the flag, every record is its prepared row: the pass
      changes no other field and moves no record. */
  lemma FieldsPreserved(bankRows: seq<Row>, invoiceRows: seq<Row>)
    ensures var r := Reconcile(bankRows, invoiceRows);
      && |r.bank| == |bankRows| && |r.invoices| == |invoiceRows|
      && (forall b :: 0 <= b < |bankRows| ==> r.bank[b] == Prepare(bankRows[b]).(reconciled := r.bank[b].reconciled))
      && (forall i :: 0 <= i < |invoiceRows| ==> r.invoices[i] == Prepare(invoiceRows[i]).(reconciled := r.invoices[i].reconciled))
  {
    ReconcileInv(bankRows, invoiceRows);
    InitialAt(bankRows, invoiceRows);
  }

  // ------------------------------------------------------------ scenarios

  /** One bank row and one invoice with the same amount and name, `delta`
      days apart: they match exactly when |delta| <= 3 (so D+3 matches and
      D+4 does not), and otherwise both stay unmatched. */
  lemma OnePairWindow(d: int, delta: int, amount: real, name: Cell, bankRest: seq<Cell>, invoiceRest: seq<Cell>)
    ensures var r := Reconcile([Row(Some(d), amount, name, bankRest)], [Row(Some(d + delta), amount, name, invoiceRest)]);
      && (-3 <= delta <= 3 ==> r.matches == [Match(Some(d), Some(d + delta), Canonical(name), amount)]
                               && Unreconciled(r.bank) == [] && Unreconciled(r.invoices) == [])
      && (!(-3 <= delta <= 3) ==> r.matches == [] && |Unreconciled(r.bank)| == 1 && |Unreconciled(r.invoices)| == 1)
  {
    var bankRows, invoiceRows := [Row(Some(d), amount, name, bankRest)], [Row(Some(d + delta), amount, name, invoiceRest)];
    var b, i := Prepare(bankRows[0]), Prepare(invoiceRows[0]);
    SingleInitial(bankRows, invoiceRows);
    PreparedPair(d, delta, amount, name, bankRest, invoiceRest);
    SinglePair(b, i);
  }

  /** One row on each side reconciles as one visit of the two prepared records. */
  lemma SingleInitial(bankRows: seq<Row>, invoiceRows: seq<Row>)
    requires |bankRows| == 1 && |invoiceRows| == 1
    ensures Reconcile(bankRows, invoiceRows) == Visit(State([Prepare(bankRows[0])], [Prepare(invoiceRows[0])], [], []), 0)
  {
    var init := Initial(bankRows, invoiceRows);
    InitialAt(bankRows, invoiceRows);
    assert init.bank == [Prepare(bankRows[0])];
    assert init.invoices == [Prepare(invoiceRows[0])];
    assert Pass(init, 1) == Visit(init, 0);
  }

  /** The two prepared records of `OnePairWindow`: a candidate pair exactly
      inside the window, and the match they would make. */
  lemma PreparedPair(d: int, delta: int, amount: real, name: Cell, bankRest: seq<Cell>, invoiceRest: seq<Cell>)
    ensures var b, i := Prepare(Row(Some(d), amount, name, bankRest)), Prepare(Row(Some(d + delta), amount, name, invoiceRest));
      && !b.reconciled && !i.reconciled
      && (Candidate(b, i) <==> -3 <= delta <= 3)
      && MatchOf(b, i) == Match(Some(d), Some(d + delta), Canonical(name), amount)
  {
  }

  /** A single bank record against a single invoice: one visit takes the
      pair exactly when the invoice is a candidate. */
  lemma SinglePair(b: Record, i: Record)
    requires !b.reconciled
    ensures var r := Visit(State([b], [i], [], []), 0);
      && (Candidate(b, i) ==> r.matches == [MatchOf(b, i)] && Unreconciled(r.bank) == [] && Unreconciled(r.invoices) == [])
      && (!Candidate(b, i) ==> r.matches == [] && Unreconciled(r.bank) == [b] && (!i.reconciled ==> Unreconciled(r.invoices) == [i]))
  {
    var init := State([b], [i], [], []);
    var r := Visit(init, 0);
    if Candidate(b, i) {
      assert FirstCandidate(b, [i]) == Some(0);
      assert r.bank == [b.(reconciled := true)] && r.invoices == [i.(reconciled := true)];
    } else {
      assert FirstCandidate(b, [i]) == None;
      assert r == init;
      assert [b][1..] == [] && [i][1..] == [];
    }
  }

  /** One bank row and two invoices, the first of which qualifies: the
      first is taken and the second stays unmatched, even when it qualifies
      just as well. */
  lemma EarlierInvoiceWins(bank: Row, first: Row, second: Row)
    requires Qualifies(Prepare(bank), Prepare(first))
    ensures var r := Reconcile([bank], [first, second]);
      r.pairs == [Pair(0, 0)] && Unreconciled(r.invoices) == [Prepare(second)]
  {
    var b, i1, i2 := Prepare(bank), Prepare(first), Prepare(second);
    TwoInvoicesInitial(bank, first, second);
    OneBankRow([bank], [first, second]);
    TakeFirst(b, i1, i2);
  }

  /** With a single bank row the pass is one visit of the initial state. */
  lemma OneBankRow(bankRows: seq<Row>, invoiceRows: seq<Row>)
    requires |bankRows| == 1
    ensures Reconcile(bankRows, invoiceRows) == Visit(Initial(bankRows, invoiceRows), 0)
  {
    var init := Initial(bankRows, invoiceRows);
    assert Pass(init, 1) == Visit(Pass(init, 0), 0);
  }

  lemma TwoInvoicesInitial(bank: Row, first: Row, second: Row)
    ensures Initial([bank], [first, second]) == State([Prepare(bank)], [Prepare(first), Prepare(second)], [], [])
  {
    var init := Initial([bank], [first, second]);
    InitialAt([bank], [first, second]);
    assert init.bank == [Prepare(bank)];
    assert init.invoices == [Prepare(first), Prepare(second)];
  }

  /** A free bank record whose first invoice is a candidate takes it and
      leaves the second invoice, when it is free, unmatched. */
  lemma TakeFirst(b: Record, i1: Record, i2: Record)
    requires Candidate(b, i1) && !i2.reconciled
    ensures var r := Visit(State([b], [i1, i2], [], []), 0);
      r.pairs == [Pair(0, 0)] && Unreconciled(r.invoices) == [i2]
  {
    var st := State([b], [i1, i2], [], []);
    assert FirstCandidate(b, st.invoices) == Some(0);
    var r := Visit(st, 0);
    assert r.invoices == [i1.(reconciled := true), i2];
    assert r.invoices[1..] == [i2] && [i2][1..] == [];
    assert Unreconciled([i2]) == [i2];
  }

  // -------------------------------------------------------- imperative pass

  /** The two frames as arrays of records updated in place, and the list of
      matches; `pairs` is the proof's ghost record of the pass. */
  class Reconciler {
    var bank: array<Record>
    var invoices: array<Record>
    var matches: seq<Match>
    ghost var pairs: seq<Pair>
    ghost const bankRows: seq<Row>
    ghost const invoiceRows: seq<Row>
    /** The state the constructor builds, before any bank row is visited. */
    ghost const start: State

    ghost predicate Valid()
      reads this
    {
      bank != invoices && bank.Length == |bankRows| && invoices.Length == |invoiceRows|
    }

    ghost function Snapshot(): State
      reads this, bank, invoices
    {
      State(bank[..], invoices[..], matches, pairs)
    }

    /** Lines 9-16: canonicalise names and clear every flag. */
    constructor (bankRows: seq<Row>, invoiceRows: seq<Row>)
      ensures Valid() && fresh(bank) && fresh(invoices)
      ensures this.bankRows == bankRows && this.invoiceRows == invoiceRows
      ensures start == Initial(bankRows, invoiceRows) && Snapshot() == start
    {
      this.bankRows := bankRows;
      this.invoiceRows := invoiceRows;
      start := Initial(bankRows, invoiceRows);
      bank := new Record[|bankRows|](x requires 0 <= x < |bankRows| => Prepare(bankRows[x]));
      invoices := new Record[|invoiceRows|](x requires 0 <= x < |invoiceRows| => Prepare(invoiceRows[x]));
      matches := [];
      pairs := [];
      new;
      assert bank[..] == Initial(bankRows, invoiceRows).bank;
      assert invoices[..] == Initial(bankRows, invoiceRows).invoices;
    }

    /** Lines 19-36: visit every bank row once, in order, flagging it and the
        first candidate invoice when there is one. Since the constructor sets
        `start` to `Initial(bankRows, invoiceRows)`, the final state is
        `Reconcile(bankRows, invoiceRows)`. */
    method Run()
      requires Valid() && Snapshot() == start && bank.Length == |start.bank|
      modifies this, bank, invoices
      ensures Valid() && bank == old(bank) && invoices == old(invoices)
      ensures Snapshot() == Pass(start, |start.bank|)
    {
      var i := 0;
      while i < bank.Length
        invariant Valid() && bank == old(bank) && invoices == old(invoices)
        invariant 0 <= i <= bank.Length == |start.bank|
        invariant Snapshot() == Pass(start, i)
      {
        VisitRow(i);
        PassNext(start, i);
        i := i + 1;
      }
    }

    /** Lines 20-36 for bank row `i`: look for the first candidate invoice
        and, when there is one, take it. */
    method VisitRow(i: nat)
      requires Valid() && i < bank.Length
      modifies this, bank, invoices
      ensures Valid() && bank == old(bank) && invoices == old(invoices)
      ensures Snapshot() == Visit(old(Snapshot()), i)
    {
      var c := FirstCandidate(bank[i], invoices[..]);
      match c {
        case None =>
        case Some(j) => Take(i, j);
      }
    }

    /** Lines 29-36: flag bank row `i` and invoice `j` and record their match. */
    method Take(i: nat, j: nat)
      requires Valid() && i < bank.Length && j < invoices.Length
      modifies this, bank, invoices
      ensures Valid() && bank == old(bank) && invoices == old(invoices)
      ensures Snapshot() == Taken(old(Snapshot()), i, j)
    {
      var b, inv := bank[i], invoices[j];
      invoices[j] := inv.(reconciled := true);
      bank[i] := b.(reconciled := true);
      matches := matches + [MatchOf(b, inv)];
      pairs := pairs + [Pair(i, j)];
      assert bank[..] == old(bank[..])[i := b.(reconciled := true)];
      assert invoices[..] == old(invoices[..])[j := inv.(reconciled := true)];
    }

    /** Line 40: the bank rows left unmatched, in order. */
    function UnmatchedBank(): (r: seq<Record>)
      reads this, bank
      ensures forall x :: x in r <==> x in bank[..] && !x.reconciled
      ensures IsSubsequence(r, bank[..]) && |r| + Count(bank[..]) == bank.Length
    {
      UnreconciledMembers(bank[..]);
      UnreconciledKeepsOrder(bank[..]);
      Unreconciled(bank[..])
    }

    /** Line 41: the invoices left unmatched, in order. */
    function UnmatchedInvoices(): (r: seq<Record>)
      reads this, invoices
      ensures forall x :: x in r <==> x in invoices[..] && !x.reconciled
      ensures IsSubsequence(r, invoices[..]) && |r| + Count(invoices[..]) == invoices.Length
    {
      UnreconciledMembers(invoices[..]);
      UnreconciledKeepsOrder(invoices[..]);
      Unreconciled(invoices[..])
    }
  }
}
