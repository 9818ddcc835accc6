/** The meaning of the spreadsheet import (pages/Invoice.py:78-126), as a
    function of the store the session sees and the rows in sheet order. The
    loop that runs it step by step is `InvoicePage.Session.ImportRows`. */
module BatchImport {
  import opened Wrappers
  import opened Text
  import opened InvoiceRules
  import opened Ledger

  /** One sheet row: supplier, product, month, price, quantity, paid. */
  datatype Row = Row(
    supplierName: string,
    productName: string,
    month: string,
    price: Money,
    quantity: int,
    paid: Money)

  /** "Dòng {row}: {message}": a validation failure tagged with the 1-based
      number of its row. */
  datatype RowError = RowError(rowNumber: nat, error: ValidationError)

  function RowVerdict(row: Row): Verdict {
    Validate(row.price, row.quantity, row.paid)
  }

  /** The rows on which get-or-create raises: a name blank after trimming. */
  predicate HasBlankName(row: Row) {
    Strip(row.supplierName) == [] || Strip(row.productName) == []
  }

  /** The rows on which the loop raises: accepted by the validator, then
      refused by get-or-create. */
  predicate Raises(row: Row) {
    RowVerdict(row) == Accepted && HasBlankName(row)
  }

  /** The state of the import after some rows: the store with the staged rows
      and the errors so far, or the exception that ended the loop. */
  datatype Stage = Running(db: Db, errors: seq<RowError>) | Aborted

  /** One iteration of the loop for the row at 0-based `index`. */
  function Step(st: Stage, row: Row, index: nat): (r: Stage)
    ensures st.Aborted? ==> r.Aborted?
    ensures st.Running? && RowVerdict(row).Rejected? ==>
      r == Running(st.db, st.errors + [RowError(index + 1, RowVerdict(row).error)])
    ensures r.Aborted? <==> st.Aborted? || Raises(row)
    ensures st.Running? && r.Running? && RowVerdict(row) == Accepted ==>
      r.errors == st.errors && |r.db.invoices| == |st.db.invoices| + 1 && st.db.invoices <= r.db.invoices
  {
    match st
    case Aborted => Aborted
    case Running(db, errors) =>
      match Validate(row.price, row.quantity, row.paid)
      case Rejected(e) => Running(db, errors + [RowError(index + 1, e)])
      case Accepted =>
        match Resolve(db, row.supplierName, row.productName)
        case Failure(_) => Aborted
        case Success(res) =>
          Running(AddInvoice(res.db, res.supplierId, res.productId, row.month, row.price, row.quantity, row.paid), errors)
  }

  /** The state after the first `n` rows. */
  function StageRows(db: Db, rows: seq<Row>, n: nat): Stage
    requires n <= |rows|
  {
    if n == 0 then Running(db, []) else Step(StageRows(db, rows, n - 1), rows[n - 1], n - 1)
  }

  /** How the import ends: committed, rolled back for invalid rows (with their
      errors), or rolled back after an exception. */
  datatype Report = Committed | InvalidRows(errors: seq<RowError>) | SystemError

  datatype Outcome = Outcome(db: Db, report: Report)

  /** The whole import on a session with nothing pending: the staged store is
      kept only when no row failed and nothing raised; otherwise the store is
      what it was before. */
  function Import(db: Db, rows: seq<Row>): (o: Outcome)
    ensures o.report != Committed ==> o.db == db
    ensures o.report.InvalidRows? ==> o.report.errors != []
  {
    match StageRows(db, rows, |rows|)
    case Aborted => Outcome(db, SystemError)
    case Running(staged, errors) =>
      if errors == [] then Outcome(staged, Committed) else Outcome(db, InvalidRows(errors))
  }

  // ---------------------------------------------------------------------
  // Properties of the staging loop

  /** The stage after `n` rows is row `n - 1` processed on the stage before. */
  lemma StageRowsLast(db: Db, rows: seq<Row>, n: nat)
    requires 0 < n <= |rows|
    ensures StageRows(db, rows, n) == Step(StageRows(db, rows, n - 1), rows[n - 1], n - 1)
  {
  }

  /** An accepted row whose names resolve is staged on the resolved store. */
  lemma StepAcceptedRow(db: Db, errors: seq<RowError>, row: Row, index: nat)
    requires RowVerdict(row) == Accepted
    requires Resolve(db, row.supplierName, row.productName).Success?
    ensures var res := Resolve(db, row.supplierName, row.productName).value;
      Step(Running(db, errors), row, index)
        == Running(AddInvoice(res.db, res.supplierId, res.productId, row.month, row.price, row.quantity, row.paid), errors)
  {
  }

  /** Some one of the first `n` rows raises. */
  predicate RaisesBefore(rows: seq<Row>, n: nat)
    requires n <= |rows|
  {
    n > 0 && (RaisesBefore(rows, n - 1) || Raises(rows[n - 1]))
  }

  lemma {:induction false} RaisesBeforeIff(rows: seq<Row>, n: nat)
    requires n <= |rows|
    ensures RaisesBefore(rows, n) <==> exists k :: 0 <= k < n && Raises(rows[k])
  {
    if n > 0 {
      var m := n - 1;
      RaisesBeforeIff(rows, m);
      if !RaisesBefore(rows, n) {
        forall k | 0 <= k < n ensures !Raises(rows[k]) {
          if k < m {
            assert !(0 <= k < m && Raises(rows[k]));
          }
        }
      }
    }
  }

  lemma {:induction false} RaisesBeforeGrows(rows: seq<Row>, k: nat, n: nat)
    requires k <= n <= |rows|
    requires RaisesBefore(rows, k)
    ensures RaisesBefore(rows, n)
    decreases n
  {
    if n > k {
      var m := n - 1;
      RaisesBeforeGrows(rows, k, m);
    }
  }

  /** The loop has raised after `n` rows exactly when one of them raises. */
  lemma {:induction false} StageRowsAborted(db: Db, rows: seq<Row>, n: nat)
    requires n <= |rows|
    ensures StageRows(db, rows, n).Aborted? <==> RaisesBefore(rows, n)
  {
    if n > 0 {
      var m := n - 1;
      StageRowsAborted(db, rows, m);
      StageRowsLast(db, rows, n);
    }
  }

  /** Once an exception has ended the loop, no later row changes that. */
  lemma AbortedStaysAborted(db: Db, rows: seq<Row>, k: nat, n: nat)
    requires k <= n <= |rows|
    requires StageRows(db, rows, k).Aborted?
    ensures StageRows(db, rows, n).Aborted?
  {
    StageRowsAborted(db, rows, k);
    RaisesBeforeGrows(rows, k, n);
    StageRowsAborted(db, rows, n);
  }

  /** The loop raises exactly when some accepted row has a blank name. */
  lemma StageRowsAbortedIff(db: Db, rows: seq<Row>, n: nat)
    requires n <= |rows|
    ensures StageRows(db, rows, n).Aborted? <==> exists k :: 0 <= k < n && Raises(rows[k])
  {
    StageRowsAborted(db, rows, n);
    RaisesBeforeIff(rows, n);
  }

  /** Each error names, by its 1-based number, one of the first `n` rows,
      and the validator rejected that row with that very error. */
  predicate ReportsOnlyRejected(rows: seq<Row>, n: nat, errs: seq<RowError>)
    requires n <= |rows|
  {
    forall i :: 0 <= i < |errs| ==>
      1 <= errs[i].rowNumber <= n && RowVerdict(rows[errs[i].rowNumber - 1]) == Rejected(errs[i].error)
  }

  /** The errors are in row order, each row at most once. */
  predicate InRowOrder(errs: seq<RowError>) {
    forall i, j :: 0 <= i < j < |errs| ==> errs[i].rowNumber < errs[j].rowNumber
  }

  /** Every one of the first `n` rows that the validator rejects has an error. */
  predicate ReportsEveryRejected(rows: seq<Row>, n: nat, errs: seq<RowError>)
    requires n <= |rows|
  {
    forall k :: 0 <= k < n && RowVerdict(rows[k]).Rejected? ==>
      exists i :: 0 <= i < |errs| && errs[i].rowNumber == k + 1
  }

  /** The errors the validator reports for the first `n` rows, tagged with
      their 1-based row numbers, in sheet order: the loop's error list stated
      without the store. */
  function ValidationErrors(rows: seq<Row>, n: nat): seq<RowError>
    requires n <= |rows|
  {
    if n == 0 then []
    else
      match RowVerdict(rows[n - 1])
      case Accepted => ValidationErrors(rows, n - 1)
      case Rejected(e) => ValidationErrors(rows, n - 1) + [RowError(n, e)]
  }

  /** While the loop runs, its error list is exactly `ValidationErrors`. */
  lemma {:induction false} StageRowsErrors(db: Db, rows: seq<Row>, n: nat)
    requires n <= |rows|
    requires StageRows(db, rows, n).Running?
    ensures StageRows(db, rows, n).errors == ValidationErrors(rows, n)
  {
    if n > 0 {
      var m := n - 1;
      var prev := StageRows(db, rows, m);
      StageRowsLast(db, rows, n);
      assert prev.Running?;
      StageRowsErrors(db, rows, m);
      StepErrors(prev, rows[m], m);
      ValidationErrorsLast(rows, n);
    }
  }

  /** The errors after one more row: the error of that row, if any, appended. */
  lemma StepErrors(st: Stage, row: Row, index: nat)
    requires st.Running? && Step(st, row, index).Running?
    ensures Step(st, row, index).errors == st.errors + RowErrors(row, index + 1)
  {
  }

  /** The error reported for a row at 1-based number `rowNumber`: none or one. */
  function RowErrors(row: Row, rowNumber: nat): (errs: seq<RowError>)
    ensures errs == [] <==> RowVerdict(row) == Accepted
  {
    match RowVerdict(row)
    case Accepted => []
    case Rejected(e) => [RowError(rowNumber, e)]
  }

  lemma ValidationErrorsLast(rows: seq<Row>, n: nat)
    requires 0 < n <= |rows|
    ensures ValidationErrors(rows, n) == ValidationErrors(rows, n - 1) + RowErrors(rows[n - 1], n)
  {
  }

  /** Each reported error names, by its 1-based number, a row the validator
      rejected with that very error. */
  lemma {:induction false} ValidationErrorsSound(rows: seq<Row>, n: nat)
    requires n <= |rows|
    ensures ReportsOnlyRejected(rows, n, ValidationErrors(rows, n))
  {
    if n > 0 {
      var m := n - 1;
      ValidationErrorsSound(rows, m);
      var prev := ValidationErrors(rows, m);
      var errs := ValidationErrors(rows, n);
      var v := RowVerdict(rows[m]);
      if v.Rejected? {
        assert errs == prev + [RowError(n, v.error)];
        forall i | 0 <= i < |errs|
          ensures 1 <= errs[i].rowNumber <= n && RowVerdict(rows[errs[i].rowNumber - 1]) == Rejected(errs[i].error)
        {
          if i < |prev| {
            assert errs[i] == prev[i];
          } else {
            assert errs[i] == RowError(n, v.error);
          }
        }
      } else {
        assert errs == prev;
      }
    }
  }

  /** The reported errors are in row order, each row at most once. */
  lemma {:induction false} ValidationErrorsOrdered(rows: seq<Row>, n: nat)
    requires n <= |rows|
    ensures InRowOrder(ValidationErrors(rows, n))
  {
    if n > 0 {
      var m := n - 1;
      ValidationErrorsOrdered(rows, m);
      ValidationErrorsSound(rows, m);
      var prev := ValidationErrors(rows, m);
      var errs := ValidationErrors(rows, n);
      var v := RowVerdict(rows[m]);
      if v.Rejected? {
        assert errs == prev + [RowError(n, v.error)];
        forall i, j | 0 <= i < j < |errs| ensures errs[i].rowNumber < errs[j].rowNumber {
          assert errs[i] == prev[i];
          if j < |prev| {
            assert errs[j] == prev[j];
          } else {
            assert errs[j].rowNumber == n;
          }
        }
      } else {
        assert errs == prev;
      }
    }
  }

  /** Every rejected row among the first `n` has its error reported. */
  lemma {:induction false} ValidationErrorsComplete(rows: seq<Row>, n: nat)
    requires n <= |rows|
    ensures ReportsEveryRejected(rows, n, ValidationErrors(rows, n))
  {
    if n > 0 {
      var m := n - 1;
      ValidationErrorsComplete(rows, m);
      var prev := ValidationErrors(rows, m);
      var errs := ValidationErrors(rows, n);
      var v := RowVerdict(rows[m]);
      if v.Rejected? {
        assert errs == prev + [RowError(n, v.error)];
      } else {
        assert errs == prev;
      }
      forall k | 0 <= k < n && RowVerdict(rows[k]).Rejected?
        ensures exists i :: 0 <= i < |errs| && errs[i].rowNumber == k + 1
      {
        if k == m {
          assert errs[|errs| - 1].rowNumber == k + 1;
        } else {
          var i :| 0 <= i < |prev| && prev[i].rowNumber == k + 1;
          assert errs[i] == prev[i];
        }
      }
    }
  }

  /** No error is reported exactly when every one of the first `n` rows is
      accepted. */
  lemma {:induction false} ValidationErrorsEmpty(rows: seq<Row>, n: nat)
    requires n <= |rows|
    ensures ValidationErrors(rows, n) == [] <==> forall k :: 0 <= k < n ==> RowVerdict(rows[k]) == Accepted
  {
    ValidationErrorsSound(rows, n);
    ValidationErrorsComplete(rows, n);
    var errs := ValidationErrors(rows, n);
    if errs != [] {
      assert RowVerdict(rows[errs[0].rowNumber - 1]).Rejected?;
    }
  }

  /** The loop stages one invoice per accepted row and appends it: the store
      before the loop is a prefix of the staged one. */
  lemma {:induction false} StageRowsKeepsEarlierInvoices(db: Db, rows: seq<Row>, n: nat)
    requires n <= |rows|
    requires StageRows(db, rows, n).Running?
    ensures db.invoices <= StageRows(db, rows, n).db.invoices
  {
    if n > 0 {
      var m := n - 1;
      StageRowsKeepsEarlierInvoices(db, rows, m);
    }
  }

  /** Staging keeps every invariant of the store. */
  lemma {:induction false} StageRowsConsistent(db: Db, rows: seq<Row>, n: nat)
    requires n <= |rows|
    requires Consistent(db)
    requires StageRows(db, rows, n).Running?
    ensures Consistent(StageRows(db, rows, n).db)
  {
    if n > 0 {
      var m := n - 1;
      var prev := StageRows(db, rows, m);
      StageRowsLast(db, rows, n);
      assert prev.Running?;
      StageRowsConsistent(db, rows, m);
      StepConsistent(prev, rows[m], m);
    }
  }

  /** One step of the loop keeps the store consistent. */
  lemma StepConsistent(st: Stage, row: Row, index: nat)
    requires st.Running? && Consistent(st.db) && Step(st, row, index).Running?
    ensures Consistent(Step(st, row, index).db)
  {
    if RowVerdict(row) == Accepted {
      var res := Resolve(st.db, row.supplierName, row.productName).value;
      ResolveConsistent(st.db, row.supplierName, row.productName);
      AddInvoiceConsistent(res.db, res.supplierId, res.productId, row.month, row.price, row.quantity, row.paid);
    }
  }

  /** The invoice staged for `row`: its inputs, its derived amounts, and the
      supplier and product its trimmed names resolved to. */
  ghost predicate StagedFor(db: Db, inv: Invoice, row: Row) {
    && inv.month == row.month && inv.price == row.price && inv.quantity == row.quantity
    && inv.totalPaid == row.paid && DerivedConsistent(inv)
    && NamedSupplier(db, inv.supplierId, Strip(row.supplierName))
    && NamedProduct(db, inv.productId, Strip(row.productName), inv.supplierId)
  }

  /** `d` is `db` with one invoice appended per each of the first `n` rows,
      in row order, each staged for its row. */
  ghost predicate StagedInOrder(db: Db, d: Db, rows: seq<Row>, n: nat)
    requires n <= |rows|
  {
    && |d.invoices| == |db.invoices| + n
    && d.invoices[..|db.invoices|] == db.invoices
    && forall k :: 0 <= k < n ==> StagedFor(d, d.invoices[|db.invoices| + k], rows[k])
  }

  /** A staged invoice stays staged for its row when later rows only append
      suppliers and products. */
  lemma StagedForPersists(before: Db, after: Db, inv: Invoice, row: Row)
    requires before.suppliers <= after.suppliers && before.products <= after.products
    requires StagedFor(before, inv, row)
    ensures StagedFor(after, inv, row)
  {
    NamedRowsPersist(before, after, inv.supplierId, Strip(row.supplierName), inv.productId, Strip(row.productName));
  }

  /** An accepted row with both names stages one invoice for itself and only
      appends to the store. */
  lemma StepStagesRow(st: Stage, row: Row, index: nat)
    requires st.Running? && RowVerdict(row) == Accepted && !HasBlankName(row)
    ensures Step(st, row, index).Running? && Step(st, row, index).errors == st.errors
    ensures st.db.suppliers <= Step(st, row, index).db.suppliers
    ensures st.db.products <= Step(st, row, index).db.products
    ensures |Step(st, row, index).db.invoices| == |st.db.invoices| + 1
    ensures st.db.invoices <= Step(st, row, index).db.invoices
    ensures StagedFor(Step(st, row, index).db, Step(st, row, index).db.invoices[|st.db.invoices|], row)
  {
    var res := Resolve(st.db, row.supplierName, row.productName).value;
    var d := AddInvoice(res.db, res.supplierId, res.productId, row.month, row.price, row.quantity, row.paid);
    assert Step(st, row, index) == Running(d, st.errors);
  }

  /** Appending an invoice staged for row `n - 1` to a store staged in order
      for the rows before it, while keeping its suppliers and products, gives
      a store staged in order for the first `n` rows. */
  lemma StagedInOrderStep(db: Db, prev: Db, d: Db, rows: seq<Row>, n: nat)
    requires 0 < n <= |rows|
    requires StagedInOrder(db, prev, rows, n - 1)
    requires prev.suppliers <= d.suppliers && prev.products <= d.products
    requires |d.invoices| == |prev.invoices| + 1 && prev.invoices <= d.invoices
    requires StagedFor(d, d.invoices[|prev.invoices|], rows[n - 1])
    ensures StagedInOrder(db, d, rows, n)
  {
    forall k | 0 <= k < n
      ensures StagedFor(d, d.invoices[|db.invoices| + k], rows[k])
    {
      if k < n - 1 {
        assert d.invoices[|db.invoices| + k] == prev.invoices[|db.invoices| + k];
        StagedForPersists(prev, d, prev.invoices[|db.invoices| + k], rows[k]);
      }
    }
    assert d.invoices[..|db.invoices|] == prev.invoices[..|db.invoices|];
  }

  lemma PrefixTransitive<T>(a: seq<T>, b: seq<T>, c: seq<T>)
    requires a <= b && b <= c
    ensures a <= c
  {
  }

  /** When every one of the first `n` rows is accepted and has both names,
      the loop stages exactly one invoice per row, in row order. */
  lemma {:induction false} StageRowsAllAccepted(db: Db, rows: seq<Row>, n: nat)
    requires n <= |rows|
    requires forall k :: 0 <= k < n ==> RowVerdict(rows[k]) == Accepted && !HasBlankName(rows[k])
    ensures StageRows(db, rows, n).Running? && StageRows(db, rows, n).errors == []
    ensures db.suppliers <= StageRows(db, rows, n).db.suppliers
    ensures db.products <= StageRows(db, rows, n).db.products
    ensures StagedInOrder(db, StageRows(db, rows, n).db, rows, n)
  {
    if n == 0 {
      assert db.invoices[..|db.invoices|] == db.invoices;
    } else {
      var m := n - 1;
      StageRowsAllAccepted(db, rows, m);
      var st := StageRows(db, rows, m);
      StageRowsLast(db, rows, n);
      StepStagesRow(st, rows[m], m);
      var d := StageRows(db, rows, n).db;
      PrefixTransitive(db.suppliers, st.db.suppliers, d.suppliers);
      PrefixTransitive(db.products, st.db.products, d.products);
      StagedInOrderStep(db, st.db, d, rows, n);
    }
  }

  // ---------------------------------------------------------------------
  // Properties of the import

  /** How the import ends is decided by the rows alone: an exception exactly
      when an accepted row has a blank name; otherwise a rollback exactly when
      some row is rejected; otherwise a commit. */
  lemma ImportReportClassified(db: Db, rows: seq<Row>)
    ensures Import(db, rows).report == SystemError
        <==> exists k :: 0 <= k < |rows| && RowVerdict(rows[k]) == Accepted && HasBlankName(rows[k])
    ensures Import(db, rows).report.InvalidRows?
        <==> && (forall k :: 0 <= k < |rows| ==> RowVerdict(rows[k]) == Accepted ==> !HasBlankName(rows[k]))
             && (exists k :: 0 <= k < |rows| && RowVerdict(rows[k]).Rejected?)
    ensures Import(db, rows).report == Committed
        <==> forall k :: 0 <= k < |rows| ==> RowVerdict(rows[k]) == Accepted && !HasBlankName(rows[k])
  {
    StageRowsAbortedIff(db, rows, |rows|);
    ValidationErrorsEmpty(rows, |rows|);
    if StageRows(db, rows, |rows|).Running? {
      StageRowsErrors(db, rows, |rows|);
    }
  }

  /** A rolled-back import reports every rejected row and only those, by its
      1-based number, in sheet order; the store is left as it was. */
  lemma ImportRejectionReportsRows(db: Db, rows: seq<Row>)
    requires Import(db, rows).report.InvalidRows?
    ensures Import(db, rows).db == db
    ensures Import(db, rows).report.errors == ValidationErrors(rows, |rows|)
    ensures ReportsOnlyRejected(rows, |rows|, Import(db, rows).report.errors)
    ensures InRowOrder(Import(db, rows).report.errors)
    ensures ReportsEveryRejected(rows, |rows|, Import(db, rows).report.errors)
  {
    StageRowsErrors(db, rows, |rows|);
    ValidationErrorsSound(rows, |rows|);
    ValidationErrorsOrdered(rows, |rows|);
    ValidationErrorsComplete(rows, |rows|);
  }

  /** A committed import adds one invoice per row, after the existing ones and
      in row order, each with the row's values, up-to-date derived amounts and
      the supplier and product named by the row. */
  lemma ImportCommitsRowsInOrder(db: Db, rows: seq<Row>)
    requires Import(db, rows).report == Committed
    ensures StagedInOrder(db, Import(db, rows).db, rows, |rows|)
  {
    ImportReportClassified(db, rows);
    StageRowsAllAccepted(db, rows, |rows|);
  }

  /** Whatever the rows, the store after the import is consistent when it was
      before. */
  lemma ImportConsistent(db: Db, rows: seq<Row>)
    requires Consistent(db)
    ensures Consistent(Import(db, rows).db)
  {
    if StageRows(db, rows, |rows|).Running? {
      StageRowsConsistent(db, rows, |rows|);
    }
  }

  /** Three good rows and a fourth with quantity 0: nothing is stored and the
      one error names row 4. */
  lemma ImportRejectsSheetWithBadFourthRow(db: Db)
    ensures var good := Row("Acme", "Widget", "2024-01", 1000.0, 2, 1500.0);
      var bad := Row("Acme", "Widget", "2024-01", 1000.0, 0, 0.0);
      Import(db, [good, good, good, bad]) == Outcome(db, InvalidRows([RowError(4, InvalidQuantity)]))
  {
    var good := Row("Acme", "Widget", "2024-01", 1000.0, 2, 1500.0);
    var bad := Row("Acme", "Widget", "2024-01", 1000.0, 0, 0.0);
    var rows := [good, good, good, bad];
    assert !IsSpace('A') && !IsSpace('W');
    assert !HasBlankName(good) by {
      assert Strip("Acme") != [] by { StripBlank("Acme"); assert !AllSpace("Acme"); }
      assert Strip("Widget") != [] by { StripBlank("Widget"); assert !AllSpace("Widget"); }
    }
    assert RowVerdict(good) == Accepted;
    assert RowVerdict(bad) == Rejected(InvalidQuantity);
    forall k | 0 <= k < |rows| ensures RowVerdict(rows[k]) == Accepted ==> !HasBlankName(rows[k]) {
      if k < 3 {
        assert rows[k] == good;
      } else {
        assert rows[k] == bad;
      }
    }
    assert rows[0] == good && rows[1] == good && rows[2] == good && rows[3] == bad;
    assert ValidationErrors(rows, 1) == [];
    assert ValidationErrors(rows, 2) == [];
    assert ValidationErrors(rows, 3) == [];
    assert ValidationErrors(rows, 4) == [RowError(4, InvalidQuantity)];
    ImportReportClassified(db, rows);
    ImportRejectionReportsRows(db, rows);
  }

  /** The row (Acme, Widget, 2024-01, price 1000, quantity 2, paid 1500) is
      stored with total 2000 and debt 500. */
  lemma ImportSingleRowAmounts(db: Db)
    ensures var rows := [Row("Acme", "Widget", "2024-01", 1000.0, 2, 1500.0)];
      var o := Import(db, rows);
      && o.report == Committed
      && |o.db.invoices| == |db.invoices| + 1
      && o.db.invoices[|db.invoices|].totalAmount == 2000.0
      && o.db.invoices[|db.invoices|].totalDebt == 500.0
  {
    var rows := [Row("Acme", "Widget", "2024-01", 1000.0, 2, 1500.0)];
    assert !IsSpace('A') && !IsSpace('W');
    assert !HasBlankName(rows[0]) by {
      assert Strip("Acme") != [] by { StripBlank("Acme"); assert !AllSpace("Acme"); }
      assert Strip("Widget") != [] by { StripBlank("Widget"); assert !AllSpace("Widget"); }
    }
    ImportReportClassified(db, rows);
    ImportCommitsRowsInOrder(db, rows);
  }
}
