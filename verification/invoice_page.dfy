/** The invoice page's work on its database session (pages/Invoice.py:35-252):
    get-or-create, the spreadsheet import loop, the manual-entry form and the
    row edit, each with the commit or rollback that ends it. */
module InvoicePage {
  import opened Wrappers
  import opened Text
  import opened InvoiceRules
  import opened Ledger
  import opened BatchImport

  /** How the manual-entry form ends: saved, refused by the validator (nothing
      is touched), or refused while saving (the session is rolled back). */
  datatype AddReport = Added | NotValid(error: ValidationError) | SaveFailed

  datatype AddOutcome = AddOutcome(db: Db, report: AddReport)

  /** The manual-entry form on a session with nothing pending: validate first;
      then get-or-create, add the invoice and commit; a blank name raises and
      the session is rolled back. */
  function ManualAdd(db: Db, supplierName: string, productName: string, month: string,
                     price: Money, quantity: int, paid: Money): (o: AddOutcome)
    ensures o.report == NotValid(InvalidPrice) <==> price < 0.0
    ensures o.report.NotValid? <==> !WellFormedAmounts(price, quantity, paid)
    ensures o.report.NotValid? ==> o.report.error == Validate(price, quantity, paid).error
    ensures o.report == SaveFailed
        <==> WellFormedAmounts(price, quantity, paid) && (Strip(supplierName) == [] || Strip(productName) == [])
    ensures o.report != Added ==> o.db == db
    ensures o.report == Added ==>
      && |o.db.invoices| == |db.invoices| + 1
      && db.invoices <= o.db.invoices
      && StagedFor(o.db, o.db.invoices[|db.invoices|], Row(supplierName, productName, month, price, quantity, paid))
  {
    match Validate(price, quantity, paid)
    case Rejected(e) => AddOutcome(db, NotValid(e))
    case Accepted =>
      match Resolve(db, supplierName, productName)
      case Failure(_) => AddOutcome(db, SaveFailed)
      case Success(res) =>
        var d := AddInvoice(res.db, res.supplierId, res.productId, month, price, quantity, paid);
        NamedRowsPersist(res.db, d, res.supplierId, Strip(supplierName), res.productId, Strip(productName));
        AddOutcome(d, Added)
  }

  /** The form does what importing a sheet of just that one row does, except
      that a refused row is reported without a row number. */
  lemma ManualAddIsOneRowImport(db: Db, supplierName: string, productName: string, month: string,
                                price: Money, quantity: int, paid: Money)
    ensures var row := Row(supplierName, productName, month, price, quantity, paid);
      var o := ManualAdd(db, supplierName, productName, month, price, quantity, paid);
      var i := Import(db, [row]);
      && o.db == i.db
      && (o.report == Added <==> i.report == Committed)
      && (o.report == SaveFailed <==> i.report == SystemError)
      && (o.report.NotValid? <==> i.report.InvalidRows?)
      && (o.report.NotValid? ==> i.report.errors == [RowError(1, o.report.error)])
  {
    var row := Row(supplierName, productName, month, price, quantity, paid);
    StageRowsLast(db, [row], 1);
  }

  /** A consistent store stays consistent through the form. */
  lemma ManualAddConsistent(db: Db, supplierName: string, productName: string, month: string,
                            price: Money, quantity: int, paid: Money)
    requires Consistent(db)
    ensures Consistent(ManualAdd(db, supplierName, productName, month, price, quantity, paid).db)
  {
    if Validate(price, quantity, paid) == Accepted && Resolve(db, supplierName, productName).Success? {
      var res := Resolve(db, supplierName, productName).value;
      ResolveConsistent(db, supplierName, productName);
      AddInvoiceConsistent(res.db, res.supplierId, res.productId, month, price, quantity, paid);
    }
  }

  /** The stage after row `i` is that row's step on the stage before it, and
      when that step raises, the whole loop ends aborted. */
  lemma StageRowsNext(db: Db, rows: seq<Row>, i: nat)
    requires i < |rows|
    ensures BatchImport.StageRows(db, rows, i + 1) == Step(BatchImport.StageRows(db, rows, i), rows[i], i)
    ensures Step(BatchImport.StageRows(db, rows, i), rows[i], i).Aborted? ==>
      BatchImport.StageRows(db, rows, |rows|) == Aborted
  {
    var n := i + 1;
    StageRowsLast(db, rows, n);
    if Step(BatchImport.StageRows(db, rows, i), rows[i], i).Aborted? {
      AbortedStaysAborted(db, rows, n, |rows|);
    }
  }

  /** A database session: `current` is the store as the session sees it, with
      its pending (flushed but uncommitted) changes; `committed` is the store
      as the last commit left it. */
  class Session {
    var current: Db
    var committed: Db

    /** The store is consistent both as seen and as committed. */
    ghost predicate Valid()
      reads this
    {
      Consistent(current) && Consistent(committed)
    }

    /** A fresh session on the stored tables: nothing pending, and valid when
        the stored tables are consistent. */
    constructor(db: Db)
      ensures current == db && committed == db
      ensures Consistent(db) ==> Valid()
    {
      current := db;
      committed := db;
    }

    /** `session.commit()`: the pending changes become permanent. */
    method Commit()
      modifies this
      ensures current == old(current) && committed == old(current)
      ensures old(Valid()) ==> Valid()
    {
      committed := current;
    }

    /** `session.rollback()`: the pending changes are discarded. */
    method Rollback()
      modifies this
      ensures current == old(committed) && committed == old(committed)
      ensures old(Valid()) ==> Valid()
    {
      current := committed;
    }

    /** `get_or_create_supplier_product`: trims the names, raises on a blank
        one, then finds or creates (and flushes) the supplier and, under it,
        the product. */
    method GetOrCreateSupplierProduct(supplierName: string, productName: string)
      returns (r: Result<(nat, nat), ResolveError>)
      modifies this
      ensures committed == old(committed)
      ensures match Resolve(old(current), supplierName, productName)
        case Failure(e) => r == Failure(e) && current == old(current)
        case Success(res) => r == Success((res.supplierId, res.productId)) && current == res.db
    {
      var s := Strip(supplierName);
      var p := Strip(productName);
      if s == [] || p == [] {
        return Failure(BlankName);
      }
      var supplierId: nat;
      match FindSupplier(current.suppliers, s) {
        case Some(i) =>
          supplierId := current.suppliers[i].id;
        case None =>
          supplierId := current.nextSupplierId;
          current := current.(suppliers := current.suppliers + [Supplier(supplierId, s)],
                              nextSupplierId := supplierId + 1);
      }
      var productId: nat;
      match FindProduct(current.products, p, supplierId) {
        case Some(i) =>
          productId := current.products[i].id;
        case None =>
          productId := current.nextProductId;
          current := current.(products := current.products + [Product(productId, p, supplierId)],
                              nextProductId := productId + 1);
      }
      r := Success((supplierId, productId));
    }

    /** `session.add(Invoice(...))` with the amounts `calculate` derives; the
        new row gets the next invoice id. */
    method AddInvoiceRow(supplierId: nat, productId: nat, month: string,
                         price: Money, quantity: int, paid: Money)
      modifies this
      ensures committed == old(committed)
      ensures current == AddInvoice(old(current), supplierId, productId, month, price, quantity, paid)
      ensures old(Valid()) && ProductOfSupplier(old(current), productId, supplierId) ==> Valid()
    {
      var amounts := Calculate(price, quantity, paid);
      var inv := Invoice(current.nextInvoiceId, supplierId, productId, month, price, quantity,
                         amounts.total, paid, amounts.debt);
      current := current.(invoices := current.invoices + [inv], nextInvoiceId := current.nextInvoiceId + 1);
      if old(Valid()) && ProductOfSupplier(old(current), productId, supplierId) {
        AddInvoiceConsistent(old(current), supplierId, productId, month, price, quantity, paid);
      }
    }

    /** One pass of the import loop on the row at 0-based `i`: a row the
        validator refuses adds its error; otherwise the row is resolved and
        its invoice staged, unless get-or-create raises. */
    method StageRow(ghost start: Db, rows: seq<Row>, i: nat, errors: seq<RowError>)
      returns (errs: seq<RowError>, raised: bool)
      requires i < |rows|
      requires BatchImport.StageRows(start, rows, i) == Running(current, errors)
      modifies this
      ensures committed == old(committed)
      ensures raised ==> BatchImport.StageRows(start, rows, |rows|) == Aborted
      ensures !raised ==> BatchImport.StageRows(start, rows, i + 1) == Running(current, errs)
      ensures old(Valid()) ==> Valid()
    {
      StageRowsNext(start, rows, i);
      ghost var before := current;
      var row := rows[i];
      var verdict := Validate(row.price, row.quantity, row.paid);
      if verdict.Rejected? {
        return errors + [RowError(i + 1, verdict.error)], false;
      }
      var got := GetOrCreateSupplierProduct(row.supplierName, row.productName);
      if got.Failure? {
        return errors, true;
      }
      if old(Valid()) {
        ResolveConsistent(before, row.supplierName, row.productName);
      }
      AddInvoiceRow(got.value.0, got.value.1, row.month, row.price, row.quantity, row.paid);
      StepAcceptedRow(before, errors, row, i);
      errs, raised := errors, false;
    }

    /** The loop of the import button: runs `StageRow` on every row in sheet
        order, and stops at the first exception. */
    method StageRows(rows: seq<Row>) returns (errors: seq<RowError>, raised: bool)
      modifies this
      ensures committed == old(committed)
      ensures BatchImport.StageRows(old(current), rows, |rows|)
        == if raised then Aborted else Running(current, errors)
    {
      ghost var start := current;
      errors, raised := [], false;
      var i := 0;
      while i < |rows| && !raised
        invariant 0 <= i <= |rows|
        invariant raised ==> BatchImport.StageRows(start, rows, |rows|) == Aborted
        invariant !raised ==> BatchImport.StageRows(start, rows, i) == Running(current, errors)
        invariant committed == old(committed)
      {
        errors, raised := StageRow(start, rows, i, errors);
        i := i + 1;
      }
    }

    /** The import button: every row is validated and, when valid, resolved
        and staged; the session is committed only when no row failed, and
        rolled back when one did or when an exception ended the loop. */
    method ImportRows(rows: seq<Row>) returns (report: Report)
      modifies this
      ensures report == Import(old(current), rows).report
      ensures report == Committed ==> current == committed && current == Import(old(current), rows).db
      ensures report != Committed ==> current == old(committed) && committed == old(committed)
      ensures old(Valid()) ==> Valid()
    {
      ghost var start := current;
      var errors, raised := StageRows(rows);
      if raised {
        Rollback();
        return SystemError;
      }
      if errors != [] {
        Rollback();
        report := InvalidRows(errors);
      } else {
        Commit();
        report := Committed;
        if old(Valid()) {
          ImportConsistent(start, rows);
        }
      }
    }

    /** The manual-entry form: a row refused by the validator touches nothing;
        otherwise the invoice is added and committed, or the session is rolled
        back when get-or-create raises. */
    method AddManually(supplierName: string, productName: string, month: string,
                       price: Money, quantity: int, paid: Money) returns (report: AddReport)
      modifies this
      ensures report == ManualAdd(old(current), supplierName, productName, month, price, quantity, paid).report
      ensures report.NotValid? ==> current == old(current) && committed == old(committed)
      ensures report == Added ==>
        current == committed && current == ManualAdd(old(current), supplierName, productName, month, price, quantity, paid).db
      ensures report == SaveFailed ==> current == old(committed) && committed == old(committed)
      ensures old(Valid()) ==> Valid()
    {
      var verdict := Validate(price, quantity, paid);
      if verdict.Rejected? {
        return NotValid(verdict.error);
      }
      ghost var start := current;
      var got := GetOrCreateSupplierProduct(supplierName, productName);
      if got.Failure? {
        Rollback();
        return SaveFailed;
      }
      AddInvoiceRow(got.value.0, got.value.1, month, price, quantity, paid);
      Commit();
      report := Added;
      if old(Valid()) {
        ManualAddConsistent(start, supplierName, productName, month, price, quantity, paid);
      }
    }

    /** The edit button of the `k`-th invoice: overwrites quantity, price, paid
        and month, recomputes the total and the debt, and commits. The new
        values are not validated. */
    method EditRow(k: nat, newPrice: Money, newQuantity: int, newPaid: Money, newMonth: string)
      requires k < |current.invoices|
      modifies this
      ensures current == committed
      ensures current == EditInvoiceAt(old(current), k, newPrice, newQuantity, newPaid, newMonth)
      ensures old(Valid()) ==> Valid()
    {
      ghost var start := current;
      var inv := current.invoices[k];
      inv := inv.(quantity := newQuantity);
      inv := inv.(price := newPrice);
      inv := inv.(totalAmount := newPrice * newQuantity as real);
      inv := inv.(totalPaid := newPaid);
      inv := inv.(totalDebt := inv.totalAmount - newPaid);
      inv := inv.(month := newMonth);
      current := current.(invoices := current.invoices[k := inv]);
      Commit();
      if old(Valid()) {
        EditInvoiceAtConsistent(start, k, newPrice, newQuantity, newPaid, newMonth);
      }
    }
  }
}
