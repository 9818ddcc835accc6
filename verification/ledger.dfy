/** The supplier-invoice ledger: the three tables the invoice page works on
    (models.py:13-47), the get-or-create resolution of supplier and product
    names (pages/Invoice.py:35-64), the construction of invoice rows with
    their derived amounts and the in-place row edit (pages/Invoice.py:245-251). */
module Ledger {
  import opened Wrappers
  import opened Text
  import opened InvoiceRules

  datatype Supplier = Supplier(id: nat, name: string)

  datatype Product = Product(id: nat, name: string, supplierId: nat)

  datatype Invoice = Invoice(
    id: nat,
    supplierId: nat,
    productId: nat,
    month: string,
    price: Money,
    quantity: int,
    totalAmount: Money,
    totalPaid: Money,
    totalDebt: Money)

  /** The store: one sequence per table, in insertion order, and for each
      table the identifier the next inserted row receives. */
  datatype Db = Db(
    suppliers: seq<Supplier>,
    products: seq<Product>,
    invoices: seq<Invoice>,
    nextSupplierId: nat,
    nextProductId: nat,
    nextInvoiceId: nat)

  // ---------------------------------------------------------------------
  // Invariants of the store

  /** The derived columns agree with the inputs they are computed from. */
  predicate DerivedConsistent(inv: Invoice) {
    && inv.totalAmount == Total(inv.price, inv.quantity)
    && inv.totalDebt == inv.totalAmount - inv.totalPaid
  }

  predicate NamedSupplier(db: Db, id: nat, name: string) {
    exists i :: 0 <= i < |db.suppliers| && db.suppliers[i] == Supplier(id, name)
  }

  predicate NamedProduct(db: Db, id: nat, name: string, supplierId: nat) {
    exists i :: 0 <= i < |db.products| && db.products[i] == Product(id, name, supplierId)
  }

  predicate HasSupplierNamed(db: Db, name: string) {
    exists i :: 0 <= i < |db.suppliers| && db.suppliers[i].name == name
  }

  predicate HasProductNamed(db: Db, name: string, supplierId: nat) {
    exists i :: 0 <= i < |db.products| && db.products[i].name == name && db.products[i].supplierId == supplierId
  }

  predicate SupplierExists(db: Db, id: nat) {
    exists i :: 0 <= i < |db.suppliers| && db.suppliers[i].id == id
  }

  predicate ProductOfSupplier(db: Db, productId: nat, supplierId: nat) {
    exists i :: 0 <= i < |db.products| && db.products[i].id == productId && db.products[i].supplierId == supplierId
  }

  /** Supplier ids are fresh and distinct, and supplier names are unique
      (the unique constraint of models.py:16). */
  ghost predicate SuppliersConsistent(db: Db) {
    && (forall i :: 0 <= i < |db.suppliers| ==> db.suppliers[i].id < db.nextSupplierId)
    && (forall i, j :: 0 <= i < j < |db.suppliers| ==>
          db.suppliers[i].id != db.suppliers[j].id && db.suppliers[i].name != db.suppliers[j].name)
  }

  /** Product ids are fresh and distinct, every product belongs to a stored
      supplier, and no two products share both name and supplier. */
  ghost predicate ProductsConsistent(db: Db) {
    && (forall i :: 0 <= i < |db.products| ==>
          db.products[i].id < db.nextProductId && SupplierExists(db, db.products[i].supplierId))
    && (forall i, j :: 0 <= i < j < |db.products| ==>
          && db.products[i].id != db.products[j].id
          && (db.products[i].name != db.products[j].name || db.products[i].supplierId != db.products[j].supplierId))
  }

  /** Invoice ids are fresh and distinct, every invoice names a stored product
      of its own supplier, and its derived columns are up to date. */
  ghost predicate InvoicesConsistent(db: Db) {
    && (forall i :: 0 <= i < |db.invoices| ==>
          && db.invoices[i].id < db.nextInvoiceId
          && ProductOfSupplier(db, db.invoices[i].productId, db.invoices[i].supplierId)
          && DerivedConsistent(db.invoices[i]))
    && (forall i, j :: 0 <= i < j < |db.invoices| ==> db.invoices[i].id != db.invoices[j].id)
  }

  ghost predicate Consistent(db: Db) {
    SuppliersConsistent(db) && ProductsConsistent(db) && InvoicesConsistent(db)
  }

  /** `after` only appended dimension rows to `before` and kept its invoices. */
  ghost predicate DimensionsGrow(before: Db, after: Db) {
    && before.suppliers <= after.suppliers
    && before.products <= after.products
    && after.invoices == before.invoices
    && before.nextSupplierId <= after.nextSupplierId
    && before.nextProductId <= after.nextProductId
    && after.nextInvoiceId == before.nextInvoiceId
  }

  // ---------------------------------------------------------------------
  // Lookups by name (`query(...).filter_by(...).first()`)

  /** Index of the first supplier with exactly this name. */
  function FindSupplier(ss: seq<Supplier>, name: string): (r: Option<nat>)
    ensures r.Some? ==> r.value < |ss| && ss[r.value].name == name
    ensures r.Some? ==> forall j :: 0 <= j < r.value ==> ss[j].name != name
    ensures r.None? <==> forall j :: 0 <= j < |ss| ==> ss[j].name != name
  {
    if ss == [] then None
    else if ss[0].name == name then Some(0)
    else match FindSupplier(ss[1..], name)
      case None => None
      case Some(i) => Some(i + 1)
  }

  /** Index of the first product with exactly this name under this supplier. */
  function FindProduct(ps: seq<Product>, name: string, supplierId: nat): (r: Option<nat>)
    ensures r.Some? ==> r.value < |ps| && ps[r.value].name == name && ps[r.value].supplierId == supplierId
    ensures r.Some? ==> forall j :: 0 <= j < r.value ==> ps[j].name != name || ps[j].supplierId != supplierId
    ensures r.None? <==> forall j :: 0 <= j < |ps| ==> ps[j].name != name || ps[j].supplierId != supplierId
  {
    if ps == [] then None
    else if ps[0].name == name && ps[0].supplierId == supplierId then Some(0)
    else match FindProduct(ps[1..], name, supplierId)
      case None => None
      case Some(i) => Some(i + 1)
  }

  /** Appending a row never changes an earlier first match, and a row that
      matches becomes the first match when there was none. */
  lemma FindSupplierAppend(ss: seq<Supplier>, x: Supplier, name: string)
    ensures FindSupplier(ss + [x], name) ==
      match FindSupplier(ss, name)
      case Some(i) => Some(i)
      case None => if x.name == name then Some(|ss|) else None
  {
    var r := FindSupplier(ss + [x], name);
    match FindSupplier(ss, name)
    case Some(i) =>
      assert (ss + [x])[i] == ss[i];
    case None =>
      if x.name == name {
        assert (ss + [x])[|ss|] == x;
      }
  }

  lemma FindProductAppend(ps: seq<Product>, x: Product, name: string, supplierId: nat)
    ensures FindProduct(ps + [x], name, supplierId) ==
      match FindProduct(ps, name, supplierId)
      case Some(i) => Some(i)
      case None => if x.name == name && x.supplierId == supplierId then Some(|ps|) else None
  {
    var r := FindProduct(ps + [x], name, supplierId);
    match FindProduct(ps, name, supplierId)
    case Some(i) =>
      assert (ps + [x])[i] == ps[i];
    case None =>
      if x.name == name && x.supplierId == supplierId {
        assert (ps + [x])[|ps|] == x;
      }
  }

  // ---------------------------------------------------------------------
  // Get-or-create

  /** A store together with the identifier a get-or-create step settled on. */
  datatype Got = Got(db: Db, id: nat)

  /** The supplier half of `get_or_create_supplier_product`: the first
      supplier with this name, or a new one with a fresh id when there is none. */
  function GetOrCreateSupplier(db: Db, name: string): (g: Got)
    ensures NamedSupplier(g.db, g.id, name)
    ensures db.suppliers <= g.db.suppliers
    ensures |g.db.suppliers| <= |db.suppliers| + 1
    ensures |g.db.suppliers| == |db.suppliers| + 1 <==> !HasSupplierNamed(db, name)
    ensures g.db.products == db.products && g.db.invoices == db.invoices
    ensures g.db.nextProductId == db.nextProductId && g.db.nextInvoiceId == db.nextInvoiceId
    ensures HasSupplierNamed(db, name) ==> g.db == db
    ensures !HasSupplierNamed(db, name) ==>
      g.id == db.nextSupplierId && g.db.nextSupplierId == db.nextSupplierId + 1
  {
    match FindSupplier(db.suppliers, name)
    case Some(i) =>
      Got(db, db.suppliers[i].id)
    case None =>
      var s := Supplier(db.nextSupplierId, name);
      var db' := db.(suppliers := db.suppliers + [s], nextSupplierId := db.nextSupplierId + 1);
      assert db'.suppliers[|db.suppliers|] == s;
      Got(db', s.id)
  }

  /** The product half: the first product with this name under this supplier,
      or a new one with a fresh id when there is none. */
  function GetOrCreateProduct(db: Db, name: string, supplierId: nat): (g: Got)
    ensures NamedProduct(g.db, g.id, name, supplierId)
    ensures db.products <= g.db.products
    ensures |g.db.products| <= |db.products| + 1
    ensures |g.db.products| == |db.products| + 1 <==> !HasProductNamed(db, name, supplierId)
    ensures g.db.suppliers == db.suppliers && g.db.invoices == db.invoices
    ensures g.db.nextSupplierId == db.nextSupplierId && g.db.nextInvoiceId == db.nextInvoiceId
    ensures HasProductNamed(db, name, supplierId) ==> g.db == db
    ensures !HasProductNamed(db, name, supplierId) ==>
      g.id == db.nextProductId && g.db.nextProductId == db.nextProductId + 1
  {
    match FindProduct(db.products, name, supplierId)
    case Some(i) =>
      Got(db, db.products[i].id)
    case None =>
      var p := Product(db.nextProductId, name, supplierId);
      var db' := db.(products := db.products + [p], nextProductId := db.nextProductId + 1);
      assert db'.products[|db.products|] == p;
      Got(db', p.id)
  }

  /** Raised when a supplier or product name is blank after trimming. */
  datatype ResolveError = BlankName

  datatype Resolved = Resolved(db: Db, supplierId: nat, productId: nat)

  /** `get_or_create_supplier_product` as a function of the store: trims both
      names, refuses blank ones, then resolves the supplier and, under it, the
      product, each time creating the row when it is missing. */
  function Resolve(db: Db, supplierName: string, productName: string): (r: Result<Resolved, ResolveError>)
    ensures r.Failure? <==> Strip(supplierName) == [] || Strip(productName) == []
    ensures r.Success? ==>
      && NamedSupplier(r.value.db, r.value.supplierId, Strip(supplierName))
      && NamedProduct(r.value.db, r.value.productId, Strip(productName), r.value.supplierId)
      && db.suppliers <= r.value.db.suppliers && |r.value.db.suppliers| <= |db.suppliers| + 1
      && db.products <= r.value.db.products && |r.value.db.products| <= |db.products| + 1
      && r.value.db.invoices == db.invoices
  {
    var s := Strip(supplierName);
    var p := Strip(productName);
    if s == [] || p == [] then
      Failure(BlankName)
    else
      var gs := GetOrCreateSupplier(db, s);
      var gp := GetOrCreateProduct(gs.db, p, gs.id);
      assert NamedSupplier(gp.db, gs.id, s) by {
        var i :| 0 <= i < |gs.db.suppliers| && gs.db.suppliers[i] == Supplier(gs.id, s);
        assert gp.db.suppliers[i] == Supplier(gs.id, s);
      }
      Success(Resolved(gp.db, gs.id, gp.id))
  }

  /** Resolution creates a supplier exactly when none has the trimmed name,
      and a product exactly when the resolved supplier has none with the
      trimmed product name. */
  lemma ResolveCreatesOnlyMissing(db: Db, supplierName: string, productName: string)
    requires Resolve(db, supplierName, productName).Success?
    ensures var res := Resolve(db, supplierName, productName).value;
      && (|res.db.suppliers| == |db.suppliers| + 1 <==> !HasSupplierNamed(db, Strip(supplierName)))
      && (|res.db.products| == |db.products| + 1 <==> !HasProductNamed(db, Strip(productName), res.supplierId))
  {
    var s := Strip(supplierName);
    var p := Strip(productName);
    var gs := GetOrCreateSupplier(db, s);
    var gp := GetOrCreateProduct(gs.db, p, gs.id);
    assert HasProductNamed(gs.db, p, gs.id) <==> HasProductNamed(db, p, gs.id) by {
      if HasProductNamed(gs.db, p, gs.id) {
        var i :| 0 <= i < |gs.db.products| && gs.db.products[i].name == p && gs.db.products[i].supplierId == gs.id;
        assert db.products[i] == gs.db.products[i];
      }
    }
  }

  /** Lookup and creation only ever see the trimmed names, so padding a name
      with whitespace resolves to the same rows. */
  lemma ResolveUsesTrimmedNames(db: Db, supplierName: string, productName: string)
    ensures Resolve(db, supplierName, productName) == Resolve(db, Strip(supplierName), Strip(productName))
  {
    StripIdempotent(supplierName);
    StripIdempotent(productName);
  }

  lemma GetOrCreateSupplierIdempotent(db: Db, name: string)
    ensures var g := GetOrCreateSupplier(db, name); GetOrCreateSupplier(g.db, name) == g
  {
    if FindSupplier(db.suppliers, name).None? {
      FindSupplierAppend(db.suppliers, Supplier(db.nextSupplierId, name), name);
    }
  }

  lemma GetOrCreateProductIdempotent(db: Db, name: string, supplierId: nat)
    ensures var g := GetOrCreateProduct(db, name, supplierId); GetOrCreateProduct(g.db, name, supplierId) == g
  {
    if FindProduct(db.products, name, supplierId).None? {
      FindProductAppend(db.products, Product(db.nextProductId, name, supplierId), name, supplierId);
    }
  }

  /** Get-or-create is idempotent: calling it again with the same names on the
      store it produced returns the same supplier and product and adds no row. */
  lemma ResolveIdempotent(db: Db, supplierName: string, productName: string)
    requires Resolve(db, supplierName, productName).Success?
    ensures var res := Resolve(db, supplierName, productName).value;
      Resolve(res.db, supplierName, productName) == Success(res)
  {
    var s := Strip(supplierName);
    var p := Strip(productName);
    var gs := GetOrCreateSupplier(db, s);
    var gp := GetOrCreateProduct(gs.db, p, gs.id);
    GetOrCreateSupplierIdempotent(db, s);
    GetOrCreateProductIdempotent(gs.db, p, gs.id);
    assert FindSupplier(gp.db.suppliers, s) == FindSupplier(gs.db.suppliers, s);
    assert GetOrCreateSupplier(gp.db, s) == Got(gp.db, gs.id);
  }

  // ---------------------------------------------------------------------
  // Consistency of the store under get-or-create

  lemma GetOrCreateSupplierConsistent(db: Db, name: string)
    requires Consistent(db)
    ensures var g := GetOrCreateSupplier(db, name);
      Consistent(g.db) && DimensionsGrow(db, g.db)
  {
    var g := GetOrCreateSupplier(db, name);
    if FindSupplier(db.suppliers, name).None? {
      forall i | 0 <= i < |g.db.products|
        ensures SupplierExists(g.db, g.db.products[i].supplierId)
      {
        var j :| 0 <= j < |db.suppliers| && db.suppliers[j].id == db.products[i].supplierId;
        assert g.db.suppliers[j] == db.suppliers[j];
      }
      forall i | 0 <= i < |g.db.invoices|
        ensures ProductOfSupplier(g.db, g.db.invoices[i].productId, g.db.invoices[i].supplierId)
      {
        assert ProductOfSupplier(db, db.invoices[i].productId, db.invoices[i].supplierId);
      }
    }
  }

  /** Appending a product with a fresh id, a stored supplier and a new
      (name, supplier) pair keeps the product table consistent. */
  lemma AppendProductKeepsProducts(db: Db, p: Product)
    requires ProductsConsistent(db) && SupplierExists(db, p.supplierId)
    requires p.id == db.nextProductId
    requires forall j :: 0 <= j < |db.products| ==> db.products[j].name != p.name || db.products[j].supplierId != p.supplierId
    ensures ProductsConsistent(db.(products := db.products + [p], nextProductId := db.nextProductId + 1))
  {
    var db' := db.(products := db.products + [p], nextProductId := db.nextProductId + 1);
    forall i, j | 0 <= i < j < |db'.products|
      ensures db'.products[i].id != db'.products[j].id
      ensures db'.products[i].name != db'.products[j].name || db'.products[i].supplierId != db'.products[j].supplierId
    {
      assert db'.products[i] == db.products[i];
      if j < |db.products| {
        assert db'.products[j] == db.products[j];
      } else {
        assert db'.products[j] == p;
      }
    }
    forall i | 0 <= i < |db'.products|
      ensures db'.products[i].id < db'.nextProductId && SupplierExists(db', db'.products[i].supplierId)
    {
      if i < |db.products| {
        assert db'.products[i] == db.products[i];
      }
    }
  }

  /** Appending a product leaves every invoice's product where it was. */
  lemma AppendProductKeepsInvoices(db: Db, p: Product)
    requires InvoicesConsistent(db)
    ensures InvoicesConsistent(db.(products := db.products + [p], nextProductId := db.nextProductId + 1))
  {
    var db' := db.(products := db.products + [p], nextProductId := db.nextProductId + 1);
    forall i | 0 <= i < |db'.invoices|
      ensures ProductOfSupplier(db', db'.invoices[i].productId, db'.invoices[i].supplierId)
    {
      var j :| 0 <= j < |db.products| && db.products[j].id == db.invoices[i].productId
        && db.products[j].supplierId == db.invoices[i].supplierId;
      assert db'.products[j] == db.products[j];
    }
  }

  lemma GetOrCreateProductConsistent(db: Db, name: string, supplierId: nat)
    requires Consistent(db) && SupplierExists(db, supplierId)
    ensures var g := GetOrCreateProduct(db, name, supplierId);
      Consistent(g.db) && DimensionsGrow(db, g.db)
  {
    if FindProduct(db.products, name, supplierId).None? {
      var p := Product(db.nextProductId, name, supplierId);
      AppendProductKeepsProducts(db, p);
      AppendProductKeepsInvoices(db, p);
    }
  }

  /** Resolution keeps the store consistent and only appends dimension rows. */
  lemma ResolveConsistent(db: Db, supplierName: string, productName: string)
    requires Consistent(db)
    requires Resolve(db, supplierName, productName).Success?
    ensures var res := Resolve(db, supplierName, productName).value;
      && Consistent(res.db) && DimensionsGrow(db, res.db)
      && ProductOfSupplier(res.db, res.productId, res.supplierId)
  {
    var s := Strip(supplierName);
    var p := Strip(productName);
    var gs := GetOrCreateSupplier(db, s);
    GetOrCreateSupplierConsistent(db, s);
    assert SupplierExists(gs.db, gs.id);
    GetOrCreateProductConsistent(gs.db, p, gs.id);
  }

  /** In a consistent store the same product name resolved under two
      differently named suppliers gives two distinct suppliers and two
      distinct products. */
  lemma ResolveSameProductTwoSuppliers(db: Db, supplier1: string, supplier2: string, productName: string)
    requires Consistent(db)
    requires Resolve(db, supplier1, productName).Success?
    requires Resolve(Resolve(db, supplier1, productName).value.db, supplier2, productName).Success?
    requires Strip(supplier1) != Strip(supplier2)
    ensures var first := Resolve(db, supplier1, productName).value;
      var second := Resolve(first.db, supplier2, productName).value;
      first.supplierId != second.supplierId && first.productId != second.productId
  {
    var first := Resolve(db, supplier1, productName).value;
    var second := Resolve(first.db, supplier2, productName).value;
    ResolveConsistent(db, supplier1, productName);
    ResolveConsistent(first.db, supplier2, productName);
    NamedRowsPersist(first.db, second.db, first.supplierId, Strip(supplier1), first.productId, Strip(productName));
    DistinctNamesDistinctIds(second.db, first.supplierId, Strip(supplier1), second.supplierId, Strip(supplier2));
    DistinctSuppliersDistinctProducts(second.db, first.productId, first.supplierId, second.productId, second.supplierId, Strip(productName));
  }

  lemma NamedRowsPersist(before: Db, after: Db, supplierId: nat, supplierName: string, productId: nat, productName: string)
    requires before.suppliers <= after.suppliers && before.products <= after.products
    requires NamedSupplier(before, supplierId, supplierName)
    requires NamedProduct(before, productId, productName, supplierId)
    ensures NamedSupplier(after, supplierId, supplierName)
    ensures NamedProduct(after, productId, productName, supplierId)
  {
    var i :| 0 <= i < |before.suppliers| && before.suppliers[i] == Supplier(supplierId, supplierName);
    assert after.suppliers[i] == before.suppliers[i];
    var k :| 0 <= k < |before.products| && before.products[k] == Product(productId, productName, supplierId);
    assert after.products[k] == before.products[k];
  }

  lemma DistinctNamesDistinctIds(db: Db, id1: nat, name1: string, id2: nat, name2: string)
    requires SuppliersConsistent(db)
    requires NamedSupplier(db, id1, name1) && NamedSupplier(db, id2, name2) && name1 != name2
    ensures id1 != id2
  {
    var i1 :| 0 <= i1 < |db.suppliers| && db.suppliers[i1] == Supplier(id1, name1);
    var i2 :| 0 <= i2 < |db.suppliers| && db.suppliers[i2] == Supplier(id2, name2);
    assert i1 != i2;
  }

  lemma DistinctSuppliersDistinctProducts(db: Db, id1: nat, supplier1: nat, id2: nat, supplier2: nat, name: string)
    requires ProductsConsistent(db)
    requires NamedProduct(db, id1, name, supplier1) && NamedProduct(db, id2, name, supplier2)
    requires supplier1 != supplier2
    ensures id1 != id2
  {
    var k1 :| 0 <= k1 < |db.products| && db.products[k1] == Product(id1, name, supplier1);
    var k2 :| 0 <= k2 < |db.products| && db.products[k2] == Product(id2, name, supplier2);
    assert k1 != k2;
  }

  // ---------------------------------------------------------------------
  // Invoice rows

  /** A new invoice row: the given inputs and the amounts `calculate` derives. */
  function NewInvoice(id: nat, supplierId: nat, productId: nat, month: string,
                      price: Money, quantity: int, paid: Money): (inv: Invoice)
    ensures DerivedConsistent(inv)
    ensures inv.id == id && inv.supplierId == supplierId && inv.productId == productId
    ensures inv.month == month && inv.price == price && inv.quantity == quantity && inv.totalPaid == paid
  {
    var a := Calculate(price, quantity, paid);
    Invoice(id, supplierId, productId, month, price, quantity, a.total, paid, a.debt)
  }

  /** `session.add(Invoice(...))`: the new row gets the next invoice id. */
  function AddInvoice(db: Db, supplierId: nat, productId: nat, month: string,
                      price: Money, quantity: int, paid: Money): (r: Db)
    ensures r.invoices == db.invoices + [NewInvoice(db.nextInvoiceId, supplierId, productId, month, price, quantity, paid)]
    ensures r.suppliers == db.suppliers && r.products == db.products
    ensures r.nextInvoiceId == db.nextInvoiceId + 1
    ensures r.nextSupplierId == db.nextSupplierId && r.nextProductId == db.nextProductId
  {
    var inv := NewInvoice(db.nextInvoiceId, supplierId, productId, month, price, quantity, paid);
    db.(invoices := db.invoices + [inv], nextInvoiceId := db.nextInvoiceId + 1)
  }

  /** Adding an invoice for a stored product of its supplier keeps the store
      consistent. */
  lemma AddInvoiceConsistent(db: Db, supplierId: nat, productId: nat, month: string,
                             price: Money, quantity: int, paid: Money)
    requires Consistent(db) && ProductOfSupplier(db, productId, supplierId)
    ensures Consistent(AddInvoice(db, supplierId, productId, month, price, quantity, paid))
  {
    var r := AddInvoice(db, supplierId, productId, month, price, quantity, paid);
    var inv := NewInvoice(db.nextInvoiceId, supplierId, productId, month, price, quantity, paid);
    assert r.invoices == db.invoices + [inv];
    forall i | 0 <= i < |r.invoices|
      ensures r.invoices[i].id < r.nextInvoiceId
      ensures ProductOfSupplier(r, r.invoices[i].productId, r.invoices[i].supplierId)
      ensures DerivedConsistent(r.invoices[i])
    {
      if i < |db.invoices| {
        assert r.invoices[i] == db.invoices[i];
      } else {
        assert r.invoices[i] == inv;
      }
    }
    forall i, j | 0 <= i < j < |r.invoices|
      ensures r.invoices[i].id != r.invoices[j].id
    {
      assert r.invoices[i] == db.invoices[i];
      if j < |db.invoices| {
        assert r.invoices[j] == db.invoices[j];
      } else {
        assert r.invoices[j] == inv;
      }
    }
  }

  /** The row edit: overwrites quantity, price, paid and month and recomputes
      both derived columns from the new values. It does not validate. */
  function EditInvoice(inv: Invoice, price: Money, quantity: int, paid: Money, month: string): (r: Invoice)
    ensures DerivedConsistent(r)
    ensures r.price == price && r.quantity == quantity && r.totalPaid == paid && r.month == month
    ensures r.id == inv.id && r.supplierId == inv.supplierId && r.productId == inv.productId
  {
    var total := price * quantity as real;
    inv.(quantity := quantity, price := price, totalAmount := total, totalPaid := paid,
         totalDebt := total - paid, month := month)
  }

  /** Replaces the `k`-th invoice by its edit. */
  function EditInvoiceAt(db: Db, k: nat, price: Money, quantity: int, paid: Money, month: string): (r: Db)
    requires k < |db.invoices|
    ensures |r.invoices| == |db.invoices|
    ensures r.invoices[k] == EditInvoice(db.invoices[k], price, quantity, paid, month)
    ensures forall j :: 0 <= j < |db.invoices| && j != k ==> r.invoices[j] == db.invoices[j]
    ensures r.suppliers == db.suppliers && r.products == db.products
    ensures r.nextSupplierId == db.nextSupplierId && r.nextProductId == db.nextProductId
      && r.nextInvoiceId == db.nextInvoiceId
  {
    db.(invoices := db.invoices[k := EditInvoice(db.invoices[k], price, quantity, paid, month)])
  }

  /** Editing a row keeps every invariant of the store, whatever the new values. */
  lemma EditInvoiceAtConsistent(db: Db, k: nat, price: Money, quantity: int, paid: Money, month: string)
    requires Consistent(db) && k < |db.invoices|
    ensures Consistent(EditInvoiceAt(db, k, price, quantity, paid, month))
  {
    var r := EditInvoiceAt(db, k, price, quantity, paid, month);
    forall i | 0 <= i < |r.invoices|
      ensures ProductOfSupplier(r, r.invoices[i].productId, r.invoices[i].supplierId)
    {
      assert ProductOfSupplier(db, db.invoices[i].productId, db.invoices[i].supplierId);
    }
  }

  /** The edit path performs no validation: a negative price is stored, and the
      resulting row is one the validator would have refused. */
  lemma EditAcceptsRejectedValues(inv: Invoice)
    ensures var r := EditInvoice(inv, -1000.0, 2, 0.0, inv.month);
      r.price == -1000.0 && r.totalDebt == -2000.0
      && Validate(r.price, r.quantity, r.totalPaid) == Rejected(InvalidPrice)
  {
  }

  /** Editing only the quantity of a row from 2 to 5 recomputes the total and
      the debt from the new quantity and the row's own price and paid amount. */
  lemma EditQuantityRecomputes(inv: Invoice)
    requires inv.price == 1000.0 && inv.quantity == 2 && inv.totalPaid == 1500.0
    ensures var r := EditInvoice(inv, inv.price, 5, inv.totalPaid, inv.month);
      r.quantity == 5 && r.totalAmount == 5000.0 && r.totalDebt == 3500.0
      && r.id == inv.id && r.month == inv.month
  {
  }

  /** The debt flag of the invoice list: a row is marked when its stored debt
      is positive, which for an up-to-date row means it is not fully paid. */
  function HasDebt(inv: Invoice): (flag: bool)
    ensures DerivedConsistent(inv) ==> (flag <==> inv.totalPaid < Total(inv.price, inv.quantity))
  {
    inv.totalDebt > 0.0
  }
}
