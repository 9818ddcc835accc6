# Supplier-invoice ledger

A Dafny model of the supplier-invoice page of a small back-office web
application, and of the overdue check on its document-reminder page.

The invoice page keeps three tables: suppliers, products (each belonging to
one supplier) and invoices. An invoice row holds a supplier, a product, a
month, a unit price, a quantity, the amount paid, and two derived columns:
the total (`price * quantity`) and the debt (`total - paid`). The page has
four entry points, all working on one database session:

- a spreadsheet import that validates every row and resolves its supplier
  and product names, creating them when missing. It commits only when no
  row was rejected and nothing raised; otherwise it rolls everything back.
  Each rejected row is reported by its 1-based row number.
- a manual-entry form that validates first, then resolves the names, adds
  the invoice and commits.
- a per-row edit that overwrites price, quantity, paid and month,
  recomputes both derived columns and commits, without validating.
- a debt flag on each listed row whose stored debt is positive.

The reminder page raises an alert when some document's deadline has passed
and its status is not "Hoàn thành" (completed).

Modules:

- `Wrappers`: `Option` and `Result`.
- `Text`: Python's `str.strip()`.
- `InvoiceRules`: the validator and the derived-amount calculation.
- `Ledger`: the tables as values, the invariants a consistent store keeps,
  get-or-create, invoice construction and the row edit.
- `BatchImport`: the meaning of the import loop as a function of the store
  and the rows.
- `InvoicePage`: the page's session. A `Session` class has `current` (what
  the session sees, including flushed but uncommitted rows) and `committed`.
  Its methods run get-or-create, the import loop, the form and the edit step
  by step, and each is proved equal to the functional definition.
- `Reminder`: the `late` list and the alert.

The row edit stores the new values without validating them
(pages/Invoice.py:245-252). `Ledger.EditAcceptsRejectedValues` shows a
negative price being stored.

## Model

| member | source | states |
|---|---|---|
| Text.StripEnds | pages/Invoice.py:36-37 | a stripped name is no longer than the name and has no whitespace at either end |
| Text.StripBlank | pages/Invoice.py:36-40 | a name strips to nothing exactly when it is all whitespace, which is when get-or-create raises |
| Text.StripIdempotent | pages/Invoice.py:36-37 | stripping a stripped name changes nothing |
| Text.StripLeadingSuffix | pages/Invoice.py:36-37 | leading strip drops only whitespace and keeps a suffix that starts with a non-space |
| Text.StripTrailingPrefix | pages/Invoice.py:36-37 | trailing strip drops only whitespace and keeps a prefix that ends with a non-space |
| Text.StripUnpadded | pages/Invoice.py:36-37 | a name with no whitespace at its ends is its own strip |
| InvoiceRules.Validate | pages/Invoice.py:23-32 | accepts exactly when price >= 0, quantity > 0, paid >= 0 and paid <= price * quantity |
| InvoiceRules.ValidateFirstFailureDecides | pages/Invoice.py:23-32 | each of the four errors is reported exactly when its own check fails and every earlier check passed |
| InvoiceRules.Message | pages/Invoice.py:25-32 | the message is empty exactly for an accepted verdict |
| InvoiceRules.MessagesDistinct | pages/Invoice.py:25-31 | distinct verdicts have distinct messages |
| InvoiceRules.Calculate | pages/Invoice.py:17-20 | the total is price * quantity and total minus debt is the amount paid |
| InvoiceRules.AcceptedDebtBounds | pages/Invoice.py:17-32 | for accepted amounts 0 <= debt <= total, and the debt is zero exactly when everything is paid |
| InvoiceRules.OverPaymentIsNegativeDebt | pages/Invoice.py:17-32 | once the other checks pass, an over-payment is rejected exactly when the debt would be negative |
| Ledger.FindSupplier | pages/Invoice.py:42-44 | the result is the first supplier with that exact name, or none when no supplier has it |
| Ledger.FindProduct | pages/Invoice.py:51-54 | the result is the first product with that name under that supplier, or none when there is none |
| Ledger.FindSupplierAppend | pages/Invoice.py:46-49 | appending a supplier keeps an earlier first match, and a matching new row becomes the first match |
| Ledger.FindProductAppend | pages/Invoice.py:56-62 | appending a product keeps an earlier first match, and a matching new row becomes the first match |
| Ledger.GetOrCreateSupplier | pages/Invoice.py:42-49 | the result names a supplier with that name. When one existed, the store is unchanged; otherwise one row is appended with the next supplier id, and that counter advances by one. Products, invoices and the other counters are unchanged |
| Ledger.GetOrCreateProduct | pages/Invoice.py:51-62 | the result names a product with that name under the supplier. When one existed, the store is unchanged; otherwise one row is appended with the next product id, and that counter advances by one. Suppliers, invoices and the other counters are unchanged |
| Ledger.Resolve | pages/Invoice.py:35-64 | fails exactly when a trimmed name is blank; on success it names a supplier and a product under it with the trimmed names, only appends dimension rows (at most one each) and leaves invoices alone |
| Ledger.ResolveCreatesOnlyMissing | pages/Invoice.py:42-62 | a supplier is created exactly when none had the trimmed name, and a product exactly when the supplier had none with the trimmed product name |
| Ledger.ResolveUsesTrimmedNames | pages/Invoice.py:36-37 | padding either name with whitespace resolves to the same rows |
| Ledger.GetOrCreateSupplierIdempotent | pages/Invoice.py:42-49 | a second get-or-create of the same supplier returns the same id and store |
| Ledger.GetOrCreateProductIdempotent | pages/Invoice.py:51-62 | a second get-or-create of the same product returns the same id and store |
| Ledger.ResolveIdempotent | pages/Invoice.py:35-64 | resolving the same names again on the resulting store returns the same ids and adds no row |
| Ledger.GetOrCreateSupplierConsistent | models.py:13-19 | creating a supplier keeps a consistent store consistent: fresh, distinct ids and unique names |
| Ledger.AppendProductKeepsProducts | models.py:21-28 | appending a fresh product with a stored supplier and a new (name, supplier) pair keeps the product table consistent |
| Ledger.AppendProductKeepsInvoices | models.py:30-47 | appending a product leaves every invoice pointing at a stored product of its supplier |
| Ledger.GetOrCreateProductConsistent | pages/Invoice.py:51-62 | creating a product under a stored supplier keeps the store consistent and only appends rows |
| Ledger.ResolveConsistent | pages/Invoice.py:35-64 | resolution keeps the store consistent, only appends dimension rows, and the product belongs to the supplier |
| Ledger.ResolveSameProductTwoSuppliers | pages/Invoice.py:51-62 | the same product name under two differently named suppliers gives two suppliers and two products |
| Ledger.NamedRowsPersist | pages/Invoice.py:42-62 | appending rows never loses a named supplier or product |
| Ledger.DistinctNamesDistinctIds | models.py:13-16 | in a consistent store, suppliers with different names have different ids |
| Ledger.DistinctSuppliersDistinctProducts | models.py:21-25 | in a consistent store, products of different suppliers have different ids |
| Ledger.NewInvoice | pages/Invoice.py:97-112 | the new row carries its inputs and derived amounts that agree with them |
| Ledger.AddInvoice | pages/Invoice.py:103-112 | exactly one invoice is appended, with the next invoice id, and that counter advances by one. Suppliers, products and their counters are unchanged |
| Ledger.AddInvoiceConsistent | pages/Invoice.py:103-112 | adding an invoice for a stored product of its supplier keeps the store consistent |
| Ledger.EditInvoice | pages/Invoice.py:246-251 | the edited row has the new price, quantity, paid and month, derived columns that agree with them, and its id, supplier and product |
| Ledger.EditInvoiceAt | pages/Invoice.py:245-251 | only the k-th invoice changes, to its edit. Suppliers, products and all three id counters are unchanged |
| Ledger.EditInvoiceAtConsistent | pages/Invoice.py:245-252 | an edit keeps the store consistent, whatever the new values |
| Ledger.EditAcceptsRejectedValues | pages/Invoice.py:245-252 | the edit stores a negative price that the validator would refuse |
| Ledger.EditQuantityRecomputes | pages/Invoice.py:246-250 | editing quantity 2 to 5 at price 1000 and paid 1500 gives total 5000 and debt 3500 |
| Ledger.HasDebt | pages/Invoice.py:208-209 | on an up-to-date row the flag is raised exactly when less than the total has been paid |
| BatchImport.Step | pages/Invoice.py:81-112 | a rejected row only appends its 1-based error; the step raises exactly when the row is accepted and has a blank name; an accepted row appends one invoice and no error |
| BatchImport.Import | pages/Invoice.py:78-126 | a rolled-back import leaves the store as it was, and a rollback for invalid rows reports at least one error |
| BatchImport.RaisesBeforeIff | pages/Invoice.py:81-95 | the recursive "some row raises" agrees with its quantified form |
| BatchImport.RaisesBeforeGrows | pages/Invoice.py:81-95 | once some row has raised, it has raised among any longer prefix |
| BatchImport.StageRowsAborted | pages/Invoice.py:80-126 | the loop has raised after n rows exactly when one of those rows raises |
| BatchImport.AbortedStaysAborted | pages/Invoice.py:80-126 | an exception ends the loop: no later row undoes it |
| BatchImport.StageRowsAbortedIff | pages/Invoice.py:80-126 | the loop raises exactly when some accepted row has a blank name |
| BatchImport.StageRowsErrors | pages/Invoice.py:81-89 | while the loop runs, its error list is exactly the validator's errors tagged by row number |
| BatchImport.StepErrors | pages/Invoice.py:81-89 | one more row appends that row's error, if any |
| BatchImport.RowErrors | pages/Invoice.py:87-89 | a row contributes no error exactly when the validator accepts it |
| BatchImport.ValidationErrorsSound | pages/Invoice.py:87-88 | every reported error names, by its 1-based number, a row the validator rejects with that error |
| BatchImport.ValidationErrorsOrdered | pages/Invoice.py:81-88 | errors are in row order, each row at most once |
| BatchImport.ValidationErrorsComplete | pages/Invoice.py:87-88 | every rejected row has its error reported |
| BatchImport.ValidationErrorsEmpty | pages/Invoice.py:81-89 | no error is reported exactly when every row is accepted |
| BatchImport.StageRowsKeepsEarlierInvoices | pages/Invoice.py:103-112 | staging only appends invoices |
| BatchImport.StageRowsConsistent | pages/Invoice.py:81-112 | staging keeps the store consistent |
| BatchImport.StepConsistent | pages/Invoice.py:81-112 | one step of the loop keeps the store consistent |
| BatchImport.StagedForPersists | pages/Invoice.py:91-112 | a staged invoice keeps referring to its row's supplier and product as later rows append dimension rows |
| BatchImport.StepStagesRow | pages/Invoice.py:91-112 | an accepted row with both names stages one invoice for itself, after the earlier ones, and adds no error |
| BatchImport.StagedInOrderStep | pages/Invoice.py:81-112 | appending the invoice of row n to a store staged in order for n - 1 rows gives one staged in order for n rows |
| BatchImport.StageRowsAllAccepted | pages/Invoice.py:81-112 | when every row is accepted and named, the loop runs through with no error and stages one invoice per row in order |
| BatchImport.ImportReportClassified | pages/Invoice.py:78-126 | system error exactly when an accepted row has a blank name; otherwise rollback exactly when some row is rejected; commit exactly when every row is accepted and named |
| BatchImport.ImportRejectionReportsRows | pages/Invoice.py:114-118 | a rollback for invalid rows leaves the store unchanged and reports every rejected row and only those, in row order, by 1-based number |
| BatchImport.ImportCommitsRowsInOrder | pages/Invoice.py:114-121 | a committed import appends one invoice per row, in row order, each with its row's values, derived amounts and named supplier and product |
| BatchImport.ImportConsistent | pages/Invoice.py:78-126 | the store after the import is consistent whenever it was before |
| BatchImport.ImportRejectsSheetWithBadFourthRow | pages/Invoice.py:78-118 | three valid rows and a fourth with quantity 0 store nothing and report one error, for row 4 |
| BatchImport.ImportSingleRowAmounts | pages/Invoice.py:97-121 | one row at price 1000, quantity 2 and paid 1500 is committed with total 2000 and debt 500 |
| InvoicePage.ManualAdd | pages/Invoice.py:162-192 | refused by the validator (with its error) exactly when the amounts are ill-formed; save fails exactly when they are well-formed and a name is blank; a refused add changes nothing; a saved add appends one invoice for the entered row |
| InvoicePage.ManualAddIsOneRowImport | pages/Invoice.py:162-192 | the form ends like importing a one-row sheet: same store, save ↔ commit, save failure ↔ system error, refusal ↔ invalid rows with the error for row 1 |
| InvoicePage.ManualAddConsistent | pages/Invoice.py:162-192 | the form keeps the store consistent |
| InvoicePage.StageRowsNext | pages/Invoice.py:80-126 | the state after row i is that row's step, and a step that raises ends the whole loop aborted |
| InvoicePage.Session.constructor | pages/Invoice.py:13-14 | a new session sees the stored tables with nothing pending, and is valid when they are consistent |
| InvoicePage.Session.Commit | pages/Invoice.py:120 | the pending changes become the committed store, and validity is kept |
| InvoicePage.Session.Rollback | pages/Invoice.py:115 | the session goes back to the committed store, and validity is kept |
| InvoicePage.Session.GetOrCreateSupplierProduct | pages/Invoice.py:35-64 | the ids returned and the new session state are those `Ledger.Resolve` defines; a blank name raises and changes nothing |
| InvoicePage.Session.AddInvoiceRow | pages/Invoice.py:97-112 | the session state becomes `Ledger.AddInvoice` of the old one, and validity is kept when the product belongs to the supplier |
| InvoicePage.Session.StageRow | pages/Invoice.py:82-112 | one pass of the loop takes the state after row i to the state after row i + 1, or leaves the whole loop aborted, and validity is kept |
| InvoicePage.Session.StageRows | pages/Invoice.py:80-112 | the loop ends in exactly the state `BatchImport.StageRows` defines for all rows |
| InvoicePage.Session.ImportRows | pages/Invoice.py:77-126 | the report is `BatchImport.Import`'s; a commit leaves the imported store committed, anything else rolls back to the committed store; consistency is kept |
| InvoicePage.Session.AddManually | pages/Invoice.py:162-192 | the report is `ManualAdd`'s; a validator refusal touches nothing, a save commits `ManualAdd`'s store, a failed save rolls back; consistency is kept |
| InvoicePage.Session.EditRow | pages/Invoice.py:245-253 | the committed store becomes `Ledger.EditInvoiceAt` of the old one, and consistency is kept |
| Reminder.Late | pages/Reminder.py:30 | the late list keeps, in stored order, exactly the documents with a past deadline and a status other than "Hoàn thành", each as many times as it is stored |
| Reminder.OverdueAlert | pages/Reminder.py:31-32 | the alert is raised exactly when some document is late |
| Reminder.LateIdempotent | pages/Reminder.py:30 | filtering the late list again changes nothing |

## Left out

- Money: prices and amounts are exact `real`s, but the schema stores them as floating point. Rounding, NaN and infinities are not modelled.
- Integer width: quantities are unbounded `int`s.
- Spreadsheet reading: the reading of the workbook and its column mapping are not modelled. Rows arrive as `BatchImport.Row` values in sheet order, and row numbers are the 0-based frame index plus one. A cell that is not a string (an empty name read as NaN) raises in the source; the model only has the blank-after-trimming case.
- Exceptions: the only exception modelled is the ValueError for a blank name. It becomes `SystemError` in the import and `SaveFailed` in the form. Store failures and other exceptions are not modelled.
- Messages: import errors are kept as (row number, error) pairs. The text "Dòng {n}: {message}" is not built; `InvoiceRules.Message` gives the message part.
- User interface: widgets, page layout and the form's input ranges (minimum price 0, minimum quantity 1) are not modelled. The form model accepts any numbers and relies on the validator.
- Invoice listing: the join and its newest-first order are not modelled. Only the debt flag of each listed row is (`Ledger.HasDebt`).
- Deletion: row deletion (pages/Invoice.py:255-259) is not modelled.
- Identifiers: ids are per-table counters, and a flush or an add takes the next one. The database's own id allocation is not modelled.
- Aliasing: invoices are values, not shared ORM objects; an edit replaces the k-th row of the store.
- Reminder page: adding a document (pages/Reminder.py:17-25) and the table display are not modelled. Dates are day numbers, and "today" is a parameter instead of the clock.
- Reminder urgency: no "upcoming" urgency exists in the code, so none is modelled.
- Other pages: the finance and to-do pages and the departments table are not part of this model.
