# Transaction import and balance, modelled in Dafny

This project models the two pieces of logic of a small personal-finance
service (goStack-desafio6).

**`ImportTransactionsService.execute`** imports a CSV file of transactions. For each record (the header line already skipped) it:
- trims every cell with `String.prototype.trim`;
- drops the record when its title, type or value is blank;
- otherwise keeps it and collects its category title.

Then it:
- de-duplicates the collected titles, keeping first-seen order;
- looks the titles up in the category store in one batched `find`;
- creates the categories whose titles were not found;
- binds every kept record to the category of its title, searching `created ++ found`;
- saves the categories, then the transactions, then deletes the file.

**`TransactionsRepository.getBalance`** folds the stored transactions into an income sum and an outcome sum:
- a transaction of any other type is ignored;
- `total = income - outcome`.

The modules follow the program:

| module | file | what it holds |
|---|---|---|
| `Text` | `text.dfy` | `String.prototype.trim` over ECMAScript white space and line terminators |
| `Entities` | `entities.dfy` | `Category`, `Transaction<V>`, `Option` |
| `CsvRows` | `csv_rows.dfy` | the `data` handler, as a loop method (`CollectRows`) specified by the recursive function `KeptRows` |
| `CategoryResolution` | `category_resolution.dfy` | the pure list steps: de-duplication, lookup, new titles, and the join of records to categories |
| `ImportTransactions` | `import_transactions.dfy` | the store, the effect log, `execute` as a method (`Execute`), and the function `ImportOutcome` that specifies it |
| `Balance` | `balance.dfy` | the `reduce`, as a loop method (`GetBalance`) specified by the recursive `SumOf` |

`ImportOutcome` is split in two:
- `PlanImport` says what the import computes from the records and the store.
- `Run` says which steps happen before a failing one stops the pipeline.

The persistence store is a value, `Store`, holding the categories, the transactions and the next identity to hand out. `execute` returns it together with a log of its four effects: find, save categories, save transactions, unlink.

Whether the lookup, either save or the file deletion fails is decided by the database or the file system. Here it is a parameter, `fault`.

## Model

| member | source | states |
|---|---|---|
| `Text.LeadingSpaces` | src/services/ImportTransactionsService.ts:31-33 | the number of white-space characters `trim` removes at the front: all of them are white space, and the next one is not |
| `Text.TrailingSpaces` | src/services/ImportTransactionsService.ts:31-33 | the same at the back |
| `Text.Trim` | src/services/ImportTransactionsService.ts:31-33 | a trimmed cell is no longer than the cell and neither starts nor ends with white space |
| `Text.TrimSlice` | src/services/ImportTransactionsService.ts:31-33 | a trimmed cell is a contiguous slice of the cell, and everything cut off on either side is white space |
| `Text.TrimCharacterised` | src/services/ImportTransactionsService.ts:31-33 | for any split of a cell into white space, a middle with no white space at its edges, and white space, trimming yields that middle |
| `Text.TrimIdempotent` | src/services/ImportTransactionsService.ts:31-33 | trimming twice is trimming once |
| `Entities.Titles` | src/services/ImportTransactionsService.ts:55-57 | `existing.map(c => c.title)`: one title per category, in order |
| `Entities.TitleOfMember` | src/services/ImportTransactionsService.ts:55-57 | the title of any listed category is among the listed titles |
| `CsvRows.ParseRow` | src/services/ImportTransactionsService.ts:31-38 | a record is kept iff its trimmed cells 0, 1 and 2 are all non-empty; a blank category does not drop it; a kept record's fields are the trimmed cells 0-3 and carry no edge white space |
| `CsvRows.CategoryTitles` | src/services/ImportTransactionsService.ts:37 | one collected title per kept record, namely its category, in order |
| `CsvRows.KeptRows` | src/services/ImportTransactionsService.ts:27-39 | the records the handler keeps, in input order: no more than there are records, each with a non-blank title, type and value; characterised by `KeptRowsComplete`, `KeptRowsSound` and `BlankRowIgnored` |
| `CsvRows.CollectRows` | src/services/ImportTransactionsService.ts:27-39 | the handler loop over all records yields exactly `KeptRows(rows)` and their category titles, in input order |
| `CsvRows.KeptRowsStep` | src/services/ImportTransactionsService.ts:30-39 | handling one more record extends the kept records by that record's parse, if any |
| `CsvRows.KeptRowsAppend` | src/services/ImportTransactionsService.ts:30-39 | records are handled independently: the kept records of `a + b` are those of `a` followed by those of `b` |
| `CsvRows.BlankRowIgnored` | src/services/ImportTransactionsService.ts:35-38 | a record whose trimmed title, type or value is empty contributes neither a kept record nor a category title, wherever it stands |
| `CsvRows.BlankRowKeepsNothing` | src/services/ImportTransactionsService.ts:35-38 | a record whose trimmed title, type or value is empty, handled on its own, keeps nothing |
| `CsvRows.KeptRowsComplete` | src/services/ImportTransactionsService.ts:35-38 | every record that parses is kept |
| `CsvRows.KeptRowsSound` | src/services/ImportTransactionsService.ts:35-38 | every kept record is the parse of some input record |
| `CsvRows.KeptAppend` | src/services/ImportTransactionsService.ts:30-39 | keeping the present entries distributes over concatenation |
| `CsvRows.KeptComplete` | src/services/ImportTransactionsService.ts:35-38 | every present entry is kept |
| `CsvRows.KeptSound` | src/services/ImportTransactionsService.ts:35-38 | every kept entry is present at some position of the input |
| `CategoryResolution.IndexOf` | src/services/ImportTransactionsService.ts:44 | `self.indexOf(value)`: -1 iff the value is absent, otherwise the position of its first occurrence |
| `CategoryResolution.IndexOfBefore` | src/services/ImportTransactionsService.ts:44 | a value occurring in a prefix has its first occurrence inside that prefix |
| `CategoryResolution.FirstOccurrences` | src/services/ImportTransactionsService.ts:43-45 | the filter over a prefix has no duplicates, has the prefix's elements, and keeps first-occurrence order |
| `CategoryResolution.FirstOccurrencesStep` | src/services/ImportTransactionsService.ts:43-45 | one step of the filter keeps the `n`-th title exactly when `indexOf` finds it at `n` |
| `CategoryResolution.Dedup` | src/services/ImportTransactionsService.ts:43-45 | the de-duplicated titles have no duplicates, are exactly the collected titles as a set, and appear in the order of their first occurrence |
| `CategoryResolution.DedupExample` | src/services/ImportTransactionsService.ts:43-45 | `["Food","Food","Transport","Food"]` becomes `["Food","Transport"]` |
| `CategoryResolution.FindByTitles` | src/services/ImportTransactionsService.ts:47-51 | the lookup returns exactly the stored categories whose title is requested, and never more than are stored |
| `CategoryResolution.NewTitles` | src/services/ImportTransactionsService.ts:53-58 | a requested title is new iff no found category carries it; the filter keeps a duplicate-free request duplicate-free |
| `CategoryResolution.FindCategory` | src/services/ImportTransactionsService.ts:75-77 | `allCategories.find` succeeds iff some category has the title, and then returns the first listed category of that title |
| `CategoryResolution.BuildTransactions` | src/services/ImportTransactionsService.ts:70-79 | one transaction per kept record, in order, with title, type and value copied; its category is found iff the record's category title is listed, and then is the first listed category of that title |
| `CategoryResolution.TitlesToCreate` | src/services/ImportTransactionsService.ts:43-58 | `newCategories`: the de-duplicated collected titles that no found category carries; characterised by `CreatesExactlyMissing`, `CreatedOnce` and `CreatedIndependentOfOrder` |
| `CategoryResolution.CreatesExactlyMissing` | src/services/ImportTransactionsService.ts:43-58 | a title is created iff the batch collected it and no stored category carries it |
| `CategoryResolution.CreatedIndependentOfOrder` | src/services/ImportTransactionsService.ts:43-58 | the titles created depend only on which titles were collected, not on their order or repetition |
| `CategoryResolution.ReimportCreatesNothing` | src/services/ImportTransactionsService.ts:47-58 | a batch whose titles are all stored creates nothing |
| `CategoryResolution.NothingNew` | src/services/ImportTransactionsService.ts:53-58 | when every requested title is carried by a found category, no title is new |
| `CategoryResolution.TitlesAppend` | src/services/ImportTransactionsService.ts:68 | the titles of `created ++ found` are the created titles followed by the found ones |
| `CategoryResolution.CreatedOnce` | src/services/ImportTransactionsService.ts:43-58 | no title is created twice within one batch |
| `CategoryResolution.EveryTitleResolves` | src/services/ImportTransactionsService.ts:47-68 | the created categories and the found ones together carry every collected title |
| `CategoryResolution.StillUnique` | src/services/ImportTransactionsService.ts:53-66 | saving the created categories into a store with unique titles keeps titles unique |
| `ImportTransactions.DeleteAfterSaves` | src/services/ImportTransactionsService.ts:66-82 | in an import's log each effect stands at its stage, and the file is deleted only as the fourth effect, after the category save and the transaction save |
| `ImportTransactions.SaveCategories` | src/services/ImportTransactionsService.ts:60-66 | saving appends the new categories to the store, one per title and in title order, leaves the transactions alone, and keeps identities fresh and distinct |
| `ImportTransactions.PlanImport` | src/services/ImportTransactionsService.ts:43-79 | what the import computes: requested titles, found categories, the store with the created categories appended, and the transactions bound to `created ++ found`; its properties are `PlanSound` |
| `ImportTransactions.Run` | src/services/ImportTransactionsService.ts:47-86 | the await chain over a plan, stopping at the failing step; its properties are `RunOrdered`, `RunReports` and `RunStores` |
| `ImportTransactions.ImportOutcome` | src/services/ImportTransactionsService.ts:16-86 | the whole import as a value, the plan for the kept records run against `fault`; `Execute` is proved equal to it, and the `Import…` lemmas state its properties |
| `ImportTransactions.Execute` | src/services/ImportTransactionsService.ts:16-86 | the method's result, final store and effect log are exactly `ImportOutcome` of the kept records |
| `ImportTransactions.RunOrdered` | src/services/ImportTransactionsService.ts:47-82 | the steps run in pipeline order and stop at the failing one: lookup, save categories, save transactions, delete the file |
| `ImportTransactions.RunReports` | src/services/ImportTransactionsService.ts:66-86 | an import succeeds iff nothing fails; otherwise it reports the failing step; on success it returns the transactions it saved |
| `ImportTransactions.RunStores` | src/services/ImportTransactionsService.ts:47-81 | the store is untouched before the category save; after it, the store holds the planned categories; after the transaction save, it also holds exactly the created transactions |
| `ImportTransactions.PlanSound` | src/services/ImportTransactionsService.ts:43-79 | the computed import appends exactly the titles to create, keeps identities valid and titles unique, and binds every kept record to a category of its title in the new store |
| `ImportTransactions.ImportOrdered` | src/services/ImportTransactionsService.ts:47-82 | `RunOrdered` for the import of `kept` |
| `ImportTransactions.ImportReports` | src/services/ImportTransactionsService.ts:66-86 | `RunReports` for the import of `kept` |
| `ImportTransactions.ImportAppendsOnly` | src/services/ImportTransactionsService.ts:66-81 | the store only grows: by the saved categories once they are saved, and by the saved transactions once those are |
| `ImportTransactions.ImportCreatesMissingTitles` | src/services/ImportTransactionsService.ts:53-66 | the saved categories carry exactly the titles to create, in order |
| `ImportTransactions.ImportKeepsStoreInvariants` | src/services/ImportTransactionsService.ts:53-81 | an import keeps identities fresh and distinct, and keeps category titles unique |
| `ImportTransactions.ImportBindsRows` | src/services/ImportTransactionsService.ts:68-81 | once categories are saved, every kept record's category title is stored; the saved transactions are the kept records, one each in order, each bound to a stored category of its own title |
| `ImportTransactions.ReimportCreatesNoCategory` | src/services/ImportTransactionsService.ts:43-66 | after the categories of an import are saved, importing the same records again finds no title to create |
| `ImportTransactions.StillUniqueWhenSaved` | src/services/ImportTransactionsService.ts:53-66 | saving the titles to create keeps the store's titles unique |
| `ImportTransactions.Reconciled` | src/services/ImportTransactionsService.ts:68-79 | the join never fails: with the created categories ahead of the found ones, every kept record is bound to a stored category of its title |
| `Balance.GetBalance` | src/repositories/TransactionsRepository.ts:13-37 | income is the sum of the `income` values, outcome the sum of the `outcome` values, total is income minus outcome (possibly negative), and no transactions give zero, zero, zero |
| `Balance.SumOf` | src/repositories/TransactionsRepository.ts:15-34 | the sum of the values of the transactions of one type: zero when none has that type, non-negative when no value is negative; `InsertOne` and `SumOfPermutation` state how it changes |
| `Balance.SumOfAppend` | src/repositories/TransactionsRepository.ts:15-34 | the per-type sum of a concatenation is the sum of the per-type sums |
| `Balance.InsertOne` | src/repositories/TransactionsRepository.ts:17-25 | one more transaction raises income by its value if its type is `income`, raises outcome by its value if its type is `outcome`, and otherwise changes neither |
| `Balance.SumOfRemove` | src/repositories/TransactionsRepository.ts:17-25 | taking out one transaction, wherever it stands, lowers the sum of its own type by its value and leaves the sums of other types alone |
| `Balance.SumOfPermutation` | src/repositories/TransactionsRepository.ts:15-34 | a per-type sum does not depend on the order of the transactions |
| `Balance.BalancePermutationInvariant` | src/repositories/TransactionsRepository.ts:15-37 | permuting the transactions changes neither income, nor outcome, nor total |
| `Balance.BalanceExample` | src/repositories/TransactionsRepository.ts:15-37 | income 100, outcome 40 and income 5 give income 105, outcome 40 and total 65 |

## Left out

- CSV parsing, streaming and the `data`/`end` events: the input is the sequence of records the parser delivers with the header line already skipped (`from_line: 2`). Quoting, delimiters and parse errors are the parser's concern; in particular the parser's own record-length check (by default a record whose cell count differs from the first one's is an error on the stream) is not modelled. A stream `error` event is not modelled.
- Numbers: values are text while importing, because `value` is kept as the trimmed cell. The balance works on integer amounts (cents). `Number(transaction.value)` coercion and JavaScript floating-point addition are not modelled.
- `CsvRows.Cell`: a missing cell is `undefined` in the source and is read as `""`. This is exact for title, type and value, which are both falsy there. For the category, the model collects `""` where the source collects `undefined`.
- `ImportTransactions.SaveCategories`: identities are handed out as `nextId, nextId + 1, …`. The database generates uuids instead; only freshness and distinctness are modelled. Transaction identities are not modelled.
- `CategoryResolution.FindByTitles`: the lookup is modelled by its result. The SQL behaviour of `In` with an empty list is taken to be "no rows". Rows are taken in store order; SQL guarantees no order without `ORDER BY`, which matters only when two stored categories share a title: then `FindCategory` and `BuildTransactions` bind the first in store order, where the source binds whichever row the database returns first.
- Failures of `find`, either `save` or `unlink` are decided by the database and the file system. They arrive as the `fault` parameter, and the model captures only which steps run before the failing one. A failing save is taken to store nothing (TypeORM runs a bulk `save` in one transaction); a partial save is not modelled.
- `async`/`await` sequencing, and two imports racing on the same new category title. That race can create a duplicate title and is concurrency, outside this sequential model.
- `console.log(allCategories)` output.
- Reading the stored transactions with `this.find()` is not modelled: `GetBalance` takes them as a parameter.
- `ImportTransactions.ReimportCreatesNoCategory`: states that a second import of the same records has no title to create. That the second import's category save is then empty follows from `ImportCreatesMissingTitles`; it is not restated for the composed run.

What the code does not do, and the model therefore does not do either:
- The two saves are not wrapped in a database transaction. A failing transaction save therefore leaves the new categories stored (`RunStores`).
- The service checks no cell count, no value and no category resolution:
  - a cell missing from a shorter record reads as `undefined`;
  - the value is kept as text, whatever it holds;
  - a category lookup that fails would leave `undefined`, and `Reconciled` proves it cannot fail.
- The header skip is fixed at one line (`from_line: 2`).
- Category titles are unique only because each import creates each missing title once (`ImportKeepsStoreInvariants`). No store constraint enforces it.
