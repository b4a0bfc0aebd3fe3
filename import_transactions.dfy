/**
 * `ImportTransactionsService.execute`: collect the kept records of the CSV
 * file, de-duplicate their category titles, look the titles up in the
 * store, create the missing categories, bind every record to its category,
 * save the categories, then the transactions, then delete the file.
 *
 * The store is the persistence collaborator's state, passed in and
 * returned as a value; the file deletion and the three store calls are
 * recorded in an effect log. Whether a store call or the deletion fails is
 * decided outside this code and arrives as the `fault` parameter.
 */
module ImportTransactions {
  import opened Entities
  import opened CsvRows
  import opened CategoryResolution

  /** Stored categories, stored transactions, and the next identity the store hands out. */
  datatype Store = Store(categories: seq<Category>, transactions: seq<Transaction<string>>, nextId: nat)

  /** Every stored category has an identity below `nextId`, and no two share one. */
  predicate Valid(store: Store)
  {
    && (forall i :: 0 <= i < |store.categories| ==> store.categories[i].id < store.nextId)
    && (forall i, j :: 0 <= i < j < |store.categories| ==> store.categories[i].id != store.categories[j].id)
  }

  /** No two stored categories share a title. */
  predicate UniqueTitles(store: Store)
  {
    NoDuplicates(Titles(store.categories))
  }

  /** What `execute` asks of its collaborators, in the order it does so. */
  datatype Effect =
    | FoundCategories(requested: seq<string>, found: seq<Category>)
    | SavedCategories(categories: seq<Category>)
    | SavedTransactions(transactions: seq<Transaction<string>>)
    | Unlinked(path: string)

  /** The step that fails, if any: the lookup, either save, or the deletion. */
  datatype Fault = NoFault | FindFails | CategorySaveFails | TransactionSaveFails | UnlinkFails

  datatype ImportResult = Imported(transactions: seq<Transaction<string>>) | Failed(fault: Fault)

  /** Position of each effect in the pipeline. */
  function Stage(e: Effect): nat
  {
    match e
    case FoundCategories(_, _) => 0
    case SavedCategories(_) => 1
    case SavedTransactions(_) => 2
    case Unlinked(_) => 3
  }

  /** How many effects complete before `fault` stops the pipeline. */
  function CompletedBefore(fault: Fault): nat
  {
    match fault
    case FindFails => 0
    case CategorySaveFails => 1
    case TransactionSaveFails => 2
    case UnlinkFails => 3
    case NoFault => 4
  }

  /** Every effect of the log stands at its own stage: lookup, save categories, save transactions, delete the file. */
  predicate InPipelineOrder(log: seq<Effect>)
  {
    forall i :: 0 <= i < |log| ==> Stage(log[i]) == i
  }

  /** The log of one import, step by step: at most the four steps, each of its kind, the deletion of `path` last. */
  predicate PipelineLog(log: seq<Effect>, path: string)
  {
    && |log| <= 4
    && (|log| > 0 ==> log[0].FoundCategories?)
    && (|log| > 1 ==> log[1].SavedCategories?)
    && (|log| > 2 ==> log[2].SavedTransactions?)
    && (|log| > 3 ==> log[3] == Unlinked(path))
  }

  /**
   * An import's log is in pipeline order, and the file is deleted only
   * after the categories and then the transactions were saved.
   */
  lemma DeleteAfterSaves(log: seq<Effect>, path: string)
    requires PipelineLog(log, path)
    ensures InPipelineOrder(log)
    ensures forall i :: 0 <= i < |log| && log[i].Unlinked? ==>
      i == 3 && log[i] == Unlinked(path) && log[1].SavedCategories? && log[2].SavedTransactions?
  {
  }

  /**
   * `categoriesRepository.save` of the created categories: they are
   * appended to the store, each with a fresh identity, in title order.
   */
  function SaveCategories(store: Store, titles: seq<string>): (r: (Store, seq<Category>))
    ensures r.0.categories == store.categories + r.1 && r.0.transactions == store.transactions
    ensures Titles(r.1) == titles
    ensures Valid(store) ==> Valid(r.0)
  {
    var saved := seq(|titles|, i requires 0 <= i < |titles| => Category(store.nextId + i, titles[i]));
    (Store(store.categories + saved, store.transactions, store.nextId + |titles|), saved)
  }

  /** The transactions of a batch are what its kept records became: same order, fields copied, category resolved and stored. */
  predicate BoundToRows(txs: seq<Transaction<string>>, kept: seq<ParsedRow>, categories: seq<Category>)
  {
    && |txs| == |kept|
    && (forall i :: 0 <= i < |kept| ==>
          && txs[i].title == kept[i].title && txs[i].kind == kept[i].kind && txs[i].value == kept[i].value
          && txs[i].category.Some?
          && txs[i].category.value in categories
          && txs[i].category.value.title == kept[i].category)
  }

  /** What one import leaves behind: its result, the store after it, and its effect log. */
  datatype Outcome = Outcome(result: ImportResult, store: Store, log: seq<Effect>)

  /**
   * What an import computes from the records and the store: the
   * de-duplicated category titles asked for, the stored categories among
   * them, the store with the missing ones saved and those new categories,
   * and the transactions bound to `created ++ found`.
   */
  datatype Plan = Plan(
    requested: seq<string>,
    existing: seq<Category>,
    withCategories: Store,
    added: seq<Category>,
    created: seq<Transaction<string>>)

  function PlanImport(store: Store, kept: seq<ParsedRow>): Plan
  {
    var requested := Dedup(CategoryTitles(kept));
    var existing := FindByTitles(store.categories, requested);
    var (withCategories, added) := SaveCategories(store, NewTitles(requested, existing));
    Plan(requested, existing, withCategories, added, BuildTransactions(kept, added + existing))
  }

  /** The steps of a plan in pipeline order, each skipped once `fault` stops the pipeline. */
  function Run(store: Store, path: string, p: Plan, fault: Fault): Outcome
  {
    var found := [FoundCategories(p.requested, p.existing)];
    var saved := found + [SavedCategories(p.added)];
    var after := p.withCategories.(transactions := p.withCategories.transactions + p.created);
    var stored := saved + [SavedTransactions(p.created)];
    match fault
    case FindFails => Outcome(Failed(fault), store, [])
    case CategorySaveFails => Outcome(Failed(fault), store, found)
    case TransactionSaveFails => Outcome(Failed(fault), p.withCategories, saved)
    case UnlinkFails => Outcome(Failed(fault), after, stored)
    case NoFault => Outcome(Imported(p.created), after, stored + [Unlinked(path)])
  }

  /** The import as a value: the plan for `kept`, run against `fault`. */
  function ImportOutcome(store: Store, path: string, kept: seq<ParsedRow>, fault: Fault): Outcome
  {
    Run(store, path, PlanImport(store, kept), fault)
  }

  /**
   * `execute`, step by step: the `data` handler over all records, then the
   * lookup, the saves and the deletion, in that order. It is the executable
   * counterpart of `ImportOutcome`: the same steps as `PlanImport` and `Run`,
   * with the records collected by the `CollectRows` loop.
   */
  method Execute(store: Store, path: string, rows: seq<Row>, fault: Fault)
    returns (result: ImportResult, store': Store, log: seq<Effect>)
    ensures Outcome(result, store', log) == ImportOutcome(store, path, KeptRows(rows), fault)
  {
    var transactions, categories := CollectRows(rows);
    categories := Dedup(categories);
    if fault == FindFails {
      return Failed(fault), store, [];
    }
    var existing := FindByTitles(store.categories, categories);
    log := [FoundCategories(categories, existing)];

    var newCategories := NewTitles(categories, existing);
    if fault == CategorySaveFails {
      return Failed(fault), store, log;
    }
    var saved := SaveCategories(store, newCategories);
    var addCategories := saved.1;
    store' := saved.0;
    log := log + [SavedCategories(addCategories)];

    var allCategories := addCategories + existing;
    var created := BuildTransactions(transactions, allCategories);
    if fault == TransactionSaveFails {
      return Failed(fault), store', log;
    }
    store' := store'.(transactions := store'.transactions + created);
    log := log + [SavedTransactions(created)];
    if fault == UnlinkFails {
      return Failed(fault), store', log;
    }
    log := log + [Unlinked(path)];
    result := Imported(created);
  }

  /**
   * The steps run in pipeline order and stop at the failing one: the file
   * is deleted only when the lookup and both saves succeeded.
   */
  lemma RunOrdered(store: Store, path: string, p: Plan, fault: Fault)
    ensures var o := Run(store, path, p, fault);
      PipelineLog(o.log, path) && |o.log| == CompletedBefore(fault)
  {
  }

  /**
   * A run reports success exactly when nothing failed, names the failing
   * step otherwise, and on success returns the transactions it saved.
   */
  lemma RunReports(store: Store, path: string, p: Plan, fault: Fault)
    ensures var o := Run(store, path, p, fault);
      && (o.result.Imported? <==> fault == NoFault)
      && (o.result.Failed? ==> o.result.fault == fault)
      && (o.result.Imported? ==> |o.log| == 4 && o.result.transactions == o.log[2].transactions)
  {
  }

  /**
   * The store a run leaves: untouched before the categories are saved,
   * the plan's store once they are, and that store plus exactly the saved
   * transactions once those are saved; the logged saves are the plan's.
   */
  lemma RunStores(store: Store, path: string, p: Plan, fault: Fault)
    ensures var o := Run(store, path, p, fault);
      && (|o.log| < 2 ==> o.store == store)
      && (|o.log| >= 2 ==>
            && o.log[1] == SavedCategories(p.added)
            && o.store.categories == p.withCategories.categories
            && o.store.nextId == p.withCategories.nextId)
      && (|o.log| == 2 ==> o.store.transactions == p.withCategories.transactions)
      && (|o.log| >= 3 ==>
            && o.log[2] == SavedTransactions(p.created)
            && o.store.transactions == p.withCategories.transactions + p.created)
  {
  }

  /**
   * The plan saves exactly the titles to create, appended to the stored
   * categories, keeps identities fresh and distinct and titles unique,
   * and binds every kept record to a category of its title in that store.
   */
  lemma PlanSound(store: Store, kept: seq<ParsedRow>)
    ensures var p := PlanImport(store, kept);
      && p.withCategories.categories == store.categories + p.added
      && p.withCategories.transactions == store.transactions
      && Titles(p.added) == TitlesToCreate(store.categories, CategoryTitles(kept))
      && (Valid(store) ==> Valid(p.withCategories))
      && (UniqueTitles(store) ==> UniqueTitles(p.withCategories))
      && BoundToRows(p.created, kept, p.withCategories.categories)
      && (forall r :: r in kept ==> r.category in Titles(p.withCategories.categories))
  {
    var p := PlanImport(store, kept);
    StillUniqueWhenSaved(store, CategoryTitles(kept), p.added);
    Reconciled(store.categories, kept, p.added);
  }

  /** The import's steps run in pipeline order, the deletion of the file last. */
  lemma ImportOrdered(store: Store, path: string, kept: seq<ParsedRow>, fault: Fault)
    ensures var o := ImportOutcome(store, path, kept, fault);
      PipelineLog(o.log, path) && |o.log| == CompletedBefore(fault)
  {
    RunOrdered(store, path, PlanImport(store, kept), fault);
  }

  /** The import succeeds exactly when no step fails, and then returns the transactions it saved. */
  lemma ImportReports(store: Store, path: string, kept: seq<ParsedRow>, fault: Fault)
    ensures var o := ImportOutcome(store, path, kept, fault);
      && (o.result.Imported? <==> fault == NoFault)
      && (o.result.Failed? ==> o.result.fault == fault)
      && (o.result.Imported? ==> |o.log| == 4 && o.result.transactions == o.log[2].transactions)
  {
    RunReports(store, path, PlanImport(store, kept), fault);
  }

  /**
   * The store only grows: nothing changes before the categories are saved;
   * then the saved categories are appended, and once the transactions are
   * saved, exactly the created transactions.
   */
  lemma ImportAppendsOnly(store: Store, path: string, kept: seq<ParsedRow>, fault: Fault)
    ensures var o := ImportOutcome(store, path, kept, fault);
      && (|o.log| < 2 ==> o.store == store)
      && (|o.log| >= 2 ==> o.log[1].SavedCategories? && o.store.categories == store.categories + o.log[1].categories)
      && (|o.log| >= 3 ==> o.log[2].SavedTransactions? && o.store.transactions == store.transactions + o.log[2].transactions)
      && (|o.log| < 3 ==> o.store.transactions == store.transactions)
  {
    RunStores(store, path, PlanImport(store, kept), fault);
    PlanSound(store, kept);
  }

  /** The saved categories carry exactly the titles to create, in order. */
  lemma ImportCreatesMissingTitles(store: Store, path: string, kept: seq<ParsedRow>, fault: Fault)
    ensures var o := ImportOutcome(store, path, kept, fault);
      |o.log| >= 2 ==> o.log[1].SavedCategories? && Titles(o.log[1].categories) == TitlesToCreate(store.categories, CategoryTitles(kept))
  {
    RunStores(store, path, PlanImport(store, kept), fault);
    PlanSound(store, kept);
  }

  /** An import keeps identities fresh and distinct, and never gives two categories the same title. */
  lemma ImportKeepsStoreInvariants(store: Store, path: string, kept: seq<ParsedRow>, fault: Fault)
    ensures var o := ImportOutcome(store, path, kept, fault);
      && (Valid(store) ==> Valid(o.store))
      && (UniqueTitles(store) ==> UniqueTitles(o.store))
  {
    RunStores(store, path, PlanImport(store, kept), fault);
    PlanSound(store, kept);
  }

  /**
   * Once the categories are saved every kept record's category title is
   * stored, and the saved transactions are the kept records, one each and
   * in order, each bound to a stored category of its own title.
   */
  lemma ImportBindsRows(store: Store, path: string, kept: seq<ParsedRow>, fault: Fault)
    ensures var o := ImportOutcome(store, path, kept, fault);
      && (|o.log| >= 2 ==> forall r :: r in kept ==> r.category in Titles(o.store.categories))
      && (|o.log| >= 3 ==> o.log[2].SavedTransactions? && BoundToRows(o.log[2].transactions, kept, o.store.categories))
  {
    RunStores(store, path, PlanImport(store, kept), fault);
    PlanSound(store, kept);
  }

  /**
   * Importing the same records again after the categories of a first
   * import were saved leaves no title to create: every title asked for is
   * stored by then, so (by `ImportCreatesMissingTitles`) the second import
   * saves categories carrying no title, that is none.
   */
  lemma ReimportCreatesNoCategory(store: Store, path: string, kept: seq<ParsedRow>, fault: Fault)
    requires |ImportOutcome(store, path, kept, fault).log| >= 2
    ensures TitlesToCreate(ImportOutcome(store, path, kept, fault).store.categories, CategoryTitles(kept)) == []
  {
    ImportBindsRows(store, path, kept, fault);
    var after := ImportOutcome(store, path, kept, fault).store;
    var collected := CategoryTitles(kept);
    forall t | t in collected ensures t in Titles(after.categories) {
      var i :| 0 <= i < |collected| && collected[i] == t;
      assert kept[i] in kept;
    }
    ReimportCreatesNothing(after.categories, collected);
  }

  lemma StillUniqueWhenSaved(store: Store, collected: seq<string>, added: seq<Category>)
    requires Titles(added) == TitlesToCreate(store.categories, collected)
    ensures UniqueTitles(store) ==> NoDuplicates(Titles(store.categories + added))
  {
    if UniqueTitles(store) {
      StillUnique(store.categories, collected, added);
    }
  }

  /**
   * The join never fails: with the created categories ahead of the found
   * ones, every kept record finds its category, and that category is
   * stored once the created ones are saved.
   */
  lemma Reconciled(stored: seq<Category>, kept: seq<ParsedRow>, added: seq<Category>)
    requires Titles(added) == TitlesToCreate(stored, CategoryTitles(kept))
    ensures BoundToRows(BuildTransactions(kept, added + FindByTitles(stored, Dedup(CategoryTitles(kept)))), kept, stored + added)
    ensures forall r :: r in kept ==> r.category in Titles(stored + added)
  {
    var collected := CategoryTitles(kept);
    var existing := FindByTitles(stored, Dedup(collected));
    var all := added + existing;
    EveryTitleResolves(stored, collected, added);
    forall c | c in all ensures c in stored + added {
    }
    forall i | 0 <= i < |kept| ensures kept[i].category in Titles(all) {
      assert collected[i] == kept[i].category;
    }
    forall r | r in kept ensures r.category in Titles(stored + added) {
      var i :| 0 <= i < |kept| && kept[i] == r;
      var c := FindCategory(all, r.category).value;
      TitleOfMember(stored + added, c);
    }
  }
}
