/** The import of a catalogue with the twins it resolves: what needs short chains of twins always holds. */
module CatalogImport {
  import opened Options
  import opened RelationMerge
  import opened Relations
  import opened TwinAliases
  import TR = TwinResolution

  /** The twins of an import are those resolved against the catalogue, in some order. */
  ghost predicate Resolved(alias: Aliases, existing: seq<TR.Doc>, docs: seq<TR.Doc>) {
    && TR.DifferentIds(existing) && TR.DifferentIds(docs)
    && exists t, order :: TR.Arranged(order, docs) && alias == TR.Weighed(t, existing, docs, order).alias
  }

  lemma ResolvedChainsAreShort(alias: Aliases, existing: seq<TR.Doc>, docs: seq<TR.Doc>)
    requires Resolved(alias, existing, docs)
    ensures ShortChains(alias) && (forall id :: id in alias ==> alias[id] != id)
    ensures alias.Keys + alias.Values <= TR.ById(existing).Keys + TR.ById(docs).Keys
  {
    var t, order :| TR.Arranged(order, docs) && alias == TR.Weighed(t, existing, docs, order).alias;
    TR.ChainsAreShort(t, existing, docs, order);
    TR.TwinsAreRows(t, existing, docs, order);
  }

  /** An import leaves no edge at a twin, whatever the catalogue, the import and the portal's rows. */
  lemma NothingIsLeftAtTwins(im: Import, existing: seq<TR.Doc>, docs: seq<TR.Doc>, rows: seq<Row>, table: Table,
                             after: Table)
    requires Resolved(im.alias, existing, docs)
    requires IsMerge(table, im.ids, im.alias, Built(im, rows), after)
    ensures AllFreeOfTwins(im.alias, after)
    ensures (forall k :: k in table ==> k.from != k.to) ==> forall k :: k in after ==> k.from != k.to
  {
    ResolvedChainsAreShort(im.alias, existing, docs);
    ImportLeavesNothingAtTwins(im, rows, table, after);
  }

  /** With the same twins the same import again keeps exactly the edges at no imported document and those it lists. */
  lemma SecondImportIsExact(im: Import, existing: seq<TR.Doc>, docs: seq<TR.Doc>, rows: seq<Row>, table: Table,
                            after: Table, again: Table)
    requires Resolved(im.alias, existing, docs)
    requires IsMerge(table, im.ids, im.alias, Built(im, rows), after)
    requires IsMerge(after, im.ids, im.alias, Built(im, rows), again)
    ensures again == map k | k in after && (!Touches(k, im.ids) || Listed(Built(im, rows), k)) :: after[k]
  {
    ResolvedChainsAreShort(im.alias, existing, docs);
    forall k | Listed(Built(im, rows), k) ensures FreeOfTwins(im.alias, k) && k.from != k.to {
      BuiltIsExact(im, rows, k);
    }
    SecondMergeIsExact(table, im.ids, im.alias, Built(im, rows), after, again);
  }

  /** The row that took over an imported twin is never pruned. */
  lemma SurvivorStays(alias: Aliases, existing: seq<TR.Doc>, docs: seq<TR.Doc>, stored: seq<Id>, ids: set<Id>,
                      reviewed: set<Id>, twin: Id)
    requires Resolved(alias, existing, docs) && twin in ids
    requires NOBODY !in TR.ById(existing) && NOBODY !in TR.ById(docs)
    ensures SurvivorOf(alias, twin) !in Gone(stored, ids, alias, reviewed)
  {
    ResolvedChainsAreShort(alias, existing, docs);
    assert NOBODY !in alias.Keys + alias.Values;
    SurvivorIsNeverPruned(stored, ids, alias, reviewed, twin);
  }
}
