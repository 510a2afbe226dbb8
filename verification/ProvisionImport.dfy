/**
 * An import of provision links from end to end: the links are read off the pages, written, and the
 * editors' links that the pages no longer hold are removed.
 */
module ProvisionImport {
  import opened ActingDocuments
  import opened Batches
  import opened Options
  import opened ProvisionPages
  import opened ProvisionRows
  import opened ProvisionUpsert

  /** Pages are read from files of different names. */
  predicate Separate(pages: seq<Page>) {
    forall i, j :: 0 <= i < j < |pages| ==> pages[i].id != pages[j].id
  }

  function Links(pages: seq<Page>, lookup: Lookup): seq<Row> {
    Firsts(FromPages(pages, |pages|, lookup).rows, Text)
  }

  function Docs(pages: seq<Page>): set<Id> {
    Members(PrunableDocs(pages))
  }

  method ListPrunable(pages: seq<Page>) returns (docs: seq<Id>)
    ensures docs == PrunableDocs(pages)
  {
    docs := [];
    var i := 0;
    while i < |pages|
      invariant i <= |pages| && docs == PrunableDocs(pages[..i])
    {
      assert pages[..i + 1][..i] == pages[..i];
      if Prunable(pages[i]) { docs := docs + [pages[i].id]; }
      i := i + 1;
    }
    assert pages[..i] == pages;
  }

  /** With no failing statement an import goes through exactly when it does not remove too much. */
  method Import(store: ProvisionStore, ctx: Context, maxPrune: real, now: int, failing: set<nat>)
    returns (ok: bool, removed: nat)
    requires Separate(ctx.pages)
    modifies store
    ensures var rows, docs := Links(ctx.pages, LookupOf(ctx)), Docs(ctx.pages);
      && (ok ==> store.table == Applied(old(store.table), rows, docs, now))
      && (!ok ==> store.table == old(store.table))
      && (failing == {} ==>
            (ok <==> Within(|StaleKeys(Upserted(old(store.table), rows, now), docs, now)|,
                            |EditorKeys(old(store.table), docs)|, maxPrune)))
  {
    var rows, _, _, _ := BuildRows(ctx);
    var docs := ListPrunable(ctx.pages);
    PrunableDocsAreDistinct(ctx.pages);
    ok, removed := store.Upsert(rows, docs, maxPrune, now, failing);
  }

  // ----- every link comes from a page that is pruned -----

  predicate AllOf(rows: seq<Row>, docs: set<Id>) {
    forall i :: 0 <= i < |rows| ==> rows[i].doc in docs
  }

  lemma {:induction false} GroupIsOf(found: Found, p: Page, g: Group, n: nat, lookup: Lookup, docs: set<Id>)
    requires n <= |g.tags| && AllOf(found.rows, docs) && p.id in docs
    ensures AllOf(FromGroup(found, p, g, n, lookup).rows, docs)
  {
    if n > 0 { GroupIsOf(found, p, g, n - 1, lookup, docs); }
  }

  /** A link on a page is on one of its provisions, so the page has some. */
  lemma {:induction false} PageIsOf(found: Found, p: Page, editor: Editor, n: nat, lookup: Lookup, docs: set<Id>)
    requires n <= |editor.groups| && AllOf(found.rows, docs)
    requires |editor.levels| > 0 ==> p.id in docs
    ensures AllOf(FromPage(found, p, editor, n, lookup).rows, docs)
  {
    if n > 0 {
      PageIsOf(found, p, editor, n - 1, lookup, docs);
      var g := editor.groups[n - 1];
      if Linkable(editor, g) {
        HasSome(editor.levels, g.provision);
        GroupIsOf(FromPage(found, p, editor, n - 1, lookup), p, g, |g.tags|, lookup, docs);
      }
    }
  }

  lemma HasSome(levels: map<string, string>, id: string)
    requires id in levels
    ensures |levels| > 0
  {
    assert levels.Keys != {};
  }

  lemma {:induction false} PagesAreOf(pages: seq<Page>, n: nat, lookup: Lookup)
    requires n <= |pages|
    ensures AllOf(FromPages(pages, n, lookup).rows, Docs(pages))
  {
    if n > 0 {
      PagesAreOf(pages, n - 1, lookup);
      var p := pages[n - 1];
      if p.editor.Some? {
        PrunableDocsAreExact(pages, p.id);
        assert Prunable(p) ==> p.id in Docs(pages);
        PageIsOf(FromPages(pages, n - 1, lookup), p, p.editor.value, |p.editor.value.groups|, lookup, Docs(pages));
      }
    }
  }

  lemma LinksAreOf(pages: seq<Page>, lookup: Lookup)
    ensures AllOf(Links(pages, lookup), Docs(pages))
  {
    var found := FromPages(pages, |pages|, lookup).rows;
    PagesAreOf(pages, |pages|, lookup);
    forall j: nat | j < |Links(pages, lookup)| ensures Links(pages, lookup)[j].doc in Docs(pages) {
      var i := KeptAreFirst(found, Text, j);
    }
  }

  // ----- the first finding of a link decides -----

  function FirstWith(rows: seq<Row>, k: Key): Option<Row> {
    if rows == [] then None
    else
      match FirstWith(rows[..|rows| - 1], k)
      case Some(row) => Some(row)
      case None => if rows[|rows| - 1].key == k then Some(rows[|rows| - 1]) else None
  }

  lemma {:induction false} FirstIsMember(rows: seq<Row>, k: Key)
    ensures FirstWith(rows, k).Some? <==> HasKey(rows, k)
  {
    if rows != [] {
      var n := |rows| - 1;
      FirstIsMember(rows[..n], k);
      if HasKey(rows[..n], k) {
        var i :| 0 <= i < n && rows[..n][i].key == k;
        assert rows[i].key == k;
      }
      if HasKey(rows, k) && rows[n].key != k {
        var i :| 0 <= i < |rows| && rows[i].key == k;
        assert rows[..n][i].key == k;
      }
    }
  }

  /** Where the text tells links apart, it was met before exactly if the key was. */
  lemma MetBefore(init: seq<Row>, row: Row)
    requires TellsApart(init + [row], Text)
    ensures TellsApart(init, Text)
    ensures Has(init, Text, Text(row.key)) <==> HasKey(init, row.key)
  {
    var rows := init + [row];
    forall i, j | 0 <= i < |init| && 0 <= j < |init| && Text(init[i].key) == Text(init[j].key)
      ensures init[i].key == init[j].key
    {
      assert rows[i] == init[i] && rows[j] == init[j];
    }
    if Has(init, Text, Text(row.key)) {
      var i := HadIsMember(init, Text, Text(row.key));
      assert rows[i] == init[i] && rows[|init|] == row;
    }
    if HasKey(init, row.key) {
      var i :| 0 <= i < |init| && init[i].key == row.key;
      MemberIsHad(init, Text, i);
    }
  }

  /** Among the links kept, a key's row is the first one found with it. */
  lemma {:induction false} KeptIsFirst(rows: seq<Row>, k: Key)
    requires TellsApart(rows, Text)
    ensures RowFor(Firsts(rows, Text), k) == FirstWith(rows, k)
  {
    if rows != [] {
      var init, row := rows[..|rows| - 1], rows[|rows| - 1];
      assert rows == init + [row];
      MetBefore(init, row);
      KeptIsFirst(init, k);
      TextIsKept(init, Text, Text(row.key));
      FirstIsMember(init, row.key);
    }
  }

  /** An editors' link at one of the documents read. */
  predicate EditorsAt(t: Table, docs: set<Id>, k: Key) {
    k in t && t[k].source == "vbpl_editor" && t[k].doc in docs
  }

  /**
   * What an import leaves, with every stored stamp older: the editors' links at the documents whose
   * pages were read and hold provisions are exactly the links found on the pages; each is stored as it
   * was first found; and a link that is not found is gone if it was an editors' link there, else as it was.
   */
  lemma ImportIsExact(t: Table, pages: seq<Page>, lookup: Lookup, now: int, k: Key)
    requires OlderThan(t, now)
    ensures var found := FromPages(pages, |pages|, lookup).rows;
      var after := Applied(t, Links(pages, lookup), Docs(pages), now);
      && (EditorsAt(after, Docs(pages), k) <==> HasKey(found, k))
      && (match FirstWith(found, k)
          case Some(row) =>
            k in after && after[k] == Stored(row.doc, "vbpl_editor", row.details,
                                             if k in t then t[k].created else now, now)
          case None =>
            if EditorsAt(t, Docs(pages), k) then k !in after
            else (k in after <==> k in t) && (k in t ==> after[k] == t[k]))
  {
    var found := FromPages(pages, |pages|, lookup).rows;
    SuccessIsExact(t, Links(pages, lookup), Docs(pages), now);
    AppliedAt(t, Links(pages, lookup), Docs(pages), now, k);
    EveryLinkIsKeptOnce(pages, lookup, k);
    RowForIsMember(Links(pages, lookup), k);
    LinksAreOf(pages, lookup);
    PagesNameSources(pages, |pages|, lookup);
    SourcesAreToldApart(found);
    KeptIsFirst(found, k);
    FirstIsMember(found, k);
  }

  // ----- which links are on the pages -----

  /** A tag on an article, a clause or an item of a page that was read, and it names no appendix. */
  ghost predicate IsLink(p: Page, g: Group, t: Tag) {
    && p.editor.Some? && g in p.editor.value.groups && t in g.tags && t.source != "PHU-LUC"
    && g.provision in p.editor.value.levels
    && (p.editor.value.levels[g.provision] == "article" || p.editor.value.levels[g.provision] == "clause"
        || p.editor.value.levels[g.provision] == "item")
  }

  /** The row of a link. */
  function LinkRow(p: Page, g: Group, t: Tag, lookup: Lookup): Row {
    Row(Key(g.provision, t.code, t.source), p.id, lookup(p, g.provision, t))
  }

  lemma {:induction false} GroupHolds(found: Found, p: Page, g: Group, n: nat, lookup: Lookup, row: Row)
    requires n <= |g.tags|
    ensures row in FromGroup(found, p, g, n, lookup).rows <==>
              row in found.rows
              || exists t :: t in g.tags[..n] && t.source != "PHU-LUC" && row == LinkRow(p, g, t, lookup)
  {
    if n > 0 {
      GroupHolds(found, p, g, n - 1, lookup, row);
      assert g.tags[..n] == g.tags[..n - 1] + [g.tags[n - 1]];
    }
  }

  ghost predicate OnGroups(p: Page, editor: Editor, n: nat, lookup: Lookup, row: Row)
    requires n <= |editor.groups|
  {
    exists g, t :: g in editor.groups[..n] && t in g.tags && t.source != "PHU-LUC" && Linkable(editor, g)
                   && row == LinkRow(p, g, t, lookup)
  }

  lemma {:induction false} PageHolds(found: Found, p: Page, editor: Editor, n: nat, lookup: Lookup, row: Row)
    requires n <= |editor.groups|
    ensures row in FromPage(found, p, editor, n, lookup).rows <==>
              row in found.rows || OnGroups(p, editor, n, lookup, row)
  {
    if n > 0 {
      var g := editor.groups[n - 1];
      var before := FromPage(found, p, editor, n - 1, lookup);
      PageHolds(found, p, editor, n - 1, lookup, row);
      assert editor.groups[..n] == editor.groups[..n - 1] + [g];
      if Linkable(editor, g) {
        GroupHolds(before, p, g, |g.tags|, lookup, row);
        assert g.tags[..|g.tags|] == g.tags;
      }
      OneMoreGroup(p, editor, n, lookup, row);
    }
  }

  lemma OneMoreGroup(p: Page, editor: Editor, n: nat, lookup: Lookup, row: Row)
    requires 0 < n <= |editor.groups|
    ensures var g := editor.groups[n - 1];
      OnGroups(p, editor, n, lookup, row) <==>
        OnGroups(p, editor, n - 1, lookup, row)
        || (Linkable(editor, g) && exists t :: t in g.tags && t.source != "PHU-LUC" && row == LinkRow(p, g, t, lookup))
  {
    var g := editor.groups[n - 1];
    assert editor.groups[..n] == editor.groups[..n - 1] + [g];
    if OnGroups(p, editor, n, lookup, row) {
      var h, t :| h in editor.groups[..n] && t in h.tags && t.source != "PHU-LUC" && Linkable(editor, h)
                  && row == LinkRow(p, h, t, lookup);
      assert h == g || h in editor.groups[..n - 1];
    }
  }

  /** The rows found are those of the links on the pages, all of them and no other. */
  lemma {:induction false} FoundIsExact(pages: seq<Page>, n: nat, lookup: Lookup, row: Row)
    requires n <= |pages|
    ensures row in FromPages(pages, n, lookup).rows <==>
              exists p, g, t :: p in pages[..n] && IsLink(p, g, t) && row == LinkRow(p, g, t, lookup)
  {
    if n > 0 {
      var p := pages[n - 1];
      var before := FromPages(pages, n - 1, lookup);
      FoundIsExact(pages, n - 1, lookup, row);
      assert pages[..n] == pages[..n - 1] + [p];
      if p.editor.Some? {
        var editor := p.editor.value;
        PageHolds(before, p, editor, |editor.groups|, lookup, row);
        assert editor.groups[..|editor.groups|] == editor.groups;
        LinksOfPage(p, lookup, row);
      }
      OneMorePage(pages, n, lookup, row);
    }
  }

  lemma LinksOfPage(p: Page, lookup: Lookup, row: Row)
    requires p.editor.Some?
    ensures OnGroups(p, p.editor.value, |p.editor.value.groups|, lookup, row) <==> OnPage(p, lookup, row)
  {
    var groups := p.editor.value.groups;
    assert groups[..|groups|] == groups;
    if OnGroups(p, p.editor.value, |groups|, lookup, row) {
      var g, t :| g in groups && t in g.tags && t.source != "PHU-LUC" && Linkable(p.editor.value, g)
                  && row == LinkRow(p, g, t, lookup);
      assert IsLink(p, g, t);
    }
    if OnPage(p, lookup, row) {
      var g, t :| IsLink(p, g, t) && row == LinkRow(p, g, t, lookup);
      assert Linkable(p.editor.value, g);
    }
  }

  ghost predicate OnPage(p: Page, lookup: Lookup, row: Row) {
    exists g, t :: IsLink(p, g, t) && row == LinkRow(p, g, t, lookup)
  }

  lemma OneMorePage(pages: seq<Page>, n: nat, lookup: Lookup, row: Row)
    requires 0 < n <= |pages|
    ensures (exists p, g, t :: p in pages[..n] && IsLink(p, g, t) && row == LinkRow(p, g, t, lookup)) <==>
              (exists p, g, t :: p in pages[..n - 1] && IsLink(p, g, t) && row == LinkRow(p, g, t, lookup))
              || OnPage(pages[n - 1], lookup, row)
  {
    assert pages[..n] == pages[..n - 1] + [pages[n - 1]];
    if exists p, g, t :: p in pages[..n] && IsLink(p, g, t) && row == LinkRow(p, g, t, lookup) {
      var p, g, t :| p in pages[..n] && IsLink(p, g, t) && row == LinkRow(p, g, t, lookup);
      assert p == pages[n - 1] || p in pages[..n - 1];
    }
  }

  // ----- in which order they are found -----

  lemma {:induction false} GroupsGrow(found: Found, p: Page, editor: Editor, m: nat, n: nat, lookup: Lookup)
    requires m <= n <= |editor.groups|
    ensures FromPage(found, p, editor, m, lookup).rows <= FromPage(found, p, editor, n, lookup).rows
    decreases n
  {
    if m < n {
      GroupsGrow(found, p, editor, m, n - 1, lookup);
      var g := editor.groups[n - 1];
      TagsGrow(FromPage(found, p, editor, n - 1, lookup), p, g, 0, |g.tags|, lookup);
    }
  }

  lemma {:induction false} TagsGrow(found: Found, p: Page, g: Group, m: nat, n: nat, lookup: Lookup)
    requires m <= n <= |g.tags|
    ensures FromGroup(found, p, g, m, lookup).rows <= FromGroup(found, p, g, n, lookup).rows
    decreases n
  {
    if m < n { TagsGrow(found, p, g, m, n - 1, lookup); }
  }

  /** Links are found page by page, on a page provision by provision, and there tag by tag. */
  lemma {:induction false} PagesGrow(pages: seq<Page>, m: nat, n: nat, lookup: Lookup)
    requires m <= n <= |pages|
    ensures FromPages(pages, m, lookup).rows <= FromPages(pages, n, lookup).rows
    decreases n
  {
    if m < n {
      PagesGrow(pages, m, n - 1, lookup);
      var p := pages[n - 1];
      if p.editor.Some? {
        GroupsGrow(FromPages(pages, n - 1, lookup), p, p.editor.value, 0, |p.editor.value.groups|, lookup);
      }
    }
  }
}
