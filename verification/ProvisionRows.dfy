/**
 * Links between provisions of law, read from the tags editors left in crawled pages. The same link
 * may be tagged on several pages; it is kept once, the first time it is met. What makes two links the
 * same is a text of three parts, and the database keys its rows by the three parts themselves.
 */
module ProvisionRows {
  import opened ActingDocuments
  import opened Batches
  import opened Decimals
  import opened Options
  import opened ProvisionPages

  const APPENDIX := "PHU-LUC"

  function Text(k: Key): string {
    k.provision + "|" + Decimal(k.code) + "|" + k.source
  }

  /** The text tells links apart, whatever the provision ids hold: it can be cut from its end. */
  lemma TextIsInjective(a: Key, b: Key)
    requires IsSource(a.source) && IsSource(b.source)
    requires Text(a) == Text(b)
    ensures a == b
  {
    DecimalIsReadBack(a.code);
    DecimalIsReadBack(b.code);
    CutAtLast(a.provision + "|" + Decimal(a.code), a.source, b.provision + "|" + Decimal(b.code), b.source, '|');
    CutAtLast(a.provision, Decimal(a.code), b.provision, Decimal(b.code), '|');
  }

  // ----- the links on the pages, in order -----

  predicate Linkable(editor: Editor, g: Group) {
    g.provision in editor.levels && editor.levels[g.provision] in ["article", "clause", "item"]
  }

  function RowOf(p: Page, g: Group, t: Tag, lookup: Lookup): Row {
    Row(Key(g.provision, t.code, t.source), p.id, lookup(p, g.provision, t))
  }

  /** The rows found, the tags that name an appendix, and the tags on chapters and the like. */
  datatype Found = Found(rows: seq<Row>, appendix: nat, otherLevel: nat)

  /** What was found so far, and what the first n tags of a group add. */
  function FromGroup(found: Found, p: Page, g: Group, n: nat, lookup: Lookup): Found
    requires n <= |g.tags|
  {
    if n == 0 then found
    else
      var before := FromGroup(found, p, g, n - 1, lookup);
      if g.tags[n - 1].source == APPENDIX then before.(appendix := before.appendix + 1)
      else before.(rows := before.rows + [RowOf(p, g, g.tags[n - 1], lookup)])
  }

  function FromPage(found: Found, p: Page, editor: Editor, n: nat, lookup: Lookup): Found
    requires n <= |editor.groups|
  {
    if n == 0 then found
    else
      var before := FromPage(found, p, editor, n - 1, lookup);
      var g := editor.groups[n - 1];
      if Linkable(editor, g) then FromGroup(before, p, g, |g.tags|, lookup)
      else before.(otherLevel := before.otherLevel + |g.tags|)
  }

  function FromPages(pages: seq<Page>, n: nat, lookup: Lookup): Found
    requires n <= |pages|
  {
    if n == 0 then Found([], 0, 0)
    else
      WithPage(FromPages(pages, n - 1, lookup), pages[n - 1], lookup)
  }

  function WithPage(found: Found, p: Page, lookup: Lookup): Found {
    match p.editor
    case None => found
    case Some(editor) => FromPage(found, p, editor, |editor.groups|, lookup)
  }

  function GroupTags(groups: seq<Group>): nat {
    if groups == [] then 0 else GroupTags(groups[..|groups| - 1]) + |groups[|groups| - 1].tags|
  }

  /** All tags on the pages that were read. */
  function PageTags(pages: seq<Page>): nat {
    if pages == [] then 0
    else
      var before := PageTags(pages[..|pages| - 1]);
      match pages[|pages| - 1].editor
      case None => before
      case Some(editor) => before + GroupTags(editor.groups)
  }

  function Total(found: Found): nat {
    |found.rows| + found.appendix + found.otherLevel
  }

  lemma {:induction false} GroupIsCounted(found: Found, p: Page, g: Group, n: nat, lookup: Lookup)
    requires n <= |g.tags|
    ensures Total(FromGroup(found, p, g, n, lookup)) == Total(found) + n
  {
    if n > 0 { GroupIsCounted(found, p, g, n - 1, lookup); }
  }

  lemma {:induction false} PageIsCounted(found: Found, p: Page, editor: Editor, n: nat, lookup: Lookup)
    requires n <= |editor.groups|
    ensures Total(FromPage(found, p, editor, n, lookup)) == Total(found) + GroupTags(editor.groups[..n])
  {
    if n > 0 {
      PageIsCounted(found, p, editor, n - 1, lookup);
      var g := editor.groups[n - 1];
      assert editor.groups[..n][..n - 1] == editor.groups[..n - 1];
      GroupIsCounted(FromPage(found, p, editor, n - 1, lookup), p, g, |g.tags|, lookup);
    }
  }

  /** Every tag read becomes a row or is counted as skipped, once. */
  lemma {:induction false} EveryTagIsCounted(pages: seq<Page>, n: nat, lookup: Lookup)
    requires n <= |pages|
    ensures Total(FromPages(pages, n, lookup)) == PageTags(pages[..n])
  {
    if n > 0 {
      EveryTagIsCounted(pages, n - 1, lookup);
      assert pages[..n][..n - 1] == pages[..n - 1];
      var p := pages[n - 1];
      if p.editor.Some? {
        var groups := p.editor.value.groups;
        PageIsCounted(FromPages(pages, n - 1, lookup), p, p.editor.value, |groups|, lookup);
        assert groups[..|groups|] == groups;
      }
    }
  }

  predicate Has(rows: seq<Row>, text: Key -> string, t: string) {
    rows != [] && (text(rows[|rows| - 1].key) == t || Has(rows[..|rows| - 1], text, t))
  }

  /** The rows that are the first with their text. */
  function Firsts(rows: seq<Row>, text: Key -> string): seq<Row> {
    if rows == [] then []
    else
      var kept := Firsts(rows[..|rows| - 1], text);
      var row := rows[|rows| - 1];
      if Has(kept, text, text(row.key)) then kept else kept + [row]
  }

  predicate DistinctKeys(rows: seq<Row>) {
    forall i, j :: 0 <= i < j < |rows| ==> rows[i].key != rows[j].key
  }

  predicate HasKey(rows: seq<Row>, key: Key) {
    exists i :: 0 <= i < |rows| && rows[i].key == key
  }

  lemma {:induction false} MemberIsHad(rows: seq<Row>, text: Key -> string, i: nat)
    requires i < |rows|
    ensures Has(rows, text, text(rows[i].key))
  {
    var n := |rows| - 1;
    if i < n { MemberIsHad(rows[..n], text, i); }
  }

  lemma {:induction false} HadIsMember(rows: seq<Row>, text: Key -> string, t: string) returns (i: nat)
    requires Has(rows, text, t)
    ensures i < |rows| && text(rows[i].key) == t
  {
    var n := |rows| - 1;
    if text(rows[n].key) == t {
      i := n;
    } else {
      i := HadIsMember(rows[..n], text, t);
    }
  }

  lemma AppendHas(rows: seq<Row>, text: Key -> string, row: Row)
    ensures forall t :: Has(rows + [row], text, t) <==> Has(rows, text, t) || text(row.key) == t
  {
    assert (rows + [row])[..|rows|] == rows;
  }

  /** No key is left twice, whatever the text makes of the keys. */
  lemma {:induction false} KeptKeysAreDistinct(rows: seq<Row>, text: Key -> string)
    ensures DistinctKeys(Firsts(rows, text))
  {
    if rows != [] {
      var kept := Firsts(rows[..|rows| - 1], text);
      KeptKeysAreDistinct(rows[..|rows| - 1], text);
      forall i | 0 <= i < |kept| ensures Has(kept, text, text(kept[i].key)) {
        MemberIsHad(kept, text, i);
      }
    }
  }

  lemma {:induction false} TextIsKept(rows: seq<Row>, text: Key -> string, t: string)
    ensures Has(Firsts(rows, text), text, t) <==> Has(rows, text, t)
  {
    if rows != [] {
      var init, row := rows[..|rows| - 1], rows[|rows| - 1];
      TextIsKept(init, text, t);
      AppendHas(Firsts(init, text), text, row);
    }
  }

  lemma {:induction false} KeptAreFirst(rows: seq<Row>, text: Key -> string, j: nat) returns (i: nat)
    requires j < |Firsts(rows, text)|
    ensures i < |rows| && rows[i] == Firsts(rows, text)[j]
    ensures forall k :: 0 <= k < i ==> text(rows[k].key) != text(rows[i].key)
  {
    var n := |rows| - 1;
    var init, kept := rows[..n], Firsts(rows[..n], text);
    if j < |kept| {
      i := KeptAreFirst(init, text, j);
    } else {
      i := n;
      TextIsKept(init, text, text(rows[n].key));
      forall k | 0 <= k < n ensures text(rows[k].key) != text(rows[n].key) {
        MemberIsHad(init, text, k);
      }
    }
  }

  /** The text tells apart the keys of all these rows. */
  predicate TellsApart(rows: seq<Row>, text: Key -> string) {
    forall i, j :: 0 <= i < |rows| && 0 <= j < |rows| && text(rows[i].key) == text(rows[j].key)
                   ==> rows[i].key == rows[j].key
  }

  lemma EveryKeyIsKept(rows: seq<Row>, text: Key -> string, key: Key)
    ensures HasKey(Firsts(rows, text), key) ==> HasKey(rows, key)
    ensures TellsApart(rows, text) && HasKey(rows, key) ==> HasKey(Firsts(rows, text), key)
  {
    var kept := Firsts(rows, text);
    if HasKey(kept, key) {
      var j :| 0 <= j < |kept| && kept[j].key == key;
      var i := KeptAreFirst(rows, text, j);
    }
    if TellsApart(rows, text) && HasKey(rows, key) {
      var i :| 0 <= i < |rows| && rows[i].key == key;
      MemberIsHad(rows, text, i);
      TextIsKept(rows, text, text(key));
      var j := HadIsMember(kept, text, text(key));
      var k := KeptAreFirst(rows, text, j);
      assert rows[k].key == rows[i].key;
    }
  }

  /** No two kept rows share their text. */
  lemma KeptTextsAreDistinct(rows: seq<Row>, text: Key -> string, j: nat, k: nat)
    requires j < |Firsts(rows, text)| && k < |Firsts(rows, text)|
    requires text(Firsts(rows, text)[j].key) == text(Firsts(rows, text)[k].key)
    ensures Firsts(rows, text)[j].key == Firsts(rows, text)[k].key
  {
    var a := KeptAreFirst(rows, text, j);
    var b := KeptAreFirst(rows, text, k);
    assert a == b;
  }

  /** Every key met is kept exactly when the text tells all of them apart. */
  lemma AllKeysAreKeptIffToldApart(rows: seq<Row>, text: Key -> string)
    ensures (forall key :: HasKey(rows, key) ==> HasKey(Firsts(rows, text), key)) <==> TellsApart(rows, text)
  {
    var kept := Firsts(rows, text);
    if TellsApart(rows, text) {
      forall key | HasKey(rows, key) ensures HasKey(kept, key) {
        EveryKeyIsKept(rows, text, key);
      }
    }
    if forall key :: HasKey(rows, key) ==> HasKey(kept, key) {
      forall i, j | 0 <= i < |rows| && 0 <= j < |rows| && text(rows[i].key) == text(rows[j].key)
        ensures rows[i].key == rows[j].key
      {
        assert HasKey(rows, rows[i].key) && HasKey(rows, rows[j].key);
        var a :| 0 <= a < |kept| && kept[a].key == rows[i].key;
        var b :| 0 <= b < |kept| && kept[b].key == rows[j].key;
        KeptTextsAreDistinct(rows, text, a, b);
      }
    }
  }

  predicate AllNameSources(rows: seq<Row>) {
    forall i :: 0 <= i < |rows| ==> IsSource(rows[i].key.source)
  }

  lemma {:induction false} GroupNamesSources(found: Found, p: Page, g: Group, n: nat, lookup: Lookup)
    requires n <= |g.tags| && AllNameSources(found.rows)
    ensures AllNameSources(FromGroup(found, p, g, n, lookup).rows)
  {
    if n > 0 { GroupNamesSources(found, p, g, n - 1, lookup); }
  }

  lemma {:induction false} PageNamesSources(found: Found, p: Page, editor: Editor, n: nat, lookup: Lookup)
    requires n <= |editor.groups| && AllNameSources(found.rows)
    ensures AllNameSources(FromPage(found, p, editor, n, lookup).rows)
  {
    if n > 0 {
      PageNamesSources(found, p, editor, n - 1, lookup);
      var g := editor.groups[n - 1];
      GroupNamesSources(FromPage(found, p, editor, n - 1, lookup), p, g, |g.tags|, lookup);
    }
  }

  lemma {:induction false} PagesNameSources(pages: seq<Page>, n: nat, lookup: Lookup)
    requires n <= |pages|
    ensures AllNameSources(FromPages(pages, n, lookup).rows)
  {
    if n > 0 {
      PagesNameSources(pages, n - 1, lookup);
      var p := pages[n - 1];
      if p.editor.Some? {
        PageNamesSources(FromPages(pages, n - 1, lookup), p, p.editor.value, |p.editor.value.groups|, lookup);
      }
    }
  }

  /**
   * Every link found on the pages is kept under its own key, no key is kept twice, and nothing else
   * is kept, whatever characters the provision ids hold.
   */
  lemma EveryLinkIsKeptOnce(pages: seq<Page>, lookup: Lookup, key: Key)
    ensures var found := FromPages(pages, |pages|, lookup).rows;
      && DistinctKeys(Firsts(found, Text))
      && (HasKey(Firsts(found, Text), key) <==> HasKey(found, key))
  {
    var found := FromPages(pages, |pages|, lookup).rows;
    KeptKeysAreDistinct(found, Text);
    PagesNameSources(pages, |pages|, lookup);
    SourcesAreToldApart(found);
    EveryKeyIsKept(found, Text, key);
  }

  lemma SourcesAreToldApart(rows: seq<Row>)
    requires AllNameSources(rows)
    ensures TellsApart(rows, Text)
  {
    forall i, j | 0 <= i < |rows| && 0 <= j < |rows| && Text(rows[i].key) == Text(rows[j].key)
      ensures rows[i].key == rows[j].key
    {
      TextIsInjective(rows[i].key, rows[j].key);
    }
  }

  /** The rows kept, their texts, and the counts of what was not kept. */
  datatype Progress = Progress(rows: seq<Row>, seen: set<string>, repeats: nat, appendix: nat, otherLevel: nat)

  ghost predicate Collected(pr: Progress, text: Key -> string, found: Found) {
    && pr.rows == Firsts(found.rows, text)
    && (forall t :: t in pr.seen <==> Has(pr.rows, text, t))
    && |pr.rows| + pr.repeats == |found.rows|
    && pr.appendix == found.appendix && pr.otherLevel == found.otherLevel
  }

  /** A row offered is a repeat, or is kept. */
  function Offered(pr: Progress, row: Row, text: Key -> string): Progress {
    if text(row.key) in pr.seen then pr.(repeats := pr.repeats + 1)
    else pr.(rows := pr.rows + [row], seen := pr.seen + {text(row.key)})
  }

  lemma OfferedIsCollected(pr: Progress, row: Row, text: Key -> string, found: Found)
    requires Collected(pr, text, found)
    ensures Collected(Offered(pr, row, text), text, found.(rows := found.rows + [row]))
  {
    assert (found.rows + [row])[..|found.rows|] == found.rows;
    AppendHas(pr.rows, text, row);
  }

  /** The lookup answers as the context does. */
  ghost predicate LooksUp(lookup: Lookup, ctx: Context) {
    forall p, provision, t {:trigger DetailsOf(ctx, p, provision, t)} ::
      lookup(p, provision, t) == DetailsOf(ctx, p, provision, t)
  }

  /** One tag that is no appendix: only a link that is no repeat is looked up. */
  method Offer(ctx: Context, where: map<string, seq<Page>>, p: Page, g: Group, t: Tag, text: Key -> string,
               pr0: Progress)
    returns (pr: Progress)
    requires IsIndex(where, ctx.pages)
    ensures pr == Offered(pr0, Row(Key(g.provision, t.code, t.source), p.id, DetailsOf(ctx, p, g.provision, t)), text)
  {
    pr := pr0;
    var key := Key(g.provision, t.code, t.source);
    if text(key) in pr.seen {
      pr := pr.(repeats := pr.repeats + 1);
    } else {
      var details := Resolve(ctx, where, p, g.provision, t);
      pr := pr.(rows := pr.rows + [Row(key, p.id, details)], seen := pr.seen + {text(key)});
    }
  }

  method TakeTag(ctx: Context, where: map<string, seq<Page>>, p: Page, g: Group, i: nat, text: Key -> string,
                 pr0: Progress, ghost lookup: Lookup, ghost found: Found, ghost before: Found)
    returns (pr: Progress, ghost after: Found)
    requires IsIndex(where, ctx.pages) && LooksUp(lookup, ctx) && i < |g.tags|
    requires before == FromGroup(found, p, g, i, lookup) && Collected(pr0, text, before)
    ensures after == FromGroup(found, p, g, i + 1, lookup) && Collected(pr, text, after)
  {
    after := FromGroup(found, p, g, i + 1, lookup);
    if g.tags[i].source == APPENDIX { return pr0.(appendix := pr0.appendix + 1), after; }
    OfferedIsCollected(pr0, RowOf(p, g, g.tags[i], lookup), text, before);
    pr := Offer(ctx, where, p, g, g.tags[i], text, pr0);
  }

  method TakeGroup(ctx: Context, where: map<string, seq<Page>>, p: Page, g: Group, text: Key -> string,
                   pr0: Progress, ghost lookup: Lookup, ghost found: Found)
    returns (pr: Progress)
    requires IsIndex(where, ctx.pages) && LooksUp(lookup, ctx) && Collected(pr0, text, found)
    ensures Collected(pr, text, FromGroup(found, p, g, |g.tags|, lookup))
  {
    pr := pr0;
    ghost var now := found;
    var i := 0;
    while i < |g.tags|
      invariant i <= |g.tags|
      invariant now == FromGroup(found, p, g, i, lookup) && Collected(pr, text, now)
    {
      pr, now := TakeTag(ctx, where, p, g, i, text, pr, lookup, found, now);
      i := i + 1;
    }
  }

  method TakePage(ctx: Context, where: map<string, seq<Page>>, p: Page, editor: Editor, text: Key -> string,
                  pr0: Progress, ghost lookup: Lookup, ghost found: Found)
    returns (pr: Progress)
    requires IsIndex(where, ctx.pages) && LooksUp(lookup, ctx) && Collected(pr0, text, found)
    ensures Collected(pr, text, FromPage(found, p, editor, |editor.groups|, lookup))
  {
    pr := pr0;
    var i := 0;
    while i < |editor.groups|
      invariant i <= |editor.groups|
      invariant Collected(pr, text, FromPage(found, p, editor, i, lookup))
    {
      var g := editor.groups[i];
      ghost var before := FromPage(found, p, editor, i, lookup);
      i := i + 1;
      if !Linkable(editor, g) {
        pr := pr.(otherLevel := pr.otherLevel + |g.tags|);
        continue;
      }
      pr := TakeGroup(ctx, where, p, g, text, pr, lookup, before);
    }
  }

  method TakeOne(ctx: Context, where: map<string, seq<Page>>, p: Page, text: Key -> string, pr0: Progress,
                 ghost lookup: Lookup, ghost found: Found)
    returns (pr: Progress)
    requires IsIndex(where, ctx.pages) && LooksUp(lookup, ctx) && Collected(pr0, text, found)
    ensures Collected(pr, text, WithPage(found, p, lookup))
  {
    if p.editor.None? || p.editor.value.groups == [] { return pr0; }
    pr := TakePage(ctx, where, p, p.editor.value, text, pr0, lookup, found);
  }

  method TakePages(ctx: Context, where: map<string, seq<Page>>, text: Key -> string, ghost lookup: Lookup)
    returns (pr: Progress)
    requires IsIndex(where, ctx.pages) && LooksUp(lookup, ctx)
    ensures Collected(pr, text, FromPages(ctx.pages, |ctx.pages|, lookup))
  {
    pr := Progress([], {}, 0, 0, 0);
    ghost var found := Found([], 0, 0);
    var i := 0;
    while i < |ctx.pages|
      invariant i <= |ctx.pages|
      invariant found == FromPages(ctx.pages, i, lookup) && Collected(pr, text, found)
    {
      pr := TakeOne(ctx, where, ctx.pages[i], text, pr, lookup, found);
      found := WithPage(found, ctx.pages[i], lookup);
      i := i + 1;
    }
  }

  /** All pages; every tag read is kept as a link, or counted as a repeat or as skipped, once. */
  method BuildRows(ctx: Context) returns (rows: seq<Row>, repeats: nat, appendix: nat, otherLevel: nat)
    ensures var found := FromPages(ctx.pages, |ctx.pages|, LookupOf(ctx));
      rows == Firsts(found.rows, Text) && appendix == found.appendix && otherLevel == found.otherLevel
    ensures DistinctKeys(rows)
    ensures |rows| + repeats + appendix + otherLevel == PageTags(ctx.pages)
  {
    var where := IndexPages(ctx.pages);
    var pr := TakePages(ctx, where, Text, LookupOf(ctx));
    KeptKeysAreDistinct(FromPages(ctx.pages, |ctx.pages|, LookupOf(ctx)).rows, Text);
    EveryTagIsCounted(ctx.pages, |ctx.pages|, LookupOf(ctx));
    assert ctx.pages[..|ctx.pages|] == ctx.pages;
    rows, repeats, appendix, otherLevel := pr.rows, pr.repeats, pr.appendix, pr.otherLevel;
  }

  /** The pages that are the whole truth about their own tags: read, and holding provisions. */
  predicate Prunable(p: Page) {
    p.editor.Some? && |p.editor.value.levels| > 0
  }

  function PrunableDocs(pages: seq<Page>): seq<Id> {
    if pages == [] then []
    else
      var p := pages[|pages| - 1];
      var docs := PrunableDocs(pages[..|pages| - 1]);
      if Prunable(p) then docs + [p.id] else docs
  }

  /** Only pages that were read and hold provisions are listed, and all of them. */
  lemma {:induction false} PrunableDocsAreExact(pages: seq<Page>, d: Id)
    ensures d in PrunableDocs(pages) <==> exists i :: 0 <= i < |pages| && pages[i].id == d && Prunable(pages[i])
  {
    if pages != [] {
      var n := |pages| - 1;
      PrunableDocsAreExact(pages[..n], d);
      if exists i :: 0 <= i < |pages[..n]| && pages[..n][i].id == d && Prunable(pages[..n][i]) {
        var i :| 0 <= i < n && pages[..n][i].id == d && Prunable(pages[..n][i]);
        assert pages[i].id == d && Prunable(pages[i]);
      }
      if exists i :: 0 <= i < |pages| && pages[i].id == d && Prunable(pages[i]) {
        var i :| 0 <= i < |pages| && pages[i].id == d && Prunable(pages[i]);
        if i < n { assert pages[..n][i].id == d && Prunable(pages[..n][i]); }
      }
    }
  }

  lemma {:induction false} PrunableDocsAreDistinct(pages: seq<Page>)
    requires forall i, j :: 0 <= i < j < |pages| ==> pages[i].id != pages[j].id
    ensures AllDifferent(PrunableDocs(pages))
  {
    if pages != [] {
      var init, p := pages[..|pages| - 1], pages[|pages| - 1];
      PrunableDocsAreDistinct(init);
      PrunableDocsAreExact(init, p.id);
      assert p.id !in PrunableDocs(init);
    }
  }
}
