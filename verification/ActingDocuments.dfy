/**
 * Which document acts in a link. A tag names the acting provision by its id alone; the acting document
 * is one whose page holds a provision with that id, and of several the one another source names, else
 * one of the catalogue, else any, in the order of their ids.
 */
module ActingDocuments {
  import opened Options
  import opened ProvisionPages
  import opened StringOrder
  import Sorting

  /** What the other source says of a tagged provision and an acting one. */
  datatype Target = Target(doc: Option<Id>, effFrom: Option<int>, effTo: Option<int>)

  /** All that a link is looked up in; the catalogue, with its dates, may be missing. */
  datatype Context = Context(pages: seq<Page>, catalog: Option<map<Id, Option<int>>>, targets: map<string, Target>,
                             path: (Page, string) -> string, op: int -> string)

  predicate Holds(p: Page, source: string) {
    p.editor.Some? && source in p.editor.value.levels
  }

  /** The pages that hold a provision, in their order. */
  function Holders(pages: seq<Page>, source: string): seq<Page> {
    if pages == [] then []
    else
      var before, p := Holders(pages[..|pages| - 1], source), pages[|pages| - 1];
      if Holds(p, source) then before + [p] else before
  }

  function Others(pages: seq<Page>, self: Id): seq<Page> {
    if pages == [] then []
    else
      var before, p := Others(pages[..|pages| - 1], self), pages[|pages| - 1];
      if p.id == self then before else before + [p]
  }

  predicate InCatalog(catalog: Option<map<Id, Option<int>>>, p: Page) {
    catalog.Some? && p.id in catalog.value
  }

  function Catalogued(catalog: Option<map<Id, Option<int>>>, pages: seq<Page>): seq<Page> {
    if pages == [] then []
    else
      var before, p := Catalogued(catalog, pages[..|pages| - 1]), pages[|pages| - 1];
      if InCatalog(catalog, p) then before + [p] else before
  }

  predicate ByName(p: Page, q: Page) {
    UpTo(p.id.name, q.id.name)
  }

  function Named(pages: seq<Page>, id: Id): Option<Page> {
    if pages == [] then None
    else
      match Named(pages[..|pages| - 1], id)
      case Some(p) => Some(p)
      case None => if pages[|pages| - 1].id == id then Some(pages[|pages| - 1]) else None
  }

  /** The pages left when several hold the provision. */
  function PickB(cands: seq<Page>, catalog: Option<map<Id, Option<int>>>, doc: Option<Id>): seq<Page> {
    if doc.Some? && Named(cands, doc.value).Some? then [Named(cands, doc.value).value]
    else Sorting.Sort(ByName, if Catalogued(catalog, cands) == [] then cands else Catalogued(catalog, cands))
  }

  function Narrowed(cands: seq<Page>, catalog: Option<map<Id, Option<int>>>, doc: Option<Id>): seq<Page> {
    if |cands| > 1 then PickB(cands, catalog, doc) else cands
  }

  function Chosen(ctx: Context, self: Id, source: string, doc: Option<Id>): Option<Page> {
    var cands := Narrowed(Others(Holders(ctx.pages, source), self), ctx.catalog, doc);
    if cands == [] then None else Some(cands[0])
  }

  // ----- what the choice means -----

  /** The page of another document that holds the provision. */
  predicate Candidate(pages: seq<Page>, self: Id, source: string, p: Page) {
    p in pages && Holds(p, source) && p.id != self
  }

  /** Named by the other source, else in the catalogue, else any. */
  function Rank(catalog: Option<map<Id, Option<int>>>, doc: Option<Id>, p: Page): nat {
    if doc == Some(p.id) then 0 else if InCatalog(catalog, p) then 1 else 2
  }

  predicate NoWorse(catalog: Option<map<Id, Option<int>>>, doc: Option<Id>, p: Page, q: Page) {
    Rank(catalog, doc, p) < Rank(catalog, doc, q) || (Rank(catalog, doc, p) == Rank(catalog, doc, q) && ByName(p, q))
  }

  lemma {:induction false} HoldersHold(pages: seq<Page>, source: string, p: Page)
    ensures p in Holders(pages, source) <==> p in pages && Holds(p, source)
  {
    if pages != [] {
      assert pages == pages[..|pages| - 1] + [pages[|pages| - 1]];
      HoldersHold(pages[..|pages| - 1], source, p);
    }
  }

  lemma {:induction false} OthersAreOthers(pages: seq<Page>, self: Id, p: Page)
    ensures p in Others(pages, self) <==> p in pages && p.id != self
  {
    if pages != [] {
      assert pages == pages[..|pages| - 1] + [pages[|pages| - 1]];
      OthersAreOthers(pages[..|pages| - 1], self, p);
    }
  }

  lemma {:induction false} CataloguedAre(catalog: Option<map<Id, Option<int>>>, pages: seq<Page>, p: Page)
    ensures p in Catalogued(catalog, pages) <==> p in pages && InCatalog(catalog, p)
  {
    if pages != [] {
      assert pages == pages[..|pages| - 1] + [pages[|pages| - 1]];
      CataloguedAre(catalog, pages[..|pages| - 1], p);
    }
  }

  lemma {:induction false} NamedIs(pages: seq<Page>, id: Id, p: Page)
    ensures Named(pages, id).Some? ==> Named(pages, id).value in pages && Named(pages, id).value.id == id
    ensures p in pages && p.id == id ==> Named(pages, id).Some?
  {
    if pages != [] {
      assert pages == pages[..|pages| - 1] + [pages[|pages| - 1]];
      NamedIs(pages[..|pages| - 1], id, p);
    }
  }

  lemma ByNameIsOrder()
    ensures Sorting.TotalPreorder(ByName)
  {
    UpToIsOrder();
    forall p, q ensures ByName(p, q) || ByName(q, p) {
      UpToIsTotal(p.id.name, q.id.name);
    }
    forall p, q, r | ByName(p, q) && ByName(q, r) ensures ByName(p, r) {
      UpToIsTransitive(p.id.name, q.id.name, r.id.name);
    }
  }

  lemma FirstIsLeast(pages: seq<Page>, q: Page)
    requires q in pages
    ensures Sorting.Sort(ByName, pages) != [] && Sorting.Sort(ByName, pages)[0] in pages
    ensures ByName(Sorting.Sort(ByName, pages)[0], q)
  {
    ByNameIsOrder();
    Sorting.SortSorts(ByName, pages);
    var sorted := Sorting.Sort(ByName, pages);
    var i :| 0 <= i < |sorted| && sorted[i] == q;
    UpToIsTotal(q.id.name, q.id.name);
  }

  /** Where the other source names none, the first in order of those kept is one of the best. */
  lemma SortedIsBest(cands: seq<Page>, catalog: Option<map<Id, Option<int>>>, doc: Option<Id>, q: Page)
    requires q in cands && (doc.Some? ==> Named(cands, doc.value).None?)
    ensures var left := PickB(cands, catalog, doc);
      left != [] && left[0] in cands && NoWorse(catalog, doc, left[0], q)
  {
    var listed := Catalogued(catalog, cands);
    CataloguedAre(catalog, cands, q);
    if listed == [] {
      FirstIsLeast(cands, q);
      LeastOfRank(cands, catalog, doc, Sorting.Sort(ByName, cands)[0], q);
    } else {
      FirstIsLeast(listed, listed[0]);
      var b := Sorting.Sort(ByName, listed)[0];
      CataloguedAre(catalog, cands, b);
      if q in listed { FirstIsLeast(listed, q); }
      LeastListed(cands, catalog, doc, b, q);
    }
  }

  /** Of several candidates the first of those left is one of the best. */
  lemma NarrowedIsBest(cands: seq<Page>, catalog: Option<map<Id, Option<int>>>, doc: Option<Id>, q: Page)
    requires q in cands
    ensures var left := Narrowed(cands, catalog, doc);
      left != [] && left[0] in cands && NoWorse(catalog, doc, left[0], q)
  {
    UpToIsTotal(q.id.name, q.id.name);
    if |cands| == 1 {
      assert cands[0] == q;
    } else if doc.Some? && Named(cands, doc.value).Some? {
      NamedIs(cands, doc.value, q);
    } else {
      SortedIsBest(cands, catalog, doc, q);
    }
  }

  lemma LeastOfRank(cands: seq<Page>, catalog: Option<map<Id, Option<int>>>, doc: Option<Id>, b: Page, q: Page)
    requires b in cands && q in cands && ByName(b, q) && Catalogued(catalog, cands) == []
    requires doc.Some? ==> Named(cands, doc.value).None?
    ensures NoWorse(catalog, doc, b, q)
  {
    CataloguedAre(catalog, cands, b);
    CataloguedAre(catalog, cands, q);
    if doc.Some? {
      NamedIs(cands, doc.value, b);
      NamedIs(cands, doc.value, q);
    }
  }

  lemma LeastListed(cands: seq<Page>, catalog: Option<map<Id, Option<int>>>, doc: Option<Id>, b: Page, q: Page)
    requires b in cands && q in cands && InCatalog(catalog, b) && (InCatalog(catalog, q) ==> ByName(b, q))
    requires doc.Some? ==> Named(cands, doc.value).None?
    ensures NoWorse(catalog, doc, b, q)
  {
    if doc.Some? {
      NamedIs(cands, doc.value, b);
      NamedIs(cands, doc.value, q);
    }
  }

  /**
   * The page chosen is a candidate no worse than any other: named by the other source, else in the
   * catalogue, else any, and of those the least id. There is none exactly when there is no candidate.
   */
  lemma ChosenIsBest(ctx: Context, self: Id, source: string, doc: Option<Id>, q: Page)
    ensures Candidate(ctx.pages, self, source, q) ==> Chosen(ctx, self, source, doc).Some?
    ensures var b := Chosen(ctx, self, source, doc);
      b.Some? ==>
        && Candidate(ctx.pages, self, source, b.value)
        && (Candidate(ctx.pages, self, source, q) ==> NoWorse(ctx.catalog, doc, b.value, q))
  {
    var cands := Others(Holders(ctx.pages, source), self);
    HoldersHold(ctx.pages, source, q);
    OthersAreOthers(Holders(ctx.pages, source), self, q);
    if q in cands { NarrowedIsBest(cands, ctx.catalog, doc, q); }
    if cands != [] {
      NarrowedIsBest(cands, ctx.catalog, doc, cands[0]);
      var b := Narrowed(cands, ctx.catalog, doc)[0];
      HoldersHold(ctx.pages, source, b);
      OthersAreOthers(Holders(ctx.pages, source), self, b);
    }
  }

  /** The order in which the pages were read makes no difference. */
  lemma OrderMakesNoDifference(ctx: Context, other: seq<Page>, self: Id, source: string, doc: Option<Id>)
    requires forall p :: p in ctx.pages <==> p in other
    requires forall p, q :: p in ctx.pages && q in ctx.pages && p.id == q.id ==> p == q
    ensures Chosen(ctx.(pages := other), self, source, doc) == Chosen(ctx, self, source, doc)
  {
    var a, b := Chosen(ctx, self, source, doc), Chosen(ctx.(pages := other), self, source, doc);
    if a.Some? {
      ChosenIsBest(ctx, self, source, doc, a.value);
      ChosenIsBest(ctx.(pages := other), self, source, doc, a.value);
    }
    if b.Some? {
      ChosenIsBest(ctx.(pages := other), self, source, doc, b.value);
      ChosenIsBest(ctx, self, source, doc, b.value);
      UpToIsAntisymmetric(a.value.id.name, b.value.id.name);
    }
  }

  // ----- what is stored with a link -----

  function TargetOf(ctx: Context, provision: string, source: string): Option<Target> {
    var key := provision + "|" + source;
    if key in ctx.targets then Some(ctx.targets[key]) else None
  }

  function DocOf(target: Option<Target>): Option<Id> {
    if target.Some? then target.value.doc else None
  }

  /** The other source is asked where no page holds the provision; a document never acts on itself. */
  function Actor(b: Option<Page>, target: Option<Target>, self: Id): (Option<Id>, Origin) {
    if b.Some? then (Some(b.value.id), OfPage)
    else if DocOf(target).Some? && DocOf(target).value != self then (DocOf(target), OfTarget)
    else (None, Nowhere)
  }

  function CatalogDate(catalog: Option<map<Id, Option<int>>>, acting: Option<Id>): Option<int> {
    if catalog.Some? && acting.Some? && acting.value in catalog.value then catalog.value[acting.value] else None
  }

  /** The dates of the other source first, then that of the catalogue. */
  function Dates(catalog: Option<map<Id, Option<int>>>, target: Option<Target>, acting: Option<Id>)
    : (Option<int>, Option<int>, Origin)
  {
    var until := if target.Some? then target.value.effTo else None;
    if target.Some? && target.value.effFrom.Some? then (target.value.effFrom, until, OfTarget)
    else if CatalogDate(catalog, acting).Some? then (CatalogDate(catalog, acting), until, OfCatalogue)
    else (None, until, Nowhere)
  }

  function DetailsOf(ctx: Context, p: Page, provision: string, t: Tag): Details {
    var target := TargetOf(ctx, provision, t.source);
    var b := Chosen(ctx, p.id, t.source, DocOf(target));
    var (acting, from) := Actor(b, target, p.id);
    var (effFrom, effTo, effSource) := Dates(ctx.catalog, target, acting);
    Details(if Holds(p, provision) then p.editor.value.levels[provision] else "", ctx.path(p, provision),
            ctx.op(t.code), t.attr, acting, from, if b.Some? then ctx.path(b.value, t.source) else "",
            effFrom, effTo, effSource)
  }

  function LookupOf(ctx: Context): Lookup {
    (p: Page, provision: string, t: Tag) => DetailsOf(ctx, p, provision, t)
  }

  /**
   * What is stored with a link: the chosen page acts, else the other source's document if it is another
   * one; the dates are the other source's, or else begin with the acting document's date in the catalogue.
   */
  lemma DetailsAreExact(ctx: Context, p: Page, provision: string, t: Tag)
    ensures var d, key := DetailsOf(ctx, p, provision, t), provision + "|" + t.source;
      var target := if key in ctx.targets then Some(ctx.targets[key]) else None;
      var named := if target.Some? then target.value.doc else None;
      var b := Chosen(ctx, p.id, t.source, named);
      && (p.editor.Some? && provision in p.editor.value.levels ==> d.level == p.editor.value.levels[provision])
      && d.path == ctx.path(p, provision) && d.op == ctx.op(t.code) && d.attr == t.attr
      && (b.Some? ==> d.acting == Some(b.value.id) && d.actingPath == ctx.path(b.value, t.source))
      && (b.None? && named.Some? && named.value != p.id ==> d.acting == named && d.actingFrom == OfTarget)
      && (b.None? && (named.None? || named.value == p.id) ==> d.acting == None && d.actingFrom == Nowhere)
      && (target.Some? ==> d.effTo == target.value.effTo) && (target.None? ==> d.effTo == None)
      && (if target.Some? && target.value.effFrom.Some? then
            d.effFrom == target.value.effFrom && d.effSource == OfTarget
          else if d.acting.Some? && ctx.catalog.Some? && d.acting.value in ctx.catalog.value
                  && ctx.catalog.value[d.acting.value].Some? then
            d.effFrom == ctx.catalog.value[d.acting.value] && d.effSource == OfCatalogue
          else d.effFrom == None && d.effSource == Nowhere)
  {
  }

  /** No document acts on itself, and a page is chosen whenever there is one. */
  lemma ActingIsAnother(ctx: Context, p: Page, provision: string, t: Tag, q: Page)
    ensures var d := DetailsOf(ctx, p, provision, t);
      && d.acting != Some(p.id)
      && (Candidate(ctx.pages, p.id, t.source, q) ==> d.acting.Some? && d.actingFrom == OfPage)
      && (d.acting.None? <==> d.actingFrom == Nowhere)
  {
    var target := TargetOf(ctx, provision, t.source);
    ChosenIsBest(ctx, p.id, t.source, DocOf(target), q);
  }

  // ----- the algorithm -----

  function HeldBy(where: map<string, seq<Page>>, source: string): seq<Page> {
    if source in where then where[source] else []
  }

  ghost predicate IsIndex(where: map<string, seq<Page>>, pages: seq<Page>) {
    forall source :: HeldBy(where, source) == Holders(pages, source)
  }

  method AddPage(where0: map<string, seq<Page>>, p: Page, ghost before: seq<Page>)
    returns (where: map<string, seq<Page>>)
    requires IsIndex(where0, before)
    ensures IsIndex(where, before + [p])
  {
    assert (before + [p])[..|before|] == before;
    where := where0;
    if p.editor.None? { return; }
    var todo := p.editor.value.levels.Keys;
    while todo != {}
      invariant todo <= p.editor.value.levels.Keys
      invariant forall source :: HeldBy(where, source)
                              == if Holds(p, source) && source !in todo then Holders(before, source) + [p]
                                 else Holders(before, source)
      decreases |todo|
    {
      var source :| source in todo;
      where := where[source := HeldBy(where, source) + [p]];
      todo := todo - {source};
    }
  }

  method IndexPages(pages: seq<Page>) returns (where: map<string, seq<Page>>)
    ensures IsIndex(where, pages)
  {
    where := map[];
    for i := 0 to |pages|
      invariant IsIndex(where, pages[..i])
    {
      where := AddPage(where, pages[i], pages[..i]);
      assert pages[..i] + [pages[i]] == pages[..i + 1];
    }
    assert pages[..|pages|] == pages;
  }

  method LeaveOut(pages: seq<Page>, self: Id) returns (cands: seq<Page>)
    ensures cands == Others(pages, self)
  {
    cands := [];
    for i := 0 to |pages|
      invariant cands == Others(pages[..i], self)
    {
      assert pages[..i + 1][..i] == pages[..i];
      if pages[i].id == self { continue; }
      cands := cands + [pages[i]];
    }
    assert pages[..|pages|] == pages;
  }

  method Pick(cands: seq<Page>, catalog: Option<map<Id, Option<int>>>, doc: Option<Id>) returns (left: seq<Page>)
    ensures left == PickB(cands, catalog, doc)
  {
    if doc.Some? {
      for i := 0 to |cands|
        invariant Named(cands[..i], doc.value).None?
      {
        assert cands[..i + 1][..i] == cands[..i];
        if cands[i].id == doc.value {
          NamedStays(cands, i + 1, doc.value);
          return [cands[i]];
        }
      }
      assert cands[..|cands|] == cands;
    }
    left := [];
    for i := 0 to |cands|
      invariant left == Catalogued(catalog, cands[..i])
    {
      assert cands[..i + 1][..i] == cands[..i];
      if catalog.Some? && cands[i].id in catalog.value { left := left + [cands[i]]; }
    }
    assert cands[..|cands|] == cands;
    left := Sorting.Sort(ByName, if left == [] then cands else left);
  }

  lemma {:induction false} NamedStays(pages: seq<Page>, n: nat, id: Id)
    requires n <= |pages| && Named(pages[..n], id).Some?
    ensures Named(pages, id) == Named(pages[..n], id)
    decreases |pages| - n
  {
    if n < |pages| {
      assert pages[..n + 1][..n] == pages[..n];
      NamedStays(pages, n + 1, id);
    } else {
      assert pages[..n] == pages;
    }
  }

  method Resolve(ctx: Context, where: map<string, seq<Page>>, p: Page, provision: string, t: Tag)
    returns (d: Details)
    requires IsIndex(where, ctx.pages)
    ensures d == DetailsOf(ctx, p, provision, t)
  {
    var target := TargetOf(ctx, provision, t.source);
    var cands := LeaveOut(HeldBy(where, t.source), p.id);
    if |cands| > 1 { cands := Pick(cands, ctx.catalog, DocOf(target)); }
    var b := if cands == [] then None else Some(cands[0]);
    assert b == Chosen(ctx, p.id, t.source, DocOf(target));
    var (acting, from) := Actor(b, target, p.id);
    var (effFrom, effTo, effSource) := Dates(ctx.catalog, target, acting);
    d := Details(if Holds(p, provision) then p.editor.value.levels[provision] else "", ctx.path(p, provision),
                 ctx.op(t.code), t.attr, acting, from, if b.Some? then ctx.path(b.value, t.source) else "",
                 effFrom, effTo, effSource);
  }
}
