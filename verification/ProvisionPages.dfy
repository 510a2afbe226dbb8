/** Crawled pages of law with the tags editors left in them, and the links read off them. */
module ProvisionPages {
  import opened Options

  datatype Id = Id(name: string)

  predicate IsAlnum(c: char) {
    '0' <= c <= '9' || 'A' <= c <= 'Z' || 'a' <= c <= 'z'
  }

  /** What a tag may name as its source: a letter or digit, then those, underscores and hyphens. */
  predicate IsSource(s: string) {
    && s != "" && IsAlnum(s[0])
    && forall i :: 0 <= i < |s| ==> IsAlnum(s[i]) || s[i] == '_' || s[i] == '-'
  }

  type SourceId = s: string | IsSource(s) witness "0"

  datatype Tag = Tag(code: int, source: SourceId, attr: string)

  /** The tags on one provision of a page. */
  datatype Group = Group(provision: string, tags: seq<Tag>)

  /** The provisions of a page with their levels, and the tagged ones among them in the order of their ids. */
  datatype Editor = Editor(levels: map<string, string>, groups: seq<Group>)

  /** A page; None when it could not be read. */
  datatype Page = Page(id: Id, editor: Option<Editor>)

  datatype Key = Key(provision: string, code: int, source: string)

  datatype Origin = OfPage | OfTarget | OfCatalogue | Nowhere

  /** What else is stored with a link: where it stands, which document acts, and from when to when. */
  datatype Details = Details(level: string, path: string, op: string, attr: string,
                             acting: Option<Id>, actingFrom: Origin, actingPath: string,
                             effFrom: Option<int>, effTo: Option<int>, effSource: Origin)

  datatype Row = Row(key: Key, doc: Id, details: Details)

  /** What else is stored with a link is looked up elsewhere. */
  type Lookup = (Page, string, Tag) -> Details
}
