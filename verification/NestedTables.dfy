/**
 * Tables inside tables: inner ones are expanded first, so what a merged cell copies is already
 * expanded.
 */
module NestedTables {
  import opened Expansion
  import opened MergedCells

  function Normalized(node: Node): Node {
    match node
    case Leaf(_) => node
    case Table(rows) => Table(Expanded(InnerRows(rows)))
  }

  function InnerRows(rows: seq<Row>): (inner: seq<Row>)
    ensures |inner| == |rows|
  {
    if rows == [] then []
    else InnerRows(rows[..|rows| - 1])
         + [Row(rows[|rows| - 1].gridBefore, InnerCells(rows[|rows| - 1].cells))]
  }

  function InnerCells(cells: seq<Cell>): (inner: seq<Cell>)
    ensures |inner| == |cells|
  {
    if cells == [] then []
    else InnerCells(cells[..|cells| - 1])
         + [cells[|cells| - 1].(content := InnerNodes(cells[|cells| - 1].content))]
  }

  function InnerNodes(nodes: seq<Node>): seq<Node> {
    if nodes == [] then []
    else InnerNodes(nodes[..|nodes| - 1]) + [Normalized(nodes[|nodes| - 1])]
  }

  /** No table at any depth has a restart cell left. */
  predicate Clean(node: Node) {
    match node
    case Leaf(_) => true
    case Table(rows) => Plain(rows) && CleanRows(rows)
  }

  predicate CleanRows(rows: seq<Row>) {
    forall row <- rows :: CleanCells(row.cells)
  }

  predicate CleanCells(cells: seq<Cell>) {
    forall cell <- cells :: CleanNodes(cell.content)
  }

  predicate CleanNodes(nodes: seq<Node>) {
    forall node <- nodes :: Clean(node)
  }

  lemma {:induction false} NormalizedIsClean(node: Node)
    ensures Clean(Normalized(node))
    decreases node
  {
    if node.Table? {
      InnerRowsAreClean(node.rows);
      var inner := InnerRows(node.rows);
      ExpandedIsPlain(inner);
      ExpandedKeepsClean(inner);
    }
  }

  lemma {:induction false} InnerRowsAreClean(rows: seq<Row>)
    ensures CleanRows(InnerRows(rows))
    decreases rows
  {
    if rows != [] {
      InnerRowsAreClean(rows[..|rows| - 1]);
      InnerCellsAreClean(rows[|rows| - 1].cells);
    }
  }

  lemma {:induction false} InnerCellsAreClean(cells: seq<Cell>)
    ensures CleanCells(InnerCells(cells))
    decreases cells
  {
    if cells != [] {
      InnerCellsAreClean(cells[..|cells| - 1]);
      InnerNodesAreClean(cells[|cells| - 1].content);
    }
  }

  lemma {:induction false} InnerNodesAreClean(nodes: seq<Node>)
    ensures CleanNodes(InnerNodes(nodes))
    decreases nodes
  {
    if nodes != [] {
      InnerNodesAreClean(nodes[..|nodes| - 1]);
      NormalizedIsClean(nodes[|nodes| - 1]);
    }
  }

  /** Every cell of the expanded table shows the content of some cell of the table. */
  lemma ExpandedKeepsClean(rows: seq<Row>)
    requires CleanRows(rows)
    ensures CleanRows(Expanded(rows))
  {
    var after := Expanded(rows);
    forall r, c | 0 <= r < |after| && 0 <= c < |after[r].cells| ensures CleanNodes(after[r].cells[c].content) {
      assert after[r].cells[c] == Filled(rows, r, c);
      var p := if Master(rows, r, c).Some? then Master(rows, r, c).value else Position(r, c);
      assert rows[p.row] in rows && CellAt(rows, p) in rows[p.row].cells;
    }
    forall row | row in after ensures CleanCells(row.cells) {
    }
  }

  lemma {:induction false} CleanIsLeftAlone(node: Node)
    requires Clean(node)
    ensures Normalized(node) == node
    decreases node
  {
    if node.Table? {
      CleanRowsAreLeftAlone(node.rows);
      PlainIsLeftAlone(node.rows);
    }
  }

  lemma {:induction false} CleanRowsAreLeftAlone(rows: seq<Row>)
    requires CleanRows(rows)
    ensures InnerRows(rows) == rows
    decreases rows
  {
    if rows != [] {
      var init, last := rows[..|rows| - 1], rows[|rows| - 1];
      assert CleanRows(init) && CleanCells(last.cells);
      CleanRowsAreLeftAlone(init);
      CleanCellsAreLeftAlone(last.cells);
      assert rows == init + [last];
    }
  }

  lemma CleanPrefix(cells: seq<Cell>)
    requires CleanCells(cells) && cells != []
    ensures CleanCells(cells[..|cells| - 1]) && CleanNodes(cells[|cells| - 1].content)
  {
    assert cells[|cells| - 1] in cells;
  }

  lemma {:induction false} CleanCellsAreLeftAlone(cells: seq<Cell>)
    requires CleanCells(cells)
    ensures InnerCells(cells) == cells
    decreases cells
  {
    if cells != [] {
      var init, last := cells[..|cells| - 1], cells[|cells| - 1];
      CleanPrefix(cells);
      CleanCellsAreLeftAlone(init);
      CleanNodesAreLeftAlone(last.content);
      assert last.(content := InnerNodes(last.content)) == last;
      assert cells == init + [last];
    }
  }

  lemma {:induction false} CleanNodesAreLeftAlone(nodes: seq<Node>)
    requires CleanNodes(nodes)
    ensures InnerNodes(nodes) == nodes
    decreases nodes
  {
    if nodes != [] {
      CleanNodesAreLeftAlone(nodes[..|nodes| - 1]);
      CleanIsLeftAlone(nodes[|nodes| - 1]);
    }
  }

  /** Expanding a document a second time, tables nested to any depth included, changes nothing. */
  lemma NormalizedIsIdempotent(node: Node)
    ensures Normalized(Normalized(node)) == Normalized(node)
  {
    NormalizedIsClean(node);
    CleanIsLeftAlone(Normalized(node));
  }
}
