/** What expanding nested tables does to the tables inside. */
module NestedRules {
  import opened Expansion
  import opened MergedCells
  import opened NestedTables

  lemma {:induction false} InnerNodesAre(nodes: seq<Node>, i: nat)
    requires i < |nodes|
    ensures |InnerNodes(nodes)| == |nodes| && InnerNodes(nodes)[i] == Normalized(nodes[i])
  {
    var n := |nodes| - 1;
    if n > 0 { InnerNodesAre(nodes[..n], if i < n then i else 0); }
  }

  lemma {:induction false} InnerCellsAre(cells: seq<Cell>, c: nat)
    requires c < |cells|
    ensures InnerCells(cells)[c] == cells[c].(content := InnerNodes(cells[c].content))
  {
    if c < |cells| - 1 { InnerCellsAre(cells[..|cells| - 1], c); }
  }

  lemma {:induction false} InnerRowsAre(rows: seq<Row>, r: nat)
    requires r < |rows|
    ensures InnerRows(rows)[r] == Row(rows[r].gridBefore, InnerCells(rows[r].cells))
  {
    if r < |rows| - 1 { InnerRowsAre(rows[..|rows| - 1], r); }
  }

  /**
   * A document is expanded from inside out: a table becomes the expansion of itself with every node in
   * its cells expanded, and anything else stays as it is.
   */
  lemma InnerTablesComeFirst(rows: seq<Row>, r: nat, c: nat, i: nat)
    requires r < |rows| && c < |rows[r].cells| && i < |rows[r].cells[c].content|
    ensures Normalized(Table(rows)) == Table(Expanded(InnerRows(rows)))
    ensures var inner := InnerRows(rows);
      && |inner| == |rows| && inner[r].gridBefore == rows[r].gridBefore && |inner[r].cells| == |rows[r].cells|
      && var was, now := rows[r].cells[c], inner[r].cells[c];
        && now == was.(content := now.content) && |now.content| == |was.content|
        && now.content[i] == Normalized(was.content[i])
  {
    InnerRowsAre(rows, r);
    InnerCellsAre(rows[r].cells, c);
    InnerNodesAre(rows[r].cells[c].content, i);
  }
}
