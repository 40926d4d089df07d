/** Where every character of the tree view is, stated column by column. */
module TreeColumns {
  import opened Sequences
  import opened TreeModel

  /** An entry: for each of its ancestors and for itself, whether it is the last of its siblings; and its name. */
  datatype Row = Row(lasts: seq<bool>, name: string)

  /** The entries in the order of the view. `above` is for the ancestors of `nodes`. */
  function Rows(nodes: seq<Node>, above: seq<bool>): seq<Row> {
    if nodes == [] then []
    else
      var lasts := above + [|nodes| == 1];
      [Row(lasts, nodes[0].name)]
      + ((if nodes[0].Dir? then Rows(nodes[0].entries, lasts) else []) + Rows(nodes[1..], above))
  }

  /** The columns of the ancestors: the first of each four is a bar if and only if the ancestor is not the last
    * of its siblings; all others are spaces. */
  predicate ColumnsAre(text: string, lasts: seq<bool>) {
    && |text| == 4 * |lasts|
    && (forall i :: 0 <= i < |lasts| ==> (text[4 * i] == VER <==> !lasts[i]))
    && (forall j :: 0 <= j < |text| ==> text[j] == ' ' || (j % 4 == 0 && text[j] == VER))
  }

  /** A line: the ancestors' columns, the corner of a last sibling or the tee of another, two bars, a space, and
    * the name. */
  predicate LineIs(line: string, row: Row)
    requires row.lasts != []
  {
    var d := |row.lasts| - 1;
    && |line| == 4 * d + 4 + |row.name|
    && ColumnsAre(line[..4 * d], row.lasts[..d])
    && line[4 * d] == (if row.lasts[d] then ELB else TEE)
    && line[4 * d + 1] == HOR && line[4 * d + 2] == HOR && line[4 * d + 3] == ' '
    && line[4 * d + 4..] == row.name
  }

  /** The text is one line for each entry, in order, and nothing else. */
  ghost predicate Shows(text: string, rows: seq<Row>) {
    if rows == [] then text == ""
    else
      var n := 4 * |rows[0].lasts| + |rows[0].name|;
      && rows[0].lasts != []
      && |text| > n && text[n] == '\n'
      && LineIs(text[..n], rows[0])
      && Shows(text[n + 1..], rows[1..])
  }

  lemma LineShows(prefix: string, above: seq<bool>, last: bool, name: string)
    requires ColumnsAre(prefix, above)
    ensures
      var line := TreeLine(prefix, last, name);
      var n := 4 * |above| + 4 + |name|;
      |line| == n + 1 && line[n] == '\n' && LineIs(line[..n], Row(above + [last], name))
  {
    var line := TreeLine(prefix, last, name);
    var lasts := above + [last];
    assert line[..4 * |above|] == prefix && lasts[..|above|] == above;
    assert line[4 * |above| + 4..|line| - 1] == name;
    var shown := line[..|line| - 1];
    assert shown[..4 * |above|] == prefix && shown[4 * |above| + 4..] == name;
  }

  lemma ColumnsBelow(prefix: string, above: seq<bool>, last: bool)
    requires ColumnsAre(prefix, above)
    ensures ColumnsAre(prefix + Below(last), above + [last])
  {
    var text, lasts := prefix + Below(last), above + [last];
    forall i | 0 <= i < |lasts| ensures text[4 * i] == VER <==> !lasts[i] {
      assert i < |above| ==> text[4 * i] == prefix[4 * i];
    }
    forall j | 0 <= j < |text| ensures text[j] == ' ' || (j % 4 == 0 && text[j] == VER) {
      assert j < |prefix| ==> text[j] == prefix[j];
    }
  }

  /** Putting a line before a text that shows the rest. */
  lemma ShowsMore(line: string, text: string, row: Row, rows: seq<Row>)
    requires row.lasts != [] && |line| == 4 * |row.lasts| + |row.name| + 1
    requires line[|line| - 1] == '\n' && LineIs(line[..|line| - 1], row) && Shows(text, rows)
    ensures Shows(line + text, [row] + rows)
  {
    var n := |line| - 1;
    assert (line + text)[..n] == line[..n] && (line + text)[n + 1..] == text;
    assert ([row] + rows)[1..] == rows;
  }

  lemma {:induction false} TextShows(
      nodes: seq<Node>, prefix: string, above: seq<bool>, rest: string, rows: seq<Row>)
    requires ColumnsAre(prefix, above) && Shows(rest, rows)
    ensures Shows(TreeText(nodes, prefix) + rest, Rows(nodes, above) + rows)
    decreases nodes
  {
    if nodes == [] {
      assert TreeText(nodes, prefix) + rest == rest && Rows(nodes, above) + rows == rows;
    } else {
      TextShows(nodes[1..], prefix, above, rest, rows);
      EntryShows(nodes[0], prefix, above, |nodes| == 1,
                 TreeText(nodes[1..], prefix) + rest, Rows(nodes[1..], above) + rows);
      TextSplits(nodes, prefix, rest);
      RowsSplit(nodes, above, rows);
    }
  }

  function TextBelow(node: Node, prefix: string, last: bool): string {
    if node.Dir? then TreeText(node.entries, prefix + Below(last)) else ""
  }

  function RowsBelow(node: Node, above: seq<bool>, last: bool): seq<Row> {
    if node.Dir? then Rows(node.entries, above + [last]) else []
  }

  lemma TextSplits(nodes: seq<Node>, prefix: string, rest: string)
    requires nodes != []
    ensures
      var last := |nodes| == 1;
      TreeText(nodes, prefix) + rest ==
      TreeLine(prefix, last, nodes[0].name)
      + (TextBelow(nodes[0], prefix, last) + (TreeText(nodes[1..], prefix) + rest))
  {
    var last := |nodes| == 1;
    Regroup(TreeLine(prefix, last, nodes[0].name), TextBelow(nodes[0], prefix, last),
            TreeText(nodes[1..], prefix), rest);
  }

  lemma RowsSplit(nodes: seq<Node>, above: seq<bool>, rows: seq<Row>)
    requires nodes != []
    ensures
      var last := |nodes| == 1;
      Rows(nodes, above) + rows ==
      [Row(above + [last], nodes[0].name)]
      + (RowsBelow(nodes[0], above, last) + (Rows(nodes[1..], above) + rows))
  {
    var last := |nodes| == 1;
    var first, below, more := [Row(above + [last], nodes[0].name)], RowsBelow(nodes[0], above, last),
                              Rows(nodes[1..], above);
    assert Rows(nodes, above) == first + (below + more);
    assert (first + (below + more)) + rows == first + (below + (more + rows));
  }

  lemma {:induction false} EntryShows(
      node: Node, prefix: string, above: seq<bool>, last: bool, rest: string, rows: seq<Row>)
    requires ColumnsAre(prefix, above) && Shows(rest, rows)
    ensures Shows(TreeLine(prefix, last, node.name) + (TextBelow(node, prefix, last) + rest),
                  [Row(above + [last], node.name)] + (RowsBelow(node, above, last) + rows))
    decreases node
  {
    LineShows(prefix, above, last, node.name);
    assert Shows(TextBelow(node, prefix, last) + rest, RowsBelow(node, above, last) + rows) by {
      if node.Dir? {
        ColumnsBelow(prefix, above, last);
        TextShows(node.entries, prefix + Below(last), above + [last], rest, rows);
      } else {
        assert TextBelow(node, prefix, last) + rest == rest;
        assert RowsBelow(node, above, last) + rows == rows;
      }
    }
    ShowsMore(TreeLine(prefix, last, node.name), TextBelow(node, prefix, last) + rest,
              Row(above + [last], node.name), RowsBelow(node, above, last) + rows);
  }

  /** For every directory: each line of the tree view has a bar exactly below the ancestors that are not the last
    * of their siblings, spaces elsewhere, and the corner or the tee of its own entry. */
  lemma TreeViewIs(nodes: seq<Node>)
    ensures Shows(TreeText(nodes, ""), Rows(nodes, []))
  {
    TextShows(nodes, "", [], "", []);
    assert TreeText(nodes, "") + "" == TreeText(nodes, "") && Rows(nodes, []) + [] == Rows(nodes, []);
  }
}
