/** Both views can be read back. */
module TreeTheorems {
  import opened Sequences
  import opened TreeModel

  predicate OneLine(s: string) { '\n' !in s }

  /** A name that the indented view can carry: one line, and not itself indented by four. */
  predicate NotIndented(s: string) { OneLine(s) && Leading(s) < 4 }

  function Preorder(nodes: seq<Node>, d: int): seq<Item> {
    if nodes == [] then []
    else
      [Item(d, nodes[0].name)]
      + (if nodes[0].Dir? then Preorder(nodes[0].entries, d + 1) else [])
      + Preorder(nodes[1..], d)
  }

  function Kids(node: Node, d: int): seq<Item> {
    if node.Dir? then Preorder(node.entries, d) else []
  }

  lemma PreorderSplits(nodes: seq<Node>, d: int, rest: seq<Item>)
    requires nodes != []
    ensures Preorder(nodes, d) + rest ==
            [Item(d, nodes[0].name)] + (Kids(nodes[0], d + 1) + (Preorder(nodes[1..], d) + rest))
  {
    Regroup([Item(d, nodes[0].name)], Kids(nodes[0], d + 1), Preorder(nodes[1..], d), rest);
  }

  // ---- lines -----------------------------------------------------------------------------------------

  lemma {:induction false} LineEndOf(line: string, rest: string)
    requires OneLine(line)
    ensures LineEnd(line + "\n" + rest) == |line|
  {
    var text := line + "\n" + rest;
    if line != [] {
      assert text[1..] == line[1..] + "\n" + rest;
      LineEndOf(line[1..], rest);
    }
  }

  lemma ItemsOfLine(line: string, rest: string, read: string -> Item)
    requires OneLine(line)
    ensures Items(line + "\n" + rest, read) == [read(line)] + Items(rest, read)
  {
    var text := line + "\n" + rest;
    LineEndOf(line, rest);
    assert text[..|line|] == line && text[|line| + 1..] == rest;
  }

  lemma {:induction false} CornerAfter(prefix: string, rest: string)
    requires forall k :: 0 <= k < |prefix| ==> prefix[k] == VER || prefix[k] == ' '
    requires rest != [] && (rest[0] == TEE || rest[0] == ELB)
    ensures Corner(prefix + rest) == |prefix|
  {
    if prefix == [] {
      assert prefix + rest == rest;
    } else {
      assert (prefix + rest)[1..] == prefix[1..] + rest;
      CornerAfter(prefix[1..], rest);
    }
  }

  lemma {:induction false} LeadingAfter(n: nat, rest: string)
    ensures Leading(Spaces(n) + rest) == n + Leading(rest)
  {
    if n == 0 {
      assert Spaces(n) + rest == rest;
    } else {
      assert (Spaces(n) + rest)[1..] == Spaces(n - 1) + rest;
      LeadingAfter(n - 1, rest);
    }
  }

  // ---- from text to items ------------------------------------------------------------------------------

  /** The columns of an entry at depth `d`: bars and spaces, four for every ancestor. */
  ghost predicate Bars(prefix: string, d: nat) {
    && |prefix| == 4 * d
    && forall k :: 0 <= k < |prefix| ==> prefix[k] == VER || prefix[k] == ' '
  }

  lemma MarkReads(prefix: string, d: nat, mark: string, name: string)
    requires Bars(prefix, d) && |mark| == 4 && (mark[0] == TEE || mark[0] == ELB)
    ensures ReadTreeLine(prefix + mark + name) == Item(d, name)
  {
    var line := prefix + mark + name;
    assert line == prefix + (mark + name);
    CornerAfter(prefix, mark + name);
    assert line[4 * d + 4..] == name;
  }

  lemma TreeLineReads(prefix: string, d: nat, last: bool, name: string, rest: string)
    requires Bars(prefix, d) && OneLine(name)
    ensures Items(TreeLine(prefix, last, name) + rest, ReadTreeLine) ==
            [Item(d, name)] + Items(rest, ReadTreeLine)
  {
    var mark := [if last then ELB else TEE, HOR, HOR, ' '];
    MarkReads(prefix, d, mark, name);
    assert OneLine(prefix) && OneLine(mark) && OneLine(prefix + mark + name);
    ItemsOfLine(prefix + mark + name, rest, ReadTreeLine);
  }

  function TreeBelow(node: Node, prefix: string, last: bool): string {
    if node.Dir? then TreeText(node.entries, prefix + Below(last)) else ""
  }

  lemma TreeTextSplits(nodes: seq<Node>, prefix: string, rest: string)
    requires nodes != []
    ensures TreeText(nodes, prefix) + rest ==
      TreeLine(prefix, |nodes| == 1, nodes[0].name)
      + (TreeBelow(nodes[0], prefix, |nodes| == 1) + (TreeText(nodes[1..], prefix) + rest))
  {
    Regroup(TreeLine(prefix, |nodes| == 1, nodes[0].name), TreeBelow(nodes[0], prefix, |nodes| == 1),
            TreeText(nodes[1..], prefix), rest);
  }

  lemma BarsBelow(prefix: string, d: nat, last: bool)
    requires Bars(prefix, d)
    ensures Bars(prefix + Below(last), d + 1)
  {
    var below := Below(last);
    assert |below| == 4;
    forall k | 0 <= k < |prefix + below| ensures (prefix + below)[k] == VER || (prefix + below)[k] == ' ' {
      assert k >= |prefix| ==> (prefix + below)[k] == below[k - |prefix|];
    }
  }

  lemma {:induction false} ItemsOfTree(nodes: seq<Node>, prefix: string, d: nat, rest: string)
    requires AllNames(nodes, OneLine) && Bars(prefix, d)
    ensures Items(TreeText(nodes, prefix) + rest, ReadTreeLine) ==
            Preorder(nodes, d) + Items(rest, ReadTreeLine)
    decreases nodes
  {
    if nodes == [] {
      Regroup([], [], [], rest);
      Regroup([], [], [], Items(rest, ReadTreeLine));
    } else {
      TreeTextSplits(nodes, prefix, rest);
      ItemsOfTreeEntry(nodes[0], prefix, d, |nodes| == 1, TreeText(nodes[1..], prefix) + rest);
      ItemsOfTree(nodes[1..], prefix, d, rest);
      PreorderSplits(nodes, d, Items(rest, ReadTreeLine));
    }
  }

  lemma {:induction false} ItemsOfTreeEntry(node: Node, prefix: string, d: nat, last: bool, more: string)
    requires OneLine(node.name) && (node.Dir? ==> AllNames(node.entries, OneLine))
    requires Bars(prefix, d)
    ensures Items(TreeLine(prefix, last, node.name) + (TreeBelow(node, prefix, last) + more), ReadTreeLine) ==
            [Item(d, node.name)] + (Kids(node, d + 1) + Items(more, ReadTreeLine))
    decreases node
  {
    TreeLineReads(prefix, d, last, node.name, TreeBelow(node, prefix, last) + more);
    BarsBelow(prefix, d, last);
    if node.Dir? {
      ItemsOfTree(node.entries, prefix + Below(last), d + 1, more);
    } else {
      Regroup([], [], [], more);
      Regroup([], [], [], Items(more, ReadTreeLine));
    }
  }

  lemma IndentReads(d: nat, name: string)
    requires Leading(name) < 4
    ensures ReadDirLine(Spaces(4 * d + 4) + name) == Item(d, name)
  {
    var line := Spaces(4 * d + 4) + name;
    LeadingAfter(4 * d + 4, name);
    assert Leading(line) / 4 == d + 1;
    assert line[4 * (d + 1)..] == name;
  }

  function DirLine(d: nat, name: string): string {
    Spaces(4 * d + 4) + name + "\n"
  }

  lemma DirLineReads(d: nat, name: string, rest: string)
    requires NotIndented(name)
    ensures Items(DirLine(d, name) + rest, ReadDirLine) == [Item(d, name)] + Items(rest, ReadDirLine)
  {
    IndentReads(d, name);
    var spaces := Spaces(4 * d + 4);
    var line := spaces + name;
    assert OneLine(line) by {
      assert forall k :: 0 <= k < |line| ==> line[k] == if k < |spaces| then spaces[k] else name[k - |spaces|];
    }
    ItemsOfLine(line, rest, ReadDirLine);
  }

  function DirBelow(node: Node, d: nat): string {
    if node.Dir? then DirText(node.entries, 4 * d + 4) else ""
  }

  lemma DirTextSplits(nodes: seq<Node>, d: nat, rest: string)
    requires nodes != []
    ensures DirText(nodes, 4 * d) + rest ==
            DirLine(d, nodes[0].name) + (DirBelow(nodes[0], d) + (DirText(nodes[1..], 4 * d) + rest))
  {
    Regroup(DirLine(d, nodes[0].name), DirBelow(nodes[0], d), DirText(nodes[1..], 4 * d), rest);
  }

  lemma {:induction false} ItemsOfDir(nodes: seq<Node>, d: nat, rest: string)
    requires AllNames(nodes, NotIndented)
    ensures Items(DirText(nodes, 4 * d) + rest, ReadDirLine) == Preorder(nodes, d) + Items(rest, ReadDirLine)
    decreases nodes
  {
    if nodes == [] {
      assert DirText(nodes, 4 * d) + rest == rest;
      assert Preorder(nodes, d) + Items(rest, ReadDirLine) == Items(rest, ReadDirLine);
    } else {
      DirTextSplits(nodes, d, rest);
      ItemsOfDirEntry(nodes[0], d, DirText(nodes[1..], 4 * d) + rest);
      ItemsOfDir(nodes[1..], d, rest);
      PreorderSplits(nodes, d, Items(rest, ReadDirLine));
    }
  }

  lemma {:induction false} ItemsOfDirEntry(node: Node, d: nat, more: string)
    requires NotIndented(node.name) && (node.Dir? ==> AllNames(node.entries, NotIndented))
    ensures Items(DirLine(d, node.name) + (DirBelow(node, d) + more), ReadDirLine) ==
            [Item(d, node.name)] + (Kids(node, d + 1) + Items(more, ReadDirLine))
    decreases node, 1
  {
    var below := DirBelow(node, d) + more;
    DirLineReads(d, node.name, below);
    ItemsOfBelow(node, d, more);
    assert Items(below, ReadDirLine) == Kids(node, d + 1) + Items(more, ReadDirLine);
  }

  lemma {:induction false} ItemsOfBelow(node: Node, d: nat, more: string)
    requires node.Dir? ==> AllNames(node.entries, NotIndented)
    ensures Items(DirBelow(node, d) + more, ReadDirLine) == Kids(node, d + 1) + Items(more, ReadDirLine)
    decreases node, 0
  {
    if node.Dir? {
      ItemsOfDir(node.entries, d + 1, more);
      assert DirBelow(node, d) == DirText(node.entries, 4 * (d + 1));
    } else {
      assert DirBelow(node, d) + more == more;
      assert Kids(node, d + 1) + Items(more, ReadDirLine) == Items(more, ReadDirLine);
    }
  }

  // ---- from items to the forest --------------------------------------------------------------------

  lemma {:induction false} BuildPreorder(nodes: seq<Node>, d: int, rest: seq<Item>)
    requires rest == [] || rest[0].depth < d
    ensures Build(Preorder(nodes, d) + rest, d) == (Shape(nodes), rest)
    decreases nodes
  {
    if nodes == [] {
      Regroup([], [], [], rest);
    } else {
      var more := Preorder(nodes[1..], d) + rest;
      PreorderSplits(nodes, d, rest);
      var items := Preorder(nodes, d) + rest;
      assert items[0] == Item(d, nodes[0].name);
      assert items[1..] == Kids(nodes[0], d + 1) + more;
      BuildKids(nodes[0], d + 1, more);
      BuildPreorder(nodes[1..], d, rest);
    }
  }

  lemma {:induction false} BuildKids(node: Node, d: int, more: seq<Item>)
    requires more == [] || more[0].depth < d
    ensures Build(Kids(node, d) + more, d) == (if node.Dir? then Shape(node.entries) else [], more)
    decreases node
  {
    if node.Dir? {
      BuildPreorder(node.entries, d, more);
    } else {
      assert [] + more == more;
    }
  }

  lemma ParseLines(dname: string, body: string, read: string -> Item, nodes: seq<Node>)
    requires OneLine(dname)
    requires Items(body, read) == Preorder(nodes, 0)
    ensures Parse(dname + "\n" + body, read) == (dname, Shape(nodes))
  {
    var text := dname + "\n" + body;
    LineEndOf(dname, body);
    assert text[..|dname|] == dname && text[|dname| + 1..] == body;
    BuildPreorder(nodes, 0, []);
    assert Preorder(nodes, 0) + [] == Preorder(nodes, 0);
  }

  /** The tree view of every directory whose names are single lines can be read back exactly, up to the
    * difference between a file and an empty directory. */
  lemma TreeRoundTrip(dname: string, nodes: seq<Node>)
    requires OneLine(dname) && AllNames(nodes, OneLine)
    ensures Parse(dname + "\n" + TreeText(nodes, ""), ReadTreeLine) == (dname, Shape(nodes))
  {
    ItemsOfTree(nodes, "", 0, "");
    assert TreeText(nodes, "") + "" == TreeText(nodes, "");
    assert Preorder(nodes, 0) + [] == Preorder(nodes, 0);
    ParseLines(dname, TreeText(nodes, ""), ReadTreeLine, nodes);
  }

  /** The indented view can be read back when no name is itself indented by four spaces. */
  lemma DirRoundTrip(dname: string, nodes: seq<Node>)
    requires OneLine(dname) && AllNames(nodes, NotIndented)
    ensures Parse(dname + "\n" + DirText(nodes, 0), ReadDirLine) == (dname, Shape(nodes))
  {
    ItemsOfDir(nodes, 0, "");
    assert DirText(nodes, 0) + "" == DirText(nodes, 0);
    assert Preorder(nodes, 0) + [] == Preorder(nodes, 0);
    ParseLines(dname, DirText(nodes, 0), ReadDirLine, nodes);
  }

  // ---- the conditions are needed ---------------------------------------------------------------------

  /** A name indented by four is printed as the entry of the file before it. */
  lemma IndentedNameIsAmbiguous(a: string, x: string)
    ensures
      var flat := [File(a), File(Spaces(4) + x)];
      var nested := [Dir(a, [File(x)])];
      DirText(flat, 0) == DirText(nested, 0) && Shape(flat) != Shape(nested)
  {
    var flat := [File(a), File(Spaces(4) + x)];
    var nested := [Dir(a, [File(x)])];
    TwoFiles(a, Spaces(4) + x);
    OneFile(x, 4);
    assert nested[1..] == [];
    assert DirText(nested, 0) == Spaces(4) + a + "\n" + (Spaces(8) + x + "\n");
    assert Spaces(4) + (Spaces(4) + x) == Spaces(8) + x;
    ShapeKeepsSize(flat);
    ShapeKeepsSize(nested);
  }

  lemma {:induction false} ShapeKeepsSize(nodes: seq<Node>)
    ensures |Shape(nodes)| == |nodes|
  {
    if nodes != [] {
      ShapeKeepsSize(nodes[1..]);
    }
  }

  lemma OneFile(a: string, indent: nat)
    ensures DirText([File(a)], indent) == Spaces(indent + 4) + a + "\n"
  {
    assert [File(a)][1..] == [];
    assert Spaces(indent + 4) + a + "\n" + "" + "" == Spaces(indent + 4) + a + "\n";
  }

  lemma TwoFiles(a: string, b: string)
    ensures DirText([File(a), File(b)], 0) == Spaces(4) + a + "\n" + (Spaces(4) + b + "\n")
  {
    assert [File(a), File(b)][1..] == [File(b)];
    OneFile(b, 0);
  }

  /** A name with a line break is printed as two entries. */
  lemma TwoLineNameIsAmbiguous(a: string, b: string)
    ensures
      var one := [File(a + "\n" + Spaces(4) + b)];
      var two := [File(a), File(b)];
      DirText(one, 0) == DirText(two, 0) && Shape(one) != Shape(two)
  {
    OneFile(a + "\n" + Spaces(4) + b, 0);
    TwoFiles(a, b);
    assert Spaces(4) + (a + "\n" + Spaces(4) + b) + "\n" == Spaces(4) + a + "\n" + (Spaces(4) + b + "\n");
    ShapeKeepsSize([File(a + "\n" + Spaces(4) + b)]);
    ShapeKeepsSize([File(a), File(b)]);
  }

  /** With a line break in a name, the tree view of two entries is that of three. */
  lemma TwoLineNameIsAmbiguousInTree(a: string, b: string, c: string)
    ensures
      var one := [File(a + "\n" + [TEE, HOR, HOR, ' '] + b), File(c)];
      var two := [File(a), File(b), File(c)];
      TreeText(one, "") == TreeText(two, "") && Shape(one) != Shape(two)
  {
    var joined := a + "\n" + [TEE, HOR, HOR, ' '] + b;
    JoinedText(a, b, joined, c);
    ShapeKeepsSize([File(joined), File(c)]);
    ShapeKeepsSize([File(a), File(b), File(c)]);
  }

  lemma JoinedText(a: string, b: string, joined: string, c: string)
    requires joined == a + "\n" + [TEE, HOR, HOR, ' '] + b
    ensures TreeText([File(joined), File(c)], "") == TreeText([File(a), File(b), File(c)], "")
  {
    var rest := TreeText([File(c)], "");
    FileFirst(File(joined), [File(c)]);
    FileFirst(File(a), [File(b), File(c)]);
    FileFirst(File(b), [File(c)]);
    assert [File(a)] + [File(b), File(c)] == [File(a), File(b), File(c)];
    JoinedLine(a, b, joined);
    Regroup(TreeLine("", false, a), TreeLine("", false, b), [], rest);
    assert [File(joined)] + [File(c)] == [File(joined), File(c)] && [File(b)] + [File(c)] == [File(b), File(c)];
  }

  lemma JoinedLine(a: string, b: string, joined: string)
    requires joined == a + "\n" + [TEE, HOR, HOR, ' '] + b
    ensures TreeLine("", false, joined) == TreeLine("", false, a) + TreeLine("", false, b)
  {
  }

  lemma FileFirst(file: Node, rest: seq<Node>)
    requires file.File? && rest != []
    ensures TreeText([file] + rest, "") == TreeLine("", false, file.name) + TreeText(rest, "")
  {
    assert ([file] + rest)[1..] == rest;
  }

  /** The views tell any two directories of such names apart, up to empty directories and files. */
  lemma TreeTextTells(nodes: seq<Node>, others: seq<Node>)
    requires AllNames(nodes, OneLine) && AllNames(others, OneLine)
    requires TreeText(nodes, "") == TreeText(others, "")
    ensures Shape(nodes) == Shape(others)
  {
    TreeRoundTrip("", nodes);
    TreeRoundTrip("", others);
  }

  lemma DirTextTells(nodes: seq<Node>, others: seq<Node>)
    requires AllNames(nodes, NotIndented) && AllNames(others, NotIndented)
    requires DirText(nodes, 0) == DirText(others, 0)
    ensures Shape(nodes) == Shape(others)
  {
    DirRoundTrip("", nodes);
    DirRoundTrip("", others);
  }
}
