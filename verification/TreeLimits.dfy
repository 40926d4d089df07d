/** Exactly which directories these readers recover. That a name outside the condition can make a view
  * ambiguous for any reader is shown in TreeTheorems. */
module TreeLimits {
  import opened TreeModel
  import opened TreeTheorems

  predicate AllItems(items: seq<Item>, ok: string -> bool) {
    forall k :: 0 <= k < |items| ==> ok(items[k].name)
  }

  /** What a reader finds in a line is always a name of some kind. */
  ghost predicate Finds(read: string -> Item, ok: string -> bool) {
    forall line :: OneLine(line) ==> ok(read(line).name)
  }

  lemma {:induction false} LineIsOne(text: string)
    ensures OneLine(text[..LineEnd(text)])
  {
    if text != [] && text[0] != '\n' {
      LineIsOne(text[1..]);
      assert text[..LineEnd(text)] == [text[0]] + text[1..][..LineEnd(text[1..])];
    }
  }

  lemma {:induction false} ItemsNames(text: string, read: string -> Item, ok: string -> bool)
    requires Finds(read, ok)
    ensures AllItems(Items(text, read), ok)
    decreases |text|
  {
    if text != [] {
      var k := LineEnd(text);
      LineIsOne(text);
      if k == |text| {
        assert text[..k] == text;
      } else {
        ItemsNames(text[k + 1..], read, ok);
      }
    }
  }

  lemma {:induction false} BuildNames(items: seq<Item>, d: int, ok: string -> bool)
    requires AllItems(items, ok)
    ensures AllNames(Build(items, d).0, ok) && AllItems(Build(items, d).1, ok)
    decreases |items|
  {
    if items != [] && items[0].depth == d {
      BuildNames(items[1..], d + 1, ok);
      var (kids, after) := Build(items[1..], d + 1);
      BuildNames(after, d, ok);
      var (siblings, rest) := Build(after, d);
      var first := Dir(items[0].name, kids);
      assert ([first] + siblings)[0] == first && ([first] + siblings)[1..] == siblings;
    }
  }

  lemma {:induction false} ParsedNames(text: string, read: string -> Item, ok: string -> bool)
    requires Finds(read, ok)
    ensures OneLine(Parse(text, read).0) && AllNames(Parse(text, read).1, ok)
  {
    LineIsOne(text);
    var k := LineEnd(text);
    if k < |text| {
      ItemsNames(text[k + 1..], read, ok);
      BuildNames(Items(text[k + 1..], read), 0, ok);
    }
  }

  lemma {:induction false} ShapeNames(nodes: seq<Node>, ok: string -> bool)
    requires AllNames(Shape(nodes), ok)
    ensures AllNames(nodes, ok)
    decreases nodes
  {
    if nodes != [] {
      var first := Dir(nodes[0].name, if nodes[0].Dir? then Shape(nodes[0].entries) else []);
      assert Shape(nodes) == [first] + Shape(nodes[1..]);
      assert Shape(nodes)[0] == first && Shape(nodes)[1..] == Shape(nodes[1..]);
      ShapeNames(nodes[1..], ok);
      if nodes[0].Dir? {
        ShapeNames(nodes[0].entries, ok);
      }
    }
  }

  lemma {:induction false} LeadingDrop(line: string, n: nat)
    requires n <= Leading(line)
    ensures Leading(line[n..]) == Leading(line) - n
  {
    if n == 0 {
      assert line[n..] == line;
    } else {
      LeadingDrop(line[1..], n - 1);
      assert line[n..] == line[1..][n - 1..];
    }
  }

  lemma DirLineFinds()
    ensures Finds(ReadDirLine, NotIndented)
  {
    forall line | OneLine(line) ensures NotIndented(ReadDirLine(line).name) {
      LeadingDrop(line, Leading(line) / 4 * 4);
    }
  }

  /** This reader recovers the directory from the tree view if and only if every name is a single line. */
  lemma TreeRoundTripIff(dname: string, nodes: seq<Node>)
    ensures Parse(dname + "\n" + TreeText(nodes, ""), ReadTreeLine) == (dname, Shape(nodes)) <==>
            OneLine(dname) && AllNames(nodes, OneLine)
  {
    var text := dname + "\n" + TreeText(nodes, "");
    if OneLine(dname) && AllNames(nodes, OneLine) {
      TreeRoundTrip(dname, nodes);
    }
    if Parse(text, ReadTreeLine) == (dname, Shape(nodes)) {
      ParsedNames(text, ReadTreeLine, OneLine);
      ShapeNames(nodes, OneLine);
    }
  }

  /** This reader recovers it from the indented view if and only if, besides, no name is indented by four. */
  lemma DirRoundTripIff(dname: string, nodes: seq<Node>)
    ensures Parse(dname + "\n" + DirText(nodes, 0), ReadDirLine) == (dname, Shape(nodes)) <==>
            OneLine(dname) && AllNames(nodes, NotIndented)
  {
    var text := dname + "\n" + DirText(nodes, 0);
    if OneLine(dname) && AllNames(nodes, NotIndented) {
      DirRoundTrip(dname, nodes);
    }
    if Parse(text, ReadDirLine) == (dname, Shape(nodes)) {
      DirLineFinds();
      ParsedNames(text, ReadDirLine, NotIndented);
      ShapeNames(nodes, NotIndented);
    }
  }
}
