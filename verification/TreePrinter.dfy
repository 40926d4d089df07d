/** The printers as their source writes them: nested loops, and one global array of flags. */
module TreePrinter {
  import opened Sequences
  import opened TreeModel
  import opened TreeColumns

  const COLUMNS := 100

  /** Every directory is listed at a column inside the global array. */
  ghost predicate Fits(nodes: seq<Node>, indent: nat) {
    nodes == [] ||
    ((nodes[0].Dir? ==> indent < COLUMNS && Fits(nodes[0].entries, indent + 4)) && Fits(nodes[1..], indent))
  }

  /** The columns printed before an entry's own. */
  function Columns(flags: seq<bool>): (p: string)
    ensures |p| == |flags|
  {
    seq(|flags|, j requires 0 <= j < |flags| => if flags[j] then VER else ' ')
  }

  /** The text still to come splits into the next entry's line, what is below it, and the rest. */
  lemma NextEntry(before: string, nodes: seq<Node>, i: nat, prefix: string)
    requires i < |nodes|
    ensures before + TreeText(nodes[i..], prefix) ==
      before + TreeLine(prefix, i == |nodes| - 1, nodes[i].name)
      + (if nodes[i].Dir? then TreeText(nodes[i].entries, prefix + Below(i == |nodes| - 1)) else "")
      + TreeText(nodes[i + 1..], prefix)
  {
    assert nodes[i..][0] == nodes[i] && nodes[i..][1..] == nodes[i + 1..];
    Regroup(before, TreeLine(prefix, i == |nodes| - 1, nodes[i].name),
            if nodes[i].Dir? then TreeText(nodes[i].entries, prefix + Below(i == |nodes| - 1)) else "",
            TreeText(nodes[i + 1..], prefix));
  }

  lemma NextIndented(before: string, nodes: seq<Node>, i: nat, indent: nat)
    requires i < |nodes|
    ensures before + DirText(nodes[i..], indent) ==
      before + (Spaces(indent + 4) + nodes[i].name + "\n")
      + (if nodes[i].Dir? then DirText(nodes[i].entries, indent + 4) else "")
      + DirText(nodes[i + 1..], indent)
  {
    assert nodes[i..][0] == nodes[i] && nodes[i..][1..] == nodes[i + 1..];
    Regroup(before, Spaces(indent + 4) + nodes[i].name + "\n",
            if nodes[i].Dir? then DirText(nodes[i].entries, indent + 4) else "",
            DirText(nodes[i + 1..], indent));
  }

  lemma FitsNext(nodes: seq<Node>, i: nat, indent: nat)
    requires i < |nodes| && Fits(nodes[i..], indent)
    ensures nodes[i].Dir? ==> indent < COLUMNS && Fits(nodes[i].entries, indent + 4)
    ensures Fits(nodes[i + 1..], indent)
  {
    assert nodes[i..][0] == nodes[i] && nodes[i..][1..] == nodes[i + 1..];
  }

  /** `out` is what has been written to the file descriptor. */
  class FileManager {
    const bitmask: array<bool>
    var out: string

    /** Only every fourth flag is ever set. */
    ghost predicate Valid()
      reads bitmask
    {
      bitmask.Length == COLUMNS &&
      forall j :: 0 <= j < COLUMNS && j % 4 != 0 ==> !bitmask[j]
    }

    constructor ()
      ensures Valid() && fresh(bitmask) && out == ""
    {
      bitmask := new bool[COLUMNS](_ => false);
      out := "";
    }

    method DrawTree(nodes: seq<Node>, indent: nat)
      requires Valid() && Fits(nodes, indent) && indent % 4 == 0 && indent <= COLUMNS
      modifies this`out, bitmask
      ensures Valid()
      ensures bitmask[..indent] == old(bitmask[..indent])
      ensures out == old(out) + TreeText(nodes, Columns(old(bitmask[..indent])))
      decreases nodes, 0
    {
      ghost var prefix := Columns(bitmask[..indent]);
      var numFiles := |nodes|;
      for i := 0 to numFiles
        invariant Valid() && Fits(nodes[i..], indent)
        invariant bitmask[..indent] == old(bitmask[..indent])
        invariant out + TreeText(nodes[i..], prefix) == old(out) + TreeText(nodes, prefix)
      {
        ghost var before := out;
        NextEntry(before, nodes, i, prefix);
        FitsNext(nodes, i, indent);
        DrawEntry(nodes[i], indent, i == numFiles - 1);
      }
    }

    /** The loop body: one entry's line, and what is below it. */
    method DrawEntry(node: Node, indent: nat, last: bool)
      requires Valid() && indent % 4 == 0 && indent <= COLUMNS
      requires node.Dir? ==> indent < COLUMNS && Fits(node.entries, indent + 4)
      modifies this`out, bitmask
      ensures Valid()
      ensures bitmask[..indent] == old(bitmask[..indent])
      ensures
        var prefix := Columns(old(bitmask[..indent]));
        out == old(out) + TreeLine(prefix, last, node.name)
               + (if node.Dir? then TreeText(node.entries, prefix + Below(last)) else "")
      decreases node
    {
      DrawColumns(indent, last);
      out := out + node.name + "\n";
      assert out == old(out) + TreeLine(Columns(bitmask[..indent]), last, node.name);
      if node.Dir? {
        DrawBelow(node.entries, indent, last);
      }
    }

    /** The branch for a directory: its own column is set for the lines of its entries. */
    method DrawBelow(entries: seq<Node>, indent: nat, last: bool)
      requires Valid() && Fits(entries, indent + 4) && indent % 4 == 0 && indent < COLUMNS
      modifies this`out, bitmask
      ensures Valid()
      ensures bitmask[..indent] == old(bitmask[..indent])
      ensures out == old(out) + TreeText(entries, Columns(old(bitmask[..indent])) + Below(last))
      decreases entries, 1
    {
      if last {
        bitmask[indent] := false;
      } else {
        bitmask[indent] := true;
      }
      assert bitmask[..indent] == old(bitmask[..indent]);
      assert Columns(bitmask[..indent + 4]) == Columns(bitmask[..indent]) + Below(last);
      DrawTree(entries, indent + 4);
      assert bitmask[..indent] == bitmask[..indent + 4][..indent];
    }

    /** The inner loop over the columns of one line. */
    method DrawColumns(indent: nat, last: bool)
      requires Valid() && indent <= COLUMNS
      modifies this`out
      ensures out == old(out) + Columns(bitmask[..indent]) + [if last then ELB else TEE, HOR, HOR, ' ']
    {
      var j := 0;
      while j <= indent
        invariant 0 <= j <= indent + 1
        invariant out == old(out) + Columns(bitmask[..indent])[..if j <= indent then j else indent] +
                         (if j <= indent then "" else [if last then ELB else TEE, HOR, HOR, ' '])
      {
        if j == indent {
          if last {
            out := out + [ELB];
          } else {
            out := out + [TEE];
          }
          out := out + [HOR, HOR, ' '];
        } else {
          if bitmask[j] {
            out := out + [VER];
          } else {
            out := out + " ";
          }
        }
        j := j + 1;
      }
    }

    /** Whatever earlier calls left in the array, the text depends on the directory alone. */
    method FilemanTree(dname: string, nodes: seq<Node>)
      requires Valid() && Fits(nodes, 0)
      modifies this`out, bitmask
      ensures Valid()
      ensures out == old(out) + dname + "\n" + TreeText(nodes, "")
      ensures Shows(TreeText(nodes, ""), Rows(nodes, []))
    {
      TreeViewIs(nodes);
      out := out + dname + "\n";
      DrawTree(nodes, 0);
    }

    method GetDir(nodes: seq<Node>, indent: nat)
      modifies this`out
      ensures out == old(out) + DirText(nodes, indent)
      decreases nodes
    {
      var numFiles := |nodes|;
      for i := 0 to numFiles
        invariant out + DirText(nodes[i..], indent) == old(out) + DirText(nodes, indent)
      {
        ghost var before := out;
        NextIndented(before, nodes, i, indent);
        for j := 0 to indent + 4
          invariant out == before + Spaces(j)
        {
          out := out + " ";
        }
        out := out + nodes[i].name + "\n";
        assert out == before + (Spaces(indent + 4) + nodes[i].name + "\n");
        if nodes[i].Dir? {
          GetDir(nodes[i].entries, indent + 4);
        }
      }
    }

    method FilemanDir(dname: string, nodes: seq<Node>)
      modifies this`out
      ensures out == old(out) + dname + "\n" + DirText(nodes, 0)
    {
      out := out + dname + "\n";
      GetDir(nodes, 0);
    }
  }
}
