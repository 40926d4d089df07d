/** The two directory views as text, and readers that recover the directory from the text. */
module TreeModel {
  const TEE := '\U{251C}'
  const HOR := '\U{2500}'
  const VER := '\U{2502}'
  const ELB := '\U{2514}'

  /** What scandir reports, in its order. A directory that cannot be read has no entries. */
  datatype Node = File(name: string) | Dir(name: string, entries: seq<Node>)

  function Entries(n: Node): (es: seq<Node>)
    ensures n.Dir? ==> es == n.entries
  {
    if n.Dir? then n.entries else []
  }

  ghost predicate AllNames(nodes: seq<Node>, ok: string -> bool) {
    nodes == [] ||
    (ok(nodes[0].name) && (nodes[0].Dir? ==> AllNames(nodes[0].entries, ok)) && AllNames(nodes[1..], ok))
  }

  // ---- the pure specification of the tree view -----------------------------------------------------

  /** The four columns below an entry: a bar unless it is the last of its siblings. */
  function Below(last: bool): string {
    [if last then ' ' else VER] + "   "
  }

  function TreeLine(prefix: string, last: bool, name: string): string {
    prefix + [if last then ELB else TEE, HOR, HOR, ' '] + name + "\n"
  }

  /** The lines for a list of siblings whose ancestors' columns are `prefix`. */
  function TreeText(nodes: seq<Node>, prefix: string): string {
    if nodes == [] then ""
    else
      var last := |nodes| == 1;
      TreeLine(prefix, last, nodes[0].name)
      + (if nodes[0].Dir? then TreeText(nodes[0].entries, prefix + Below(last)) else "")
      + TreeText(nodes[1..], prefix)
  }

  // ---- the pure specification of the indented view --------------------------------------------------

  function Spaces(n: nat): (s: string)
    ensures |s| == n && forall k :: 0 <= k < n ==> s[k] == ' '
  {
    seq(n, _ => ' ')
  }

  function DirText(nodes: seq<Node>, indent: nat): string {
    if nodes == [] then ""
    else
      Spaces(indent + 4) + nodes[0].name + "\n"
      + (if nodes[0].Dir? then DirText(nodes[0].entries, indent + 4) else "")
      + DirText(nodes[1..], indent)
  }

  // ---- reading it back ---------------------------------------------------------------------------------

  /** A line says how deep an entry is and what it is called. */
  datatype Item = Item(depth: int, name: string)

  function LineEnd(text: string): (k: nat)
    ensures k <= |text|
    ensures text != [] && text[0] != '\n' ==> k >= 1
  {
    if text == [] || text[0] == '\n' then 0 else 1 + LineEnd(text[1..])
  }

  /** Reads a text line by line. */
  function Items(text: string, read: string -> Item): seq<Item>
    decreases |text|
  {
    if text == [] then []
    else
      var k := LineEnd(text);
      if k == |text| then [read(text)]
      else [read(text[..k])] + Items(text[k + 1..], read)
  }

  /** The first corner or tee of a line. */
  function Corner(line: string): (k: nat)
    ensures k <= |line|
  {
    if line == [] || line[0] == TEE || line[0] == ELB then 0 else 1 + Corner(line[1..])
  }

  function ReadTreeLine(line: string): Item {
    var k := Corner(line);
    Item(k / 4, if k + 4 <= |line| then line[k + 4..] else "")
  }

  function Leading(line: string): (k: nat)
    ensures k <= |line|
  {
    if line == [] || line[0] != ' ' then 0 else 1 + Leading(line[1..])
  }

  /** Indentation comes in fours; up to three further spaces belong to the name. */
  function ReadDirLine(line: string): Item {
    var d := Leading(line) / 4;
    Item(d - 1, line[4 * d..])
  }

  /** Rebuilds the siblings at depth `d`, and returns the items that are left. */
  function Build(items: seq<Item>, d: int): (r: (seq<Node>, seq<Item>))
    ensures |r.1| <= |items|
    decreases |items|
  {
    if items == [] || items[0].depth != d then ([], items)
    else
      var (kids, after) := Build(items[1..], d + 1);
      var (siblings, rest) := Build(after, d);
      ([Dir(items[0].name, kids)] + siblings, rest)
  }

  /** The views do not tell a file from an empty directory. */
  function Shape(nodes: seq<Node>): seq<Node> {
    if nodes == [] then []
    else
      [Dir(nodes[0].name, if nodes[0].Dir? then Shape(nodes[0].entries) else [])] + Shape(nodes[1..])
  }

  /** The header line and the forest below it. */
  function Parse(text: string, read: string -> Item): (string, seq<Node>) {
    var k := LineEnd(text);
    (text[..k], if k == |text| then [] else Build(Items(text[k + 1..], read), 0).0)
  }
}
