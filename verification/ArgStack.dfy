/** The initial user stack: push_command lays out strings, pointers and words below the stack pointer, and
  * a new process finds its arguments by following the words back. */
module ArgStack {
  type Byte = b: int | 0 <= b < 256

  const SPACE: Byte := 32
  const WORDS := 0x1_0000_0000
  /** The page that holds the token pointers while the strings are pushed. */
  const MAX_TOKENS := 1024

  // ---- tokens --------------------------------------------------------------------------------------

  /** The length of the run of separators (or of other bytes) at the start of a string. */
  function Run(s: seq<Byte>, separators: bool): (n: nat)
    ensures n <= |s|
    ensures forall k :: 0 <= k < n ==> (s[k] == SPACE) == separators
    ensures n < |s| ==> (s[n] == SPACE) != separators
  {
    if s == [] || (s[0] == SPACE) != separators then 0 else 1 + Run(s[1..], separators)
  }

  /** The space-separated tokens of a command line. */
  function Tokens(s: seq<Byte>): (ts: seq<seq<Byte>>)
    ensures forall k :: 0 <= k < |ts| ==> IsToken(ts[k])
    decreases |s|
  {
    var rest := s[Run(s, true)..];
    if rest == [] then []
    else
      var n := Run(rest, false);
      [rest[..n]] + Tokens(rest[n..])
  }

  predicate IsToken(t: seq<Byte>) {
    t != [] && SPACE !in t
  }

  function Join(ts: seq<seq<Byte>>): seq<Byte> {
    if ts == [] then []
    else if |ts| == 1 then ts[0]
    else ts[0] + [SPACE] + Join(ts[1..])
  }

  lemma {:induction false} RunOf(t: seq<Byte>, rest: seq<Byte>)
    requires SPACE !in t && (rest == [] || rest[0] == SPACE)
    ensures Run(t + rest, false) == |t|
  {
    if t == [] {
      assert t + rest == rest;
    } else {
      assert (t + rest)[1..] == t[1..] + rest;
      RunOf(t[1..], rest);
    }
  }

  lemma TokensOfFirst(t: seq<Byte>, rest: seq<Byte>)
    requires IsToken(t) && (rest == [] || rest[0] == SPACE)
    ensures Tokens(t + rest) == [t] + Tokens(rest)
  {
    var s := t + rest;
    assert s[0] != SPACE;
    assert s[0..] == s;
    RunOf(t, rest);
    assert s[..|t|] == t && s[|t|..] == rest;
  }

  lemma TokensSkip(rest: seq<Byte>)
    ensures Tokens([SPACE] + rest) == Tokens(rest)
  {
    var s := [SPACE] + rest;
    assert s[1..] == rest;
    assert Run(s, true) == 1 + Run(rest, true);
    assert s[Run(s, true)..] == rest[Run(rest, true)..];
  }

  /** Splitting undoes joining. */
  lemma {:induction false} TokensOfJoin(ts: seq<seq<Byte>>)
    requires forall k :: 0 <= k < |ts| ==> IsToken(ts[k])
    ensures Tokens(Join(ts)) == ts
  {
    if ts == [] {
    } else if |ts| == 1 {
      TokensOfLast(ts[0]);
    } else {
      var more := Join(ts[1..]);
      assert Join(ts) == ts[0] + ([SPACE] + more);
      TokensOfFirst(ts[0], [SPACE] + more);
      TokensSkip(more);
      TokensOfJoin(ts[1..]);
    }
  }

  lemma TokensOfLast(t: seq<Byte>)
    requires IsToken(t)
    ensures Tokens(t) == [t]
  {
    assert t + [] == t;
    TokensOfFirst(t, []);
    assert Tokens([]) == [];
  }

  function Blanks(n: nat): seq<Byte> {
    seq(n, _ => SPACE)
  }

  /** Tokens with `gaps[k]` separators before the k-th. */
  function Spaced(ts: seq<seq<Byte>>, gaps: seq<nat>): seq<Byte>
    requires |gaps| == |ts|
  {
    if ts == [] then [] else Blanks(gaps[0]) + (ts[0] + Spaced(ts[1..], gaps[1..]))
  }

  /** Tokens are not empty, and there is a separator between any two. */
  predicate Separated(ts: seq<seq<Byte>>, gaps: seq<nat>) {
    && |gaps| == |ts|
    && (forall k :: 0 <= k < |ts| ==> IsToken(ts[k]))
    && (forall k :: 1 <= k < |ts| ==> gaps[k] >= 1)
  }

  lemma {:induction false} TokensSkipAll(n: nat, rest: seq<Byte>)
    ensures Tokens(Blanks(n) + rest) == Tokens(rest)
  {
    if n == 0 {
      assert Blanks(n) + rest == rest;
    } else {
      assert Blanks(n) + rest == [SPACE] + (Blanks(n - 1) + rest);
      TokensSkip(Blanks(n - 1) + rest);
      TokensSkipAll(n - 1, rest);
    }
  }

  lemma StartsWithGap(ts: seq<seq<Byte>>, gaps: seq<nat>, end: nat)
    requires |gaps| == |ts| && (ts != [] ==> gaps[0] >= 1)
    ensures
      var s := Spaced(ts, gaps) + Blanks(end);
      s == [] || s[0] == SPACE
  {
    if ts != [] {
      assert Blanks(gaps[0])[0] == SPACE;
    }
  }

  lemma SpacedFirst(ts: seq<seq<Byte>>, gaps: seq<nat>, end: nat)
    requires ts != [] && |gaps| == |ts|
    ensures Spaced(ts, gaps) + Blanks(end) == Blanks(gaps[0]) + (ts[0] + (Spaced(ts[1..], gaps[1..]) + Blanks(end)))
  {
  }

  /** Splitting finds the tokens however many separators stand before, between and behind them, */
  lemma {:induction false} TokensOfSpaced(ts: seq<seq<Byte>>, gaps: seq<nat>, end: nat)
    requires Separated(ts, gaps)
    ensures Tokens(Spaced(ts, gaps) + Blanks(end)) == ts
  {
    if ts == [] {
      assert Spaced(ts, gaps) + Blanks(end) == Blanks(end) + [];
      TokensSkipAll(end, []);
    } else {
      assert Separated(ts[1..], gaps[1..]);
      TokensOfSpaced(ts[1..], gaps[1..], end);
      StartsWithGap(ts[1..], gaps[1..], end);
      SpacedFirst(ts, gaps, end);
      FirstOfSpaced(gaps[0], ts[0], Spaced(ts[1..], gaps[1..]) + Blanks(end), ts[1..]);
    }
  }

  lemma FirstOfSpaced(n: nat, t: seq<Byte>, rest: seq<Byte>, ts: seq<seq<Byte>>)
    requires IsToken(t) && (rest == [] || rest[0] == SPACE) && Tokens(rest) == ts
    ensures Tokens(Blanks(n) + (t + rest)) == [t] + ts
  {
    TokensSkipAll(n, t + rest);
    TokensOfFirst(t, rest);
  }

  lemma LeadingBlanks(s: seq<Byte>)
    ensures s == Blanks(Run(s, true)) + s[Run(s, true)..]
  {
    var n := Run(s, true);
    assert s[..n] == Blanks(n);
  }

  lemma SplitAfter(rest: seq<Byte>)
    ensures
      var k := Run(rest, false);
      rest == rest[..k] + rest[k..] && (rest[k..] == [] || rest[k..][0] == SPACE)
  {
  }

  /** Where the first token is. */
  lemma FirstToken(s: seq<Byte>) returns (n: nat, t: seq<Byte>, tail: seq<Byte>)
    requires Tokens(s) != []
    ensures s == Blanks(n) + (t + tail) && |tail| < |s|
    ensures IsToken(t) && (tail == [] || tail[0] == SPACE) && Tokens(s) == [t] + Tokens(tail)
    ensures s[0] == SPACE ==> n >= 1
  {
    n := Run(s, true);
    var rest := s[n..];
    var k := Run(rest, false);
    t, tail := rest[..k], rest[k..];
    LeadingBlanks(s);
    SplitAfter(rest);
    assert Tokens(s)[0] == t;
  }

  /** and every command line is its tokens with such separators. */
  lemma {:induction false} LineIsSpaced(s: seq<Byte>) returns (gaps: seq<nat>, end: nat)
    ensures Separated(Tokens(s), gaps) && s == Spaced(Tokens(s), gaps) + Blanks(end)
    ensures s != [] && s[0] == SPACE && Tokens(s) != [] ==> gaps[0] >= 1
    decreases |s|
  {
    if Tokens(s) == [] {
      gaps, end := [], |s|;
      assert s == Blanks(|s|) == [] + Blanks(|s|);
    } else {
      var n, t, tail := FirstToken(s);
      var more: seq<nat>;
      more, end := LineIsSpaced(tail);
      gaps := [n] + more;
      SpacedStep(s, n, t, tail, Tokens(tail), more, end);
      SeparatedStep(n, t, Tokens(tail), more, tail);
    }
  }

  lemma SeparatedStep(n: nat, t: seq<Byte>, ts: seq<seq<Byte>>, more: seq<nat>, tail: seq<Byte>)
    requires IsToken(t) && Separated(ts, more) && (ts != [] ==> more[0] >= 1)
    ensures Separated([t] + ts, [n] + more)
  {
  }

  lemma SpacedStep(s: seq<Byte>, n: nat, t: seq<Byte>, tail: seq<Byte>, ts: seq<seq<Byte>>, more: seq<nat>, end: nat)
    requires s == Blanks(n) + (t + tail) && |more| == |ts| && tail == Spaced(ts, more) + Blanks(end)
    ensures s == Spaced([t] + ts, [n] + more) + Blanks(end)
  {
    assert ([t] + ts)[1..] == ts && ([n] + more)[1..] == more;
    SpacedFirst([t] + ts, [n] + more, end);
  }

  // ---- memory --------------------------------------------------------------------------------------

  /** A 32-bit word, least significant byte first. */
  function Word(m: seq<Byte>, a: int): (w: int)
    requires 0 <= a && a + 4 <= |m|
    ensures 0 <= w < WORDS
  {
    m[a] as int + 0x100 * (m[a + 1] as int) + 0x1_0000 * (m[a + 2] as int) + 0x100_0000 * (m[a + 3] as int)
  }

  ghost predicate StringAt(m: seq<Byte>, a: int, t: seq<Byte>) {
    0 <= a && a + |t| < |m| && m[a..a + |t|] == t && m[a + |t|] == 0
  }

  /** Bytes from `lo` up to `hi` are as before. */
  ghost predicate Same(m: seq<Byte>, old_m: seq<Byte>, lo: int, hi: int)
    requires |m| == |old_m|
  {
    forall k :: 0 <= lo <= k < hi <= |m| ==> m[k] == old_m[k]
  }

  lemma BytesOf(w: nat)
    ensures w % 0x100 + 0x100 * (w / 0x100 % 0x100) + 0x1_0000 * (w / 0x1_0000 % 0x100) + 0x100_0000 * (w / 0x100_0000)
            == w
  {
    assert w / 0x100 / 0x100 == w / 0x1_0000 && w / 0x1_0000 / 0x100 == w / 0x100_0000;
  }

  /** The bytes of a word as the processor stores it: the least significant one at the lowest address. */
  predicate LittleEndian(m: seq<Byte>, a: int, w: int) {
    && 0 <= a && a + 4 <= |m|
    && m[a] == w % 256 && m[a + 1] == w / 256 % 256
    && m[a + 2] == w / 65536 % 256 && m[a + 3] == w / 16777216
  }

  lemma WordIsLittleEndian(m: seq<Byte>, a: nat)
    requires a + 4 <= |m|
    ensures LittleEndian(m, a, Word(m, a))
  {
    var b0, b1, b2, b3 := m[a] as int, m[a + 1] as int, m[a + 2] as int, m[a + 3] as int;
    var w := Word(m, a);
    assert w == b0 + 256 * (b1 + 256 * (b2 + 256 * b3));
    assert w / 256 == b1 + 256 * (b2 + 256 * b3);
    assert w / 65536 == b2 + 256 * b3;
  }

  method StoreWord(mem: array<Byte>, a: nat, w: int)
    requires a + 4 <= mem.Length && 0 <= w < WORDS
    modifies mem
    ensures mem[a] == w % 256 && mem[a + 1] == w / 256 % 256
    ensures mem[a + 2] == w / 65536 % 256 && mem[a + 3] == w / 16777216
    ensures Word(mem[..], a) == w
    ensures forall k :: 0 <= k < mem.Length && !(a <= k < a + 4) ==> mem[k] == old(mem[k])
  {
    mem[a] := w % 0x100;
    mem[a + 1] := w / 0x100 % 0x100;
    mem[a + 2] := w / 0x1_0000 % 0x100;
    mem[a + 3] := w / 0x100_0000;
    BytesOf(w);
  }

  /** memcpy of a token and the NUL that strtok_r put behind it. */
  method StoreString(mem: array<Byte>, a: nat, t: seq<Byte>)
    requires a + |t| < mem.Length
    modifies mem
    ensures StringAt(mem[..], a, t)
    ensures forall k :: 0 <= k < mem.Length && !(a <= k <= a + |t|) ==> mem[k] == old(mem[k])
  {
    for i := 0 to |t|
      invariant mem[a..a + i] == t[..i]
      invariant forall k :: 0 <= k < mem.Length && !(a <= k < a + i) ==> mem[k] == old(mem[k])
    {
      mem[a + i] := t[i];
      assert mem[a..a + i + 1] == mem[a..a + i] + [t[i]];
    }
    mem[a + |t|] := 0;
    assert mem[..][a..a + |t|] == mem[a..a + |t|] == t;
  }

  // ---- what a new process reads ----------------------------------------------------------------------

  /** The bytes up to the first NUL. */
  function CString(m: seq<Byte>, a: nat): seq<Byte>
    decreases |m| - a
  {
    if a >= |m| || m[a] == 0 then [] else [m[a]] + CString(m, a + 1)
  }

  /** A process finds argc at esp + 4 and argv at esp + 8, and follows argv's words. */
  function ReadArgs(m: seq<Byte>, esp: nat): seq<seq<Byte>>
    requires esp + 12 <= |m| && Word(m, esp + 8) + 4 * Word(m, esp + 4) <= |m|
  {
    var argc, argv := Word(m, esp + 4), Word(m, esp + 8);
    seq(argc, k requires 0 <= k < argc => CString(m, Word(m, argv + 4 * k)))
  }

  lemma {:induction false} CStringIs(m: seq<Byte>, a: nat, t: seq<Byte>)
    requires StringAt(m, a, t) && NoNul(t)
    ensures CString(m, a) == t
    decreases |t|
  {
    if t != [] {
      assert m[a] == m[a..a + |t|][0] == t[0];
      assert m[a + 1..a + 1 + |t[1..]|] == m[a..a + |t|][1..] == t[1..];
      CStringIs(m, a + 1, t[1..]);
    }
  }

  // ---- push_command --------------------------------------------------------------------------------------

  /** The bytes of the strings with their NULs. */
  function Size(ts: seq<seq<Byte>>): nat {
    if ts == [] then 0 else Size(ts[..|ts| - 1]) + |ts[|ts| - 1]| + 1
  }

  function Align(a: nat): (r: nat)
    ensures r % 4 == 0 && a - 4 < r <= a
  {
    a - a % 4
  }

  /** Where the stack pointer ends up: the aligned strings, argv with its end, and three words. */
  function FinalEsp(ts: seq<seq<Byte>>, top: nat): int
    requires Size(ts) <= top
  {
    Align(top - Size(ts)) - 4 * (|ts| + 4)
  }

  lemma {:induction false} SizeGrows(ts: seq<seq<Byte>>, j: nat)
    requires j <= |ts|
    ensures Size(ts[..j]) <= Size(ts)
    decreases |ts| - j
  {
    if j < |ts| {
      assert ts[..j + 1][..j] == ts[..j];
      SizeGrows(ts, j + 1);
    } else {
      assert ts[..j] == ts;
    }
  }

  /** One call of strtok_r: skips separators, and cuts off the next token if there is one. */
  method Strtok(s: seq<Byte>) returns (found: bool, token: seq<Byte>, rest: seq<Byte>)
    ensures found ==> Tokens(s) == [token] + Tokens(rest) && |rest| < |s|
    ensures !found ==> Tokens(s) == []
  {
    rest := s[Run(s, true)..];
    if rest == [] {
      return false, [], [];
    }
    var n := Run(rest, false);
    token, rest := rest[..n], rest[n..];
    found := true;
  }

  method Split(cmdline: seq<Byte>) returns (tokens: seq<seq<Byte>>)
    ensures tokens == Tokens(cmdline)
  {
    tokens := [];
    var found, token, rest := Strtok(cmdline);
    while found
      invariant tokens + (if found then [token] + Tokens(rest) else []) == Tokens(cmdline)
      decreases if found then |rest| + 1 else 0
    {
      tokens := tokens + [token];
      found, token, rest := Strtok(rest);
    }
  }

  /** The strings are pushed in order, so each lies directly below the one before. */
  ghost predicate Placed(m: seq<Byte>, tokens: seq<seq<Byte>>, addrs: seq<int>, low: int, top: int, i: int)
    requires 0 <= i < |tokens| == |addrs|
  {
    && StringAt(m, addrs[i], tokens[i])
    && addrs[i] + |tokens[i]| + 1 == (if i == 0 then top else addrs[i - 1])
    && low <= addrs[i]
  }

  ghost predicate Strings(m: seq<Byte>, tokens: seq<seq<Byte>>, addrs: seq<int>, low: int, top: int) {
    && |addrs| == |tokens|
    && (forall i :: 0 <= i < |tokens| ==> Placed(m, tokens, addrs, low, top, i))
  }

  lemma PlacedKept(m: seq<Byte>, m': seq<Byte>, tokens: seq<seq<Byte>>, addrs: seq<int>, low: int, top: int)
    requires |m| == |m'| && Strings(m, tokens, addrs, low, top)
    requires forall k :: 0 <= k < |m| && low <= k < top ==> m'[k] == m[k]
    ensures Strings(m', tokens, addrs, low, top)
  {
    forall i | 0 <= i < |tokens| ensures Placed(m', tokens, addrs, low, top, i) {
      assert Placed(m, tokens, addrs, low, top, i);
      BelowTop(m, tokens, addrs, low, top, i);
      assert m'[addrs[i]..addrs[i] + |tokens[i]|] == m[addrs[i]..addrs[i] + |tokens[i]|];
    }
  }

  lemma {:induction false} BelowTop(
      m: seq<Byte>, tokens: seq<seq<Byte>>, addrs: seq<int>, low: int, top: int, i: nat)
    requires Strings(m, tokens, addrs, low, top) && i < |tokens|
    ensures addrs[i] + |tokens[i]| < top
  {
    assert Placed(m, tokens, addrs, low, top, i);
    if i > 0 {
      BelowTop(m, tokens, addrs, low, top, i - 1);
    }
  }

  lemma PushKeeps(m: seq<Byte>, tokens: seq<seq<Byte>>, j: nat, addrs: seq<int>, low: int, top: int, a: int)
    requires j < |tokens| && Strings(m, tokens[..j], addrs, low, top)
    requires low == (if j == 0 then top else addrs[j - 1])
    requires a == low - (|tokens[j]| + 1) && StringAt(m, a, tokens[j])
    ensures Strings(m, tokens[..j + 1], addrs + [a], a, top)
  {
    var ts, next := tokens[..j + 1], addrs + [a];
    forall i | 0 <= i < |ts| ensures Placed(m, ts, next, a, top, i) {
      if i < j {
        assert Placed(m, tokens[..j], addrs, low, top, i);
      }
    }
  }

  method PushStrings(mem: array<Byte>, tokens: seq<seq<Byte>>, top: nat) returns (esp: nat, addrs: seq<int>)
    requires Size(tokens) <= top <= mem.Length
    modifies mem
    ensures esp == top - Size(tokens)
    ensures Strings(mem[..], tokens, addrs, esp, top)
    ensures forall k :: 0 <= k < mem.Length && !(esp <= k < top) ==> mem[k] == old(mem[k])
  {
    esp, addrs := top, [];
    for j := 0 to |tokens|
      invariant Size(tokens[..j]) <= Size(tokens)
      invariant esp == top - Size(tokens[..j])
      invariant Strings(mem[..], tokens[..j], addrs, esp, top)
      invariant esp == if j == 0 then top else addrs[j - 1]
      invariant forall k :: 0 <= k < mem.Length && !(esp <= k < top) ==> mem[k] == old(mem[k])
    {
      SizeGrows(tokens, j + 1);
      assert tokens[..j + 1][..j] == tokens[..j];
      ghost var m, low := mem[..], esp;
      esp := esp - (|tokens[j]| + 1);
      StoreString(mem, esp, tokens[j]);
      PlacedKept(m, mem[..], tokens[..j], addrs, low, top);
      PushKeeps(mem[..], tokens, j, addrs, low, top, esp);
      addrs := addrs + [esp];
    }
    assert tokens[..|tokens|] == tokens;
  }

  /** The words of argv, in order from address `a`. */
  ghost predicate Pointers(m: seq<Byte>, a: int, addrs: seq<int>) {
    0 <= a && a + 4 * |addrs| <= |m| &&
    forall i :: 0 <= i < |addrs| ==> Word(m, a + 4 * i) == addrs[i]
  }

  /** The addresses are pushed backwards, so argv reads forwards. */
  method PushPointers(mem: array<Byte>, addrs: seq<int>, top: nat) returns (esp: nat)
    requires 4 * |addrs| <= top <= mem.Length
    requires forall i :: 0 <= i < |addrs| ==> 0 <= addrs[i] < WORDS
    modifies mem
    ensures esp == top - 4 * |addrs|
    ensures Pointers(mem[..], esp, addrs)
    ensures forall i :: 0 <= i < |addrs| ==> LittleEndian(mem[..], esp + 4 * i, addrs[i])
    ensures forall k :: 0 <= k < mem.Length && !(esp <= k < top) ==> mem[k] == old(mem[k])
  {
    esp := top;
    var k := |addrs| - 1;
    while k >= 0
      invariant -1 <= k < |addrs|
      invariant esp == top - 4 * (|addrs| - 1 - k)
      invariant Pointers(mem[..], esp, addrs[k + 1..])
      invariant forall k :: 0 <= k < mem.Length && !(esp <= k < top) ==> mem[k] == old(mem[k])
    {
      ghost var m := mem[..];
      esp := esp - 4;
      StoreWord(mem, esp, addrs[k]);
      PointerKeeps(m, mem[..], esp, addrs, k);
      k := k - 1;
    }
    assert addrs[0..] == addrs;
    PointersAreLittleEndian(mem[..], esp, addrs);
  }

  lemma PointersAreLittleEndian(m: seq<Byte>, a: int, addrs: seq<int>)
    requires Pointers(m, a, addrs)
    ensures forall i :: 0 <= i < |addrs| ==> LittleEndian(m, a + 4 * i, addrs[i])
  {
    forall i | 0 <= i < |addrs| ensures LittleEndian(m, a + 4 * i, addrs[i]) {
      WordIsLittleEndian(m, a + 4 * i);
    }
  }

  lemma PointerKeeps(m: seq<Byte>, m': seq<Byte>, a: int, addrs: seq<int>, k: nat)
    requires |m| == |m'| && k < |addrs| && 0 <= a && Pointers(m, a + 4, addrs[k + 1..])
    requires forall i :: 0 <= i < |m| && a + 4 <= i ==> m'[i] == m[i]
    requires Word(m', a) == addrs[k]
    ensures Pointers(m', a, addrs[k..])
  {
    forall i | 0 <= i < |addrs[k..]| ensures Word(m', a + 4 * i) == addrs[k..][i] {
      if i > 0 {
        assert Word(m, a + 4 + 4 * (i - 1)) == addrs[k + 1..][i - 1];
      }
    }
  }

  /** The finished frame: what a process reads back, where the pieces lie, and that nothing overlaps. */
  ghost predicate Frame(m: seq<Byte>, esp: nat, tokens: seq<seq<Byte>>, top: nat) {
    var argc := |tokens|;
    && esp % 4 == 0 && esp + 12 + 4 * (argc + 1) <= top <= |m|
    && Word(m, esp) == 0
    && Word(m, esp + 4) == argc
    && Word(m, esp + 8) == esp + 12
    && Word(m, esp + 12 + 4 * argc) == 0
    && Strings(m, tokens, seq(argc, k requires 0 <= k < argc => Word(m, esp + 12 + 4 * k)),
               esp + 12 + 4 * (argc + 1), top)
    && ReadArgs(m, esp) == tokens
  }

  /** The same byte by byte: the return address, argc, argv, the pointers to the strings, which lie one below
    * the other from `top` with their NULs, and the end of argv; fewer than four bytes are unused. */
  ghost predicate FrameBytes(m: seq<Byte>, esp: nat, tokens: seq<seq<Byte>>, top: nat) {
    var argc := |tokens|;
    && esp % 4 == 0 && top <= |m|
    && 0 <= top - Size(tokens) - (esp + 12 + 4 * (argc + 1)) < 4
    && LittleEndian(m, esp, 0) && LittleEndian(m, esp + 4, argc) && LittleEndian(m, esp + 8, esp + 12)
    && (forall i :: 0 <= i < argc ==> StringBytes(m, esp, tokens, top, i))
    && LittleEndian(m, esp + 12 + 4 * argc, 0)
  }

  ghost predicate StringBytes(m: seq<Byte>, esp: nat, tokens: seq<seq<Byte>>, top: nat, i: nat)
    requires i < |tokens|
  {
    var a := top - Size(tokens[..i + 1]);
    && LittleEndian(m, esp + 12 + 4 * i, a)
    && StringAt(m, a, tokens[i])
    && a + |tokens[i]| + 1 == if i == 0 then top else top - Size(tokens[..i])
  }

  lemma {:induction false} AddressIs(
      m: seq<Byte>, tokens: seq<seq<Byte>>, addrs: seq<int>, low: int, top: int, i: nat)
    requires Strings(m, tokens, addrs, low, top) && i < |tokens|
    ensures addrs[i] == top - Size(tokens[..i + 1])
  {
    assert Placed(m, tokens, addrs, low, top, i);
    assert tokens[..i + 1][..i] == tokens[..i];
    if i > 0 {
      AddressIs(m, tokens, addrs, low, top, i - 1);
    } else {
      assert tokens[..0] == [];
    }
  }

  lemma StringIsBytes(m: seq<Byte>, esp: nat, tokens: seq<seq<Byte>>, addrs: seq<int>, low: int, top: nat, i: nat)
    requires Strings(m, tokens, addrs, low, top) && i < |tokens| && esp + 16 + 4 * i <= |m|
    requires Word(m, esp + 12 + 4 * i) == addrs[i]
    ensures StringBytes(m, esp, tokens, top, i)
  {
    WordIsLittleEndian(m, esp + 12 + 4 * i);
    assert Placed(m, tokens, addrs, low, top, i);
    AddressIs(m, tokens, addrs, low, top, i);
    if i > 0 {
      AddressIs(m, tokens, addrs, low, top, i - 1);
    }
  }

  lemma GapIsSmall(tokens: seq<seq<Byte>>, top: nat, esp: nat)
    requires Size(tokens) <= top && esp == FinalEsp(tokens, top)
    ensures 0 <= top - Size(tokens) - (esp + 12 + 4 * (|tokens| + 1)) < 4
  {
  }

  lemma StringsAreBytes(m: seq<Byte>, esp: nat, tokens: seq<seq<Byte>>, addrs: seq<int>, low: int, top: nat)
    requires Strings(m, tokens, addrs, low, top) && Pointers(m, esp + 12, addrs)
    ensures forall i :: 0 <= i < |tokens| ==> StringBytes(m, esp, tokens, top, i)
  {
    forall i | 0 <= i < |tokens| ensures StringBytes(m, esp, tokens, top, i) {
      StringIsBytes(m, esp, tokens, addrs, low, top, i);
    }
  }

  lemma WordsAreBytes(m: seq<Byte>, esp: nat, argc: nat)
    requires esp + 16 + 4 * argc <= |m|
    requires Word(m, esp) == 0 && Word(m, esp + 4) == argc && Word(m, esp + 8) == esp + 12
    requires Word(m, esp + 12 + 4 * argc) == 0
    ensures LittleEndian(m, esp, 0) && LittleEndian(m, esp + 4, argc) && LittleEndian(m, esp + 8, esp + 12)
    ensures LittleEndian(m, esp + 12 + 4 * argc, 0)
  {
    WordIsLittleEndian(m, esp);
    WordIsLittleEndian(m, esp + 4);
    WordIsLittleEndian(m, esp + 8);
    WordIsLittleEndian(m, esp + 12 + 4 * argc);
  }

  lemma FrameStrings(m: seq<Byte>, esp: nat, tokens: seq<seq<Byte>>, top: nat) returns (addrs: seq<int>)
    requires Frame(m, esp, tokens, top)
    ensures Strings(m, tokens, addrs, esp + 12 + 4 * (|tokens| + 1), top) && Pointers(m, esp + 12, addrs)
  {
    addrs := seq(|tokens|, k requires 0 <= k < |tokens| => Word(m, esp + 12 + 4 * k));
  }

  lemma FrameIsBytes(m: seq<Byte>, esp: nat, tokens: seq<seq<Byte>>, top: nat)
    requires Frame(m, esp, tokens, top) && Size(tokens) <= top && esp == FinalEsp(tokens, top)
    ensures FrameBytes(m, esp, tokens, top)
  {
    GapIsSmall(tokens, top, esp);
    WordsAreBytes(m, esp, |tokens|);
    var addrs := FrameStrings(m, esp, tokens, top);
    StringsAreBytes(m, esp, tokens, addrs, esp + 12 + 4 * (|tokens| + 1), top);
  }

  lemma AddressesFit(m: seq<Byte>, tokens: seq<seq<Byte>>, addrs: seq<int>, low: int, top: int)
    requires Strings(m, tokens, addrs, low, top)
    ensures forall i :: 0 <= i < |addrs| ==> 0 <= addrs[i] < top
  {
    forall i | 0 <= i < |addrs| ensures 0 <= addrs[i] < top {
      assert Placed(m, tokens, addrs, low, top, i);
      BelowTop(m, tokens, addrs, low, top, i);
    }
  }

  predicate NoNul(s: seq<Byte>) {
    forall k :: 0 <= k < |s| ==> s[k] != 0
  }

  ghost predicate AllNoNul(ts: seq<seq<Byte>>) {
    forall k :: 0 <= k < |ts| ==> NoNul(ts[k])
  }

  lemma {:induction false} TokensHaveNoNul(s: seq<Byte>)
    requires NoNul(s)
    ensures AllNoNul(Tokens(s))
    decreases |s|
  {
    var rest := s[Run(s, true)..];
    if rest != [] {
      var n := Run(rest, false);
      TokensHaveNoNul(rest[n..]);
      FirstHasNoNul(rest[..n], Tokens(rest[n..]));
    }
  }

  lemma FirstHasNoNul(first: seq<Byte>, more: seq<seq<Byte>>)
    requires NoNul(first) && AllNoNul(more)
    ensures AllNoNul([first] + more)
  {
  }

  lemma AlignedBelow(a: int, k: nat)
    requires a % 4 == 0
    ensures (a - 4 * k) % 4 == 0
  {
  }

  lemma FrameHolds(m: seq<Byte>, esp: nat, tokens: seq<seq<Byte>>, addrs: seq<int>, low: int, top: nat)
    requires esp % 4 == 0 && esp + 12 + 4 * (|tokens| + 1) <= low <= top <= |m|
    requires Word(m, esp) == 0 && Word(m, esp + 4) == |tokens| && Word(m, esp + 8) == esp + 12
    requires Pointers(m, esp + 12, addrs) && Word(m, esp + 12 + 4 * |tokens|) == 0
    requires Strings(m, tokens, addrs, low, top)
    requires AllNoNul(tokens)
    ensures Frame(m, esp, tokens, top)
  {
    var argc := |tokens|;
    var words := seq(argc, k requires 0 <= k < argc => Word(m, esp + 12 + 4 * k));
    assert words == addrs;
    forall i | 0 <= i < argc
      ensures Placed(m, tokens, words, esp + 12 + 4 * (argc + 1), top, i)
      ensures CString(m, Word(m, esp + 12 + 4 * i)) == tokens[i]
    {
      assert Placed(m, tokens, addrs, low, top, i);
      CStringIs(m, addrs[i], tokens[i]);
    }
    assert ReadArgs(m, esp) == tokens;
  }

  /** The three words below argv's own: where argv is, how many arguments, and a return address. */
  method PushCall(mem: array<Byte>, argc: nat, argv: nat) returns (esp: nat)
    requires 12 <= argv <= mem.Length && argv < WORDS && argc < WORDS
    modifies mem
    ensures esp == argv - 12
    ensures Word(mem[..], esp) == 0 && Word(mem[..], esp + 4) == argc && Word(mem[..], esp + 8) == argv
    ensures LittleEndian(mem[..], esp, 0) && LittleEndian(mem[..], esp + 4, argc)
    ensures LittleEndian(mem[..], esp + 8, argv)
    ensures forall k :: 0 <= k < mem.Length && !(esp <= k < argv) ==> mem[k] == old(mem[k])
  {
    esp := argv - 4;
    StoreWord(mem, esp, argv);
    ghost var m := mem[..];
    esp := esp - 4;
    StoreWord(mem, esp, argc);
    assert Word(mem[..], esp + 4) == Word(m, esp + 4);
    m := mem[..];
    esp := esp - 4;
    StoreWord(mem, esp, 0);
    assert Word(mem[..], esp + 4) == Word(m, esp + 4) && Word(mem[..], esp + 8) == Word(m, esp + 8);
    WordIsLittleEndian(mem[..], esp);
    WordIsLittleEndian(mem[..], esp + 4);
    WordIsLittleEndian(mem[..], esp + 8);
  }

  lemma PointersKept(m: seq<Byte>, m': seq<Byte>, a: int, addrs: seq<int>)
    requires |m| == |m'| && Pointers(m, a, addrs)
    requires forall k :: 0 <= k < |m| && a <= k < a + 4 * |addrs| ==> m'[k] == m[k]
    ensures Pointers(m', a, addrs)
  {
  }

  /** The end of argv and its pointers, below the aligned strings. */
  method PushArgv(mem: array<Byte>, addrs: seq<int>, top: nat) returns (argv: nat)
    requires 4 * (|addrs| + 1) <= top <= mem.Length
    requires forall i :: 0 <= i < |addrs| ==> 0 <= addrs[i] < WORDS
    modifies mem
    ensures argv == top - 4 * (|addrs| + 1)
    ensures Pointers(mem[..], argv, addrs) && Word(mem[..], argv + 4 * |addrs|) == 0
    ensures forall k :: 0 <= k < mem.Length && !(argv <= k < top) ==> mem[k] == old(mem[k])
  {
    var esp := top - 4;
    StoreWord(mem, esp, 0);
    ghost var m := mem[..];
    argv := PushPointers(mem, addrs, esp);
    assert Word(mem[..], esp) == Word(m, esp);
  }

  /** The strings, argv and the three words are pushed one below the other, so all are still there. */
  lemma FrameFinished(
      strings: seq<Byte>, pointers: seq<Byte>, m: seq<Byte>,
      argv: nat, tokens: seq<seq<Byte>>, addrs: seq<int>, low: nat, top: nat)
    requires |strings| == |pointers| == |m| && top <= |m| && argv == Align(low) - 4 * (|tokens| + 1) >= 12
    requires low <= top && Strings(strings, tokens, addrs, low, top)
    requires Pointers(pointers, argv, addrs) && Word(pointers, argv + 4 * |tokens|) == 0
    requires forall k :: 0 <= k < |m| && Align(low) <= k ==> pointers[k] == strings[k]
    requires forall k :: 0 <= k < |m| && argv <= k ==> m[k] == pointers[k]
    requires Word(m, argv - 12) == 0 && Word(m, argv - 8) == |tokens| && Word(m, argv - 4) == argv
    requires AllNoNul(tokens)
    ensures Frame(m, argv - 12, tokens, top)
  {
    PlacedKept(strings, m, tokens, addrs, low, top);
    PointersKept(pointers, m, argv, addrs);
    AlignedBelow(Align(low), |tokens| + 4);
    assert argv - 12 == Align(low) - 4 * (|tokens| + 4);
    FrameHolds(m, argv - 12, tokens, addrs, low, top);
  }

  /** What push_command does with the tokens, below the aligned stack pointer `top`. */
  method PushFrame(mem: array<Byte>, tokens: seq<seq<Byte>>, top: nat) returns (esp: nat)
    requires top <= mem.Length <= WORDS
    requires AllNoNul(tokens) && |tokens| <= MAX_TOKENS
    requires Size(tokens) <= top && 0 <= FinalEsp(tokens, top)
    modifies mem
    ensures esp == FinalEsp(tokens, top)
    ensures Frame(mem[..], esp, tokens, top)
    ensures forall k :: 0 <= k < mem.Length && !(esp <= k < top) ==> mem[k] == old(mem[k])
  {
    var addrs: seq<int>;
    esp, addrs := PushStrings(mem, tokens, top);
    ghost var strings, low := mem[..], esp;
    AddressesFit(strings, tokens, addrs, low, top);
    esp := Align(esp);
    assert FinalEsp(tokens, top) == esp - 4 * (|tokens| + 4);
    var argv := PushArgv(mem, addrs, esp);
    ghost var pointers := mem[..];
    esp := PushCall(mem, |tokens|, argv);
    FrameFinished(strings, pointers, mem[..], argv, tokens, addrs, low, top);
  }

  /** push_command, on a stack whose pointer is `sp`, for every command line that fits. */
  method PushCommand(mem: array<Byte>, cmdline: seq<Byte>, sp: nat) returns (esp: nat)
    requires sp <= mem.Length <= WORDS
    requires NoNul(cmdline) && |Tokens(cmdline)| <= MAX_TOKENS
    requires Size(Tokens(cmdline)) <= Align(sp) && 0 <= FinalEsp(Tokens(cmdline), Align(sp))
    modifies mem
    ensures esp == FinalEsp(Tokens(cmdline), Align(sp))
    ensures Frame(mem[..], esp, Tokens(cmdline), Align(sp))
    ensures FrameBytes(mem[..], esp, Tokens(cmdline), Align(sp))
    ensures forall k :: 0 <= k < mem.Length && !(esp <= k < Align(sp)) ==> mem[k] == old(mem[k])
  {
    var top := Align(sp);
    var tokens := Split(cmdline);
    TokensHaveNoNul(cmdline);
    esp := PushFrame(mem, tokens, top);
    FrameIsBytes(mem[..], esp, tokens, top);
  }
}
