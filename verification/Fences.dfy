/** Marker scanners that ignore fenced code: what each of the three finds, and when inserting a
    fenced block changes nothing. */
module Fences {
  import opened Options
  import opened Text

  datatype Fence = Fence(token: char, width: nat)

  /** The leading run of one character. */
  function Run(s: string, c: char): nat { if s != "" && s[0] == c then 1 + Run(s[1..], c) else 0 }

  lemma {:induction false} RunBound(s: string, c: char)
    ensures Run(s, c) <= |s| && (Run(s, c) < |s| ==> s[Run(s, c)] != c)
    ensures forall i :: 0 <= i < Run(s, c) ==> s[i] == c
  {
    if s != "" && s[0] == c {
      RunBound(s[1..], c);
      forall i | 0 <= i < Run(s, c) ensures s[i] == c {
        assert i > 0 ==> s[1..][i - 1] == s[i];
      }
    }
  }

  /** A line that begins, after white space, with three or more back quotes or tildes. */
  function FenceLine(line: string): Option<Fence> {
    var s := StripLeft(line);
    if Run(s, '`') >= 3 then Some(Fence('`', Run(s, '`')))
    else if Run(s, '~') >= 3 then Some(Fence('~', Run(s, '~')))
    else None
  }

  predicate Blank(s: string) { Strip(s) == "" }

  /** The text after a line's fence run. */
  function Tail(line: string, f: Fence): string {
    var s := StripLeft(line);
    if f.width <= |s| then s[f.width..] else ""
  }

  /** Whether a fence line closes an open fence. The strict rule asks for at least the opening width and nothing
      behind it; the loose one only for the same character. */
  predicate Closes(strict: bool, open: Fence, line: string) {
    && FenceLine(line).Some? && FenceLine(line).value.token == open.token
    && (strict ==> FenceLine(line).value.width >= open.width && Blank(Tail(line, FenceLine(line).value)))
  }

  /** The fence state after one line. */
  function Next(strict: bool, fence: Option<Fence>, line: string): Option<Fence> {
    if fence.None? then FenceLine(line)
    else if Closes(strict, fence.value, line) then None
    else fence
  }

  predicate IsMarker(fence: Option<Fence>, line: string, marker: string) {
    fence.None? && FenceLine(line).None? && StartsWith(line, marker)
  }

  function Value(line: string, marker: string): string
    requires StartsWith(line, marker)
  {
    Strip(line[|marker|..])
  }

  function Found(fence: Option<Fence>, line: string, marker: string): seq<string> {
    if IsMarker(fence, line, marker) then [Value(line, marker)] else []
  }

  function After(strict: bool, fence: Option<Fence>, lines: seq<string>): Option<Fence>
    decreases lines
  {
    if lines == [] then fence else After(strict, Next(strict, fence, lines[0]), lines[1..])
  }

  /** The values of every top-level marker line, in order. */
  function Scan(strict: bool, fence: Option<Fence>, lines: seq<string>, marker: string): seq<string>
    decreases lines
  {
    if lines == [] then [] else Found(fence, lines[0], marker) + Scan(strict, Next(strict, fence, lines[0]), lines[1..], marker)
  }

  // -------------------------------------------------------------- the three scanners

  method CountRun(s: string, c: char) returns (n: nat)
    ensures n == Run(s, c)
  {
    n := 0;
    RunBound(s, c);
    while n < |s| && s[n] == c
      invariant n <= Run(s, c)
      decreases |s| - n
    {
      n := n + 1;
    }
  }

  /** One pass of the loop of `_top_level_values`. */
  method StrictLine(fence: Option<Fence>, line: string, marker: string) returns (after: Option<Fence>, found: seq<string>)
    ensures after == Next(true, fence, line) && found == Found(fence, line, marker)
  {
    after, found := fence, [];
    var run := FenceLine(line);
    if run.Some? {
      if fence.None? {
        after := run;
      } else if fence.value.token == run.value.token && run.value.width >= fence.value.width && Strip(Tail(line, run.value)) == "" {
        after := None;
      }
    } else if fence.None? && StartsWith(line, marker) {
      found := [Strip(line[|marker|..])];
    }
  }

  /** `_top_level_values` of the fix review. */
  method TopLevelValues(content: string, marker: string) returns (values: seq<string>)
    ensures values == Scan(true, None, SplitLines(content), marker)
  {
    var lines := SplitLines(content);
    values := [];
    var fence: Option<Fence> := None;
    for i := 0 to |lines|
      invariant fence == After(true, None, lines[..i]) && values == Scan(true, None, lines[..i], marker)
    {
      ScanSnoc(true, lines[..i], lines[i], marker);
      assert lines[..i + 1] == lines[..i] + [lines[i]];
      var found;
      fence, found := StrictLine(fence, lines[i], marker);
      values := values + found;
    }
    assert lines[..|lines|] == lines;
  }

  /** One pass of the loop of `parse_task_pipeline_mode`: its fence is only a character. */
  method LooseLine(fence: Option<char>, line: string, marker: string, ghost state: Option<Fence>)
    returns (after: Option<char>, found: seq<string>, ghost state': Option<Fence>)
    requires Token(state) == fence
    ensures state' == Next(false, state, line) && found == Found(state, line, marker) && Token(state') == after
  {
    after, found, state' := fence, [], Next(false, state, line);
    var run := FenceLine(line);
    if run.Some? {
      if fence.None? {
        after := Some(run.value.token);
      } else if run.value.token == fence.value {
        after := None;
      }
    } else if fence.None? && StartsWith(line, marker) {
      found := [Strip(line[|marker|..])];
    }
  }

  function Token(f: Option<Fence>): Option<char> { if f.None? then None else Some(f.value.token) }

  /** The scanner of `parse_task_pipeline_mode`. */
  method PipelineModeValues(content: string, marker: string) returns (values: seq<string>)
    ensures values == Scan(false, None, SplitLines(content), marker)
  {
    var lines := SplitLines(content);
    values := [];
    var fence: Option<char> := None;
    ghost var state: Option<Fence> := None;
    for i := 0 to |lines|
      invariant Token(state) == fence && state == After(false, None, lines[..i]) && values == Scan(false, None, lines[..i], marker)
    {
      ScanSnoc(false, lines[..i], lines[i], marker);
      assert lines[..i + 1] == lines[..i] + [lines[i]];
      var found;
      fence, found, state := LooseLine(fence, lines[i], marker, state);
      values := values + found;
    }
    assert lines[..|lines|] == lines;
  }

  lemma ScanSnoc(strict: bool, lines: seq<string>, line: string, marker: string)
    ensures After(strict, None, lines + [line]) == Next(strict, After(strict, None, lines), line)
    ensures Scan(strict, None, lines + [line], marker) == Scan(strict, None, lines, marker) + Found(After(strict, None, lines), line, marker)
  {
    ScanJoin(strict, None, lines, [line], marker);
    assert [line][1..] == [];
  }

  // ------------------------------------------------------------------- transparency

  lemma {:induction false} ScanJoin(strict: bool, fence: Option<Fence>, a: seq<string>, b: seq<string>, marker: string)
    ensures After(strict, fence, a + b) == After(strict, After(strict, fence, a), b)
    ensures Scan(strict, fence, a + b, marker) == Scan(strict, fence, a, marker) + Scan(strict, After(strict, fence, a), b, marker)
    decreases a
  {
    if a == [] {
      assert a + b == b;
    } else {
      var next := Next(strict, fence, a[0]);
      assert (a + b)[1..] == a[1..] + b;
      ScanJoin(strict, next, a[1..], b, marker);
      Reassociate(Found(fence, a[0], marker), Scan(strict, next, a[1..], marker), Scan(strict, After(strict, next, a[1..]), b, marker));
    }
  }

  lemma Reassociate(a: seq<string>, b: seq<string>, c: seq<string>)
    ensures a + b + c == a + (b + c)
  {
  }

  /** Inserting `block` at a line boundary outside a fence changes no marker, wherever that is. */
  ghost predicate Transparent(strict: bool, block: seq<string>, marker: string) {
    forall a, b :: After(strict, None, a) == None ==>
      Scan(strict, None, a + block + b, marker) == Scan(strict, None, a + b, marker)
  }

  /** The block taken alone finds nothing and ends outside a fence. */
  predicate Inert(strict: bool, block: seq<string>, marker: string) {
    Scan(strict, None, block, marker) == [] && After(strict, None, block) == None
  }

  lemma InsertAt(strict: bool, a: seq<string>, block: seq<string>, b: seq<string>, marker: string)
    requires After(strict, None, a) == None
    ensures Scan(strict, None, a + block + b, marker) ==
            Scan(strict, None, a, marker) + Scan(strict, None, block, marker) + Scan(strict, After(strict, None, block), b, marker)
    ensures Scan(strict, None, a + b, marker) == Scan(strict, None, a, marker) + Scan(strict, None, b, marker)
  {
    ScanJoin(strict, None, a + block, b, marker);
    ScanJoin(strict, None, a, block, marker);
    ScanJoin(strict, None, a, b, marker);
  }

  /** Transparency in every context is decided by the block alone. */
  lemma TransparentExactly(strict: bool, block: seq<string>, marker: string)
    requires FenceLine(marker).None?
    ensures Transparent(strict, block, marker) <==> Inert(strict, block, marker)
  {
    if Inert(strict, block, marker) {
      forall a, b | After(strict, None, a) == None
        ensures Scan(strict, None, a + block + b, marker) == Scan(strict, None, a + b, marker)
      {
        InsertAt(strict, a, block, b, marker);
      }
    }
    if Transparent(strict, block, marker) {
      InsertAt(strict, [], block, [], marker);
      assert Scan(strict, None, [] + block + [], marker) == Scan(strict, None, [] + [], marker);
      InsertAt(strict, [], block, [marker], marker);
      assert Scan(strict, None, [] + block + [marker], marker) == Scan(strict, None, [] + [marker], marker);
      assert Scan(strict, None, [marker], marker) == [Value(marker, marker)] + [];
      OpenHides(strict, After(strict, None, block), marker);
    }
  }

  lemma OpenHides(strict: bool, fence: Option<Fence>, marker: string)
    requires FenceLine(marker).None?
    ensures Scan(strict, fence, [marker], marker) != [] ==> fence.None?
  {
    assert [marker][1..] == [];
    assert Scan(strict, fence, [marker], marker) == Found(fence, marker, marker) + Scan(strict, Next(strict, fence, marker), [], marker);
  }

  /** An opening line, lines that do not close it, and a closing line. */
  predicate ProperBlock(strict: bool, open: string, inner: seq<string>, close: string) {
    && FenceLine(open).Some? && Closes(strict, FenceLine(open).value, close)
    && forall i :: 0 <= i < |inner| ==> !Closes(strict, FenceLine(open).value, inner[i])
  }

  lemma {:induction false} InsideFence(strict: bool, f: Fence, inner: seq<string>, marker: string)
    requires forall i :: 0 <= i < |inner| ==> !Closes(strict, f, inner[i])
    ensures Scan(strict, Some(f), inner, marker) == [] && After(strict, Some(f), inner) == Some(f)
  {
    if inner != [] {
      InsideFence(strict, f, inner[1..], marker);
    }
  }

  function Block(open: string, inner: seq<string>, close: string): seq<string> { [open] + inner + [close] }

  /** Each scanner is transparent for every block that is proper by its own closing rule. */
  lemma ProperIsInert(strict: bool, open: string, inner: seq<string>, close: string, marker: string)
    requires ProperBlock(strict, open, inner, close)
    ensures Inert(strict, Block(open, inner, close), marker)
  {
    var f := FenceLine(open).value;
    InsideFence(strict, f, inner, marker);
    ScanJoin(strict, None, [open] + inner, [close], marker);
    ScanJoin(strict, None, [open], inner, marker);
    assert After(strict, None, [open]) == Some(f);
  }

  lemma FencedBlockIsTransparent(strict: bool, open: string, inner: seq<string>, close: string, marker: string)
    requires ProperBlock(strict, open, inner, close) && FenceLine(marker).None?
    ensures Transparent(strict, Block(open, inner, close), marker)
  {
    ProperIsInert(strict, open, inner, close, marker);
    TransparentExactly(strict, Block(open, inner, close), marker);
  }

  /** The same for texts: inserting a fenced block between two whole lines changes no marker found. */
  lemma FencedTextIsTransparent(strict: bool, a: seq<string>, open: string, inner: seq<string>, close: string, b: seq<string>, marker: string)
    requires ProperBlock(strict, open, inner, close) && FenceLine(marker).None? && After(strict, None, a) == None
    requires WholeLines(a) && WholeLines(Block(open, inner, close)) && WholeLines(b)
    ensures Scan(strict, None, SplitLines(JoinLines(a) + (JoinLines(Block(open, inner, close)) + JoinLines(b))), marker) ==
            Scan(strict, None, SplitLines(JoinLines(a) + JoinLines(b)), marker)
  {
    var block := Block(open, inner, close);
    ThreeParts(a, block, b);
    TwoParts(a, b);
    FencedBlockIsTransparent(strict, open, inner, close, marker);
  }

  lemma TwoParts(a: seq<string>, b: seq<string>)
    requires WholeLines(a) && WholeLines(b)
    ensures SplitLines(JoinLines(a) + JoinLines(b)) == a + b
  {
    SplitJoined(b);
    JoinAppend(a, JoinLines(b));
  }

  lemma ThreeParts(a: seq<string>, b: seq<string>, c: seq<string>)
    requires WholeLines(a) && WholeLines(b) && WholeLines(c)
    ensures SplitLines(JoinLines(a) + (JoinLines(b) + JoinLines(c))) == a + b + c
  {
    TwoParts(b, c);
    JoinAppend(a, JoinLines(b) + JoinLines(c));
    assert a + (b + c) == a + b + c;
  }

  /** A block that is properly fenced by the strict rule is transparent for the loose scanner too when no inner line
      starts a run of the fence's own character. */
  lemma LooseTransparent(open: string, inner: seq<string>, close: string, marker: string)
    requires ProperBlock(true, open, inner, close) && FenceLine(marker).None?
    requires forall i :: 0 <= i < |inner| && FenceLine(inner[i]).Some? ==> FenceLine(inner[i]).value.token != FenceLine(open).value.token
    ensures Transparent(false, Block(open, inner, close), marker)
  {
    FencedBlockIsTransparent(false, open, inner, close, marker);
  }

  predicate Plain(line: string, marker: string) { FenceLine(line).None? && !StartsWith(line, marker) }

  /** The first `n + 1` lines are one proper block. */
  predicate BlockTo(strict: bool, lines: seq<string>, n: nat) {
    0 < n < |lines| && ProperBlock(strict, lines[0], lines[1..n], lines[n])
  }

  /** The lines are proper blocks, by the scanner's closing rule, with nothing but plain lines between them. */
  ghost predicate Tiled(strict: bool, lines: seq<string>, marker: string)
    decreases |lines|
  {
    || lines == []
    || (Plain(lines[0], marker) && Tiled(strict, lines[1..], marker))
    || (exists n :: BlockTo(strict, lines, n) && Tiled(strict, lines[n + 1..], marker))
  }

  lemma BlockThen(strict: bool, lines: seq<string>, n: nat, marker: string)
    requires BlockTo(strict, lines, n)
    ensures Inert(strict, lines, marker) <==> Inert(strict, lines[n + 1..], marker)
  {
    var block := Block(lines[0], lines[1..n], lines[n]);
    ProperIsInert(strict, lines[0], lines[1..n], lines[n], marker);
    assert lines == block + lines[n + 1..];
    ScanJoin(strict, None, block, lines[n + 1..], marker);
  }

  lemma PlainThen(strict: bool, lines: seq<string>, marker: string)
    requires lines != [] && FenceLine(lines[0]).None?
    ensures Inert(strict, lines, marker) <==> Plain(lines[0], marker) && Inert(strict, lines[1..], marker)
  {
  }

  /** A fence that is closed in the end is closed somewhere first. */
  lemma {:induction false} FirstClose(strict: bool, f: Fence, lines: seq<string>) returns (n: nat)
    requires After(strict, Some(f), lines) == None
    ensures n < |lines| && Closes(strict, f, lines[n]) && forall i :: 0 <= i < n ==> !Closes(strict, f, lines[i])
  {
    if Closes(strict, f, lines[0]) {
      n := 0;
    } else {
      n := FirstClose(strict, f, lines[1..]);
      n := n + 1;
    }
  }

  lemma OpensBlock(strict: bool, lines: seq<string>, marker: string) returns (n: nat)
    requires lines != [] && FenceLine(lines[0]).Some? && Inert(strict, lines, marker)
    ensures BlockTo(strict, lines, n)
  {
    n := FirstClose(strict, FenceLine(lines[0]).value, lines[1..]);
    n := n + 1;
    assert lines[1..][n - 1] == lines[n];
  }

  /** What a scanner is blind to, line by line: exactly the texts made of blocks proper by its own closing rule with
      plain lines between them. */
  lemma {:induction false} InertExactly(strict: bool, lines: seq<string>, marker: string)
    ensures Inert(strict, lines, marker) <==> Tiled(strict, lines, marker)
    decreases |lines|
  {
    if lines != [] {
      if FenceLine(lines[0]).None? {
        PlainThen(strict, lines, marker);
        InertExactly(strict, lines[1..], marker);
        assert forall n :: !BlockTo(strict, lines, n);
      } else {
        if Inert(strict, lines, marker) {
          var n := OpensBlock(strict, lines, marker);
          BlockThen(strict, lines, n, marker);
          InertExactly(strict, lines[n + 1..], marker);
        }
        if n :| BlockTo(strict, lines, n) && Tiled(strict, lines[n + 1..], marker) {
          BlockThen(strict, lines, n, marker);
          InertExactly(strict, lines[n + 1..], marker);
        }
      }
    }
  }

  /** Transparency as a condition on the lines of a block: for the loose scanner, and for strictly fenced blocks in
      particular, it holds exactly when cutting at every run of the same character leaves only plain lines outside. */
  lemma TransparentByLines(strict: bool, block: seq<string>, marker: string)
    requires FenceLine(marker).None?
    ensures Transparent(strict, block, marker) <==> Tiled(strict, block, marker)
  {
    TransparentExactly(strict, block, marker);
    InertExactly(strict, block, marker);
  }

  /** A shorter fence of the same character inside a longer one is an example, but the loose scanner takes it for the
      end: a marker behind it leaks out of a properly fenced block. */
  lemma NestedFenceLeaks(marker: string)
    requires FenceLine(marker).None?
    ensures ProperBlock(true, "````", ["```", marker], "````")
    ensures !Transparent(false, Block("````", ["```", marker], "````"), marker)
  {
    FourAndThree();
    var block := Block("````", ["```", marker], "````");
    assert block == ["````", "```", marker, "````"];
    var four := Some(Fence('`', 4));
    assert Next(false, None, "````") == four && Next(false, four, "```") == None;
    assert block[1..] == ["```", marker, "````"] && block[1..][1..] == [marker, "````"];
    assert Scan(false, None, block, marker) == [] + Scan(false, four, block[1..], marker);
    assert Scan(false, four, block[1..], marker) == [] + Scan(false, None, [marker, "````"], marker);
    assert Found(None, marker, marker) == [Value(marker, marker)];
    assert Scan(false, None, [marker, "````"], marker) != [];
    TransparentExactly(false, block, marker);
  }

  lemma FourAndThree()
    ensures FenceLine("````") == Some(Fence('`', 4)) && FenceLine("```") == Some(Fence('`', 3)) && Blank(Tail("````", Fence('`', 4)))
  {
    var q := "````";
    assert Run(q[4..], '`') == 0;
    assert Run(q[3..], '`') == 1 && Run(q[2..], '`') == 2 && Run(q[1..], '`') == 3 by {
      assert q[3..][1..] == q[4..] && q[2..][1..] == q[3..] && q[1..][1..] == q[2..];
    }
    assert q[1..] == "```";
    assert Tail(q, Fence('`', 4)) == "";
    StripBlank("");
  }

  // ------------------------------------------------------ the scanner of RESULT files

  lemma {:induction false} RunSnoc(s: string, x: char, c: char)
    requires x != c
    ensures Run(s + [x], c) == Run(s, c)
  {
    if s != "" {
      assert (s + [x])[1..] == s[1..] + [x];
      RunSnoc(s[1..], x, c);
    }
  }

  lemma {:induction false} StripRightTail(s: string)
    ensures StripRight(s) <= s && AllSpace(s[|StripRight(s)|..])
    ensures StripRight(s) != "" ==> !IsSpace(StripRight(s)[|StripRight(s)| - 1])
  {
    if s != "" && IsSpace(s[|s| - 1]) {
      var front := s[..|s| - 1];
      StripRightTail(front);
      var n := |StripRight(s)|;
      assert s[n..] == front[n..] + [s[|s| - 1]];
    }
  }

  lemma {:induction false} RunStripRight(s: string, c: char)
    requires !IsSpace(c)
    ensures Run(StripRight(s), c) == Run(s, c)
  {
    if s != "" && IsSpace(s[|s| - 1]) {
      var front := s[..|s| - 1];
      RunStripRight(front, c);
      assert s == front + [s[|s| - 1]];
      RunSnoc(front, s[|s| - 1], c);
    }
  }

  lemma {:induction false} StripLeftTail(s: string)
    ensures |StripLeft(s)| <= |s| && (StripLeft(s) == "" <==> AllSpace(s))
  {
    if s != "" && IsSpace(s[0]) {
      StripLeftTail(s[1..]);
      assert AllSpace(s) <==> AllSpace(s[1..]) by {
        assert s == [s[0]] + s[1..];
      }
    }
  }

  lemma BlankIsAllSpace(s: string)
    ensures Blank(s) <==> AllSpace(s)
  {
    StripLeftTail(s);
    StripRightTail(StripLeft(s));
    StripLeftHead(s);
  }

  lemma {:induction false} StripLeftHead(s: string)
    ensures StripLeft(s) != "" ==> !IsSpace(StripLeft(s)[0])
  {
    if s != "" && IsSpace(s[0]) {
      StripLeftHead(s[1..]);
    }
  }

  lemma SpacesSplit(a: string, b: string)
    ensures AllSpace(a + b) <==> AllSpace(a) && AllSpace(b)
  {
    assert AllSpace(a + b) ==> AllSpace(a) && AllSpace(b) by {
      if AllSpace(a + b) {
        assert forall i :: 0 <= i < |a| ==> a[i] == (a + b)[i];
        assert forall i :: 0 <= i < |b| ==> b[i] == (a + b)[|a| + i];
      }
    }
  }

  lemma RightStripSeesSame(s: string, r: string, n: nat)
    requires r == StripRight(s) && n <= |r|
    ensures |r| <= |s| && (Blank(r[n..]) <==> Blank(s[n..]))
  {
    StripRightTail(s);
    SliceJoin(s, r, n);
    SameBlank(r[n..], s[|r|..]);
  }

  lemma SliceJoin(s: string, r: string, n: nat)
    requires r <= s && n <= |r|
    ensures s[n..] == r[n..] + s[|r|..]
  {
  }

  lemma SameBlank(a: string, b: string)
    requires AllSpace(b)
    ensures Blank(a) <==> Blank(a + b)
  {
    BlankIsAllSpace(a);
    BlankIsAllSpace(a + b);
    SpacesSplit(a, b);
  }

  /** Stripping both ends instead of the left one sees the same fence run, and the same blank tail. */
  lemma StripSeesSameFence(line: string, c: char)
    requires !IsSpace(c)
    ensures Run(Strip(line), c) == Run(StripLeft(line), c) <= |Strip(line)| <= |StripLeft(line)|
    ensures var n := Run(Strip(line), c); Blank(Strip(line)[n..]) <==> Blank(Tail(line, Fence(c, n)))
  {
    var s, r := StripLeft(line), Strip(line);
    RunStripRight(s, c);
    RunBound(r, c);
    RightStripSeesSame(s, r, Run(r, c));
  }

  predicate ProperFence(f: Option<Fence>) { f.Some? ==> (f.value.token == '`' || f.value.token == '~') && f.value.width >= 3 }

  /** Outside a fence: the line opens one, or may be a marker. */
  method OutsideLine(line: string, marker: string) returns (after: Option<Fence>, found: seq<string>)
    ensures after == Next(true, None, line) && found == Found(None, line, marker) && ProperFence(after)
  {
    after, found := None, [];
    var stripped := Strip(line);
    StripSeesSameFence(line, '`');
    StripSeesSameFence(line, '~');
    var ticks := CountRun(stripped, '`');
    var tildes := CountRun(stripped, '~');
    if ticks >= 3 || tildes >= 3 {
      after := Some(if ticks >= 3 then Fence('`', ticks) else Fence('~', tildes));
    } else if StartsWith(line, marker) {
      found := [Strip(line[|marker|..])];
    }
  }

  /** Inside a fence a line closes it exactly when, stripped, it starts with the fence and holds nothing more. */
  lemma ClosesWhenStripped(f: Fence, line: string)
    requires ProperFence(Some(f))
    ensures var run := Run(Strip(line), f.token);
            run <= |Strip(line)| && (Closes(true, f, line) <==> run >= f.width && Strip(Strip(line)[run..]) == "")
  {
    StripSeesSameFence(line, f.token);
    OneToken(StripLeft(line));
  }

  lemma OneToken(s: string)
    ensures Run(s, '`') == 0 || Run(s, '~') == 0
  {
  }

  /** One pass of the loop of `parse_result_evidence`. */
  method EvidenceLine(fence: Option<Fence>, line: string, marker: string) returns (after: Option<Fence>, found: seq<string>)
    requires ProperFence(fence)
    ensures after == Next(true, fence, line) && found == Found(fence, line, marker) && ProperFence(after)
  {
    if fence.None? {
      after, found := OutsideLine(line, marker);
    } else {
      after, found := fence, [];
      var stripped := Strip(line);
      ClosesWhenStripped(fence.value, line);
      var run := CountRun(stripped, fence.value.token);
      if run >= fence.value.width && Strip(stripped[run..]) == "" {
        after := None;
      }
    }
  }

  /** The scanner of `parse_result_evidence` finds exactly what the fix-review scanner finds. */
  method EvidencePayloads(content: string, marker: string) returns (values: seq<string>)
    ensures values == Scan(true, None, SplitLines(content), marker)
  {
    var lines := SplitLines(content);
    values := [];
    var fence: Option<Fence> := None;
    for i := 0 to |lines|
      invariant ProperFence(fence)
      invariant fence == After(true, None, lines[..i]) && values == Scan(true, None, lines[..i], marker)
    {
      ScanSnoc(true, lines[..i], lines[i], marker);
      assert lines[..i + 1] == lines[..i] + [lines[i]];
      var found;
      fence, found := EvidenceLine(fence, lines[i], marker);
      values := values + found;
    }
    assert lines[..|lines|] == lines;
  }

  // ----------------------------------------------- fences and markers, by their characters

  /** After white space, a whole run of `n` of this character begins at `k`. */
  predicate FenceAt(line: string, k: nat, n: nat, c: char) {
    && n >= 3 && k + n <= |line| && (forall i :: 0 <= i < k ==> IsSpace(line[i])) && (forall i :: k <= i < k + n ==> line[i] == c)
    && (k + n == |line| || line[k + n] != c)
  }

  lemma RunIs(s: string, n: nat, c: char)
    requires n <= |s| && (forall i :: 0 <= i < n ==> s[i] == c) && (n == |s| || s[n] != c)
    ensures Run(s, c) == n
  {
    RunBound(s, c);
  }

  lemma FenceFound(line: string, k: nat, n: nat, c: char)
    requires FenceAt(line, k, n, c) && !IsSpace(c)
    ensures StripLeft(line) == line[k..] && Run(StripLeft(line), c) == n
  {
    var i := StripLeftExactly(line);
    assert line[k] == c && (i < |line| ==> !IsSpace(line[i]));
    assert i == k;
    RunIs(line[k..], n, c);
  }

  /** A fence line is white space and then a run of three or more back quotes, or of three or more tildes; the fence is
      that character, as wide as the whole run. */
  lemma FenceExactly(line: string, c: char, n: nat)
    ensures FenceLine(line) == Some(Fence(c, n)) <==> (c == '`' || c == '~') && exists k: nat :: FenceAt(line, k, n, c)
  {
    if FenceLine(line) == Some(Fence(c, n)) {
      var k := StripLeftExactly(line);
      RunBound(line[k..], c);
      assert forall i :: k <= i < k + n ==> line[i] == line[k..][i - k];
      assert FenceAt(line, k, n, c);
    }
    if (c == '`' || c == '~') && exists k: nat :: FenceAt(line, k, n, c) {
      var k: nat :| FenceAt(line, k, n, c);
      FenceFound(line, k, n, c);
      OneToken(line[k..]);
    }
  }

  /** A fence is closed by a fence line of its character; for the strict scanners it must be as wide as the opening one at
      least, with only white space behind it. */
  lemma ClosesExactly(strict: bool, open: Fence, line: string)
    requires open.token == '`' || open.token == '~'
    ensures Closes(strict, open, line) <==>
            exists k: nat, n: nat :: FenceAt(line, k, n, open.token) && (strict ==> n >= open.width && AllSpace(line[k + n..]))
  {
    if Closes(strict, open, line) {
      var n := FenceLine(line).value.width;
      FenceExactly(line, open.token, n);
      var k: nat :| FenceAt(line, k, n, open.token);
      TailIs(line, k, n, open.token);
    }
    if k: nat, n: nat :| FenceAt(line, k, n, open.token) && (strict ==> n >= open.width && AllSpace(line[k + n..])) {
      FenceExactly(line, open.token, n);
      TailIs(line, k, n, open.token);
    }
  }

  lemma TailIs(line: string, k: nat, n: nat, c: char)
    requires FenceAt(line, k, n, c) && !IsSpace(c)
    ensures Blank(Tail(line, Fence(c, n))) <==> AllSpace(line[k + n..])
  {
    FenceFound(line, k, n, c);
    assert line[k..][n..] == line[k + n..];
    BlankIsAllSpace(line[k + n..]);
  }

  /** Inside a fence is where some line outside any fence opened it and none has closed it since. */
  ghost predicate Opened(strict: bool, lines: seq<string>, j: int, f: Fence) {
    && 0 <= j < |lines| && After(strict, None, lines[..j]) == None && FenceLine(lines[j]) == Some(f)
    && forall m :: j < m < |lines| ==> !Closes(strict, f, lines[m])
  }

  lemma {:induction false} OpenExactly(strict: bool, lines: seq<string>, f: Fence)
    ensures After(strict, None, lines) == Some(f) <==> exists j :: Opened(strict, lines, j, f)
  {
    if lines != [] {
      var n := |lines| - 1;
      var init, line := lines[..n], lines[n];
      assert lines == init + [line] && forall j :: 0 <= j < n ==> lines[..j] == init[..j] && lines[j] == init[j];
      ScanSnoc(strict, init, line, "");
      OpenExactly(strict, init, f);
      if j :| Opened(strict, init, j, f) {
        assert !Closes(strict, f, line) ==> Opened(strict, lines, j, f);
      }
      if After(strict, None, init) == None && FenceLine(line) == Some(f) {
        assert Opened(strict, lines, n, f);
      }
      if j :| Opened(strict, lines, j, f) {
        if j < n {
          assert Opened(strict, init, j, f);
        }
      }
    }
  }

  /** The line stands outside any fence, is none itself, and begins with the marker; `v` is what follows, stripped. */
  predicate MarksAt(strict: bool, lines: seq<string>, marker: string, v: string, i: int) {
    && 0 <= i < |lines| && After(strict, None, lines[..i]) == None && FenceLine(lines[i]) == None
    && marker <= lines[i] && v == Strip(lines[i][|marker|..])
  }

  /** What a scanner finds are exactly those. */
  lemma {:induction false} ScanExactly(strict: bool, lines: seq<string>, marker: string, v: string)
    ensures v in Scan(strict, None, lines, marker) <==> exists i :: MarksAt(strict, lines, marker, v, i)
  {
    if lines != [] {
      var n := |lines| - 1;
      var init := lines[..n];
      assert lines == init + [lines[n]];
      ScanSnoc(strict, init, lines[n], marker);
      ScanExactly(strict, init, marker, v);
      assert MarksAt(strict, lines, marker, v, n) <==> v in Found(After(strict, None, init), lines[n], marker);
      forall i | 0 <= i < n ensures MarksAt(strict, lines, marker, v, i) <==> MarksAt(strict, init, marker, v, i) {
        assert lines[..i] == init[..i] && lines[i] == init[i];
      }
      if i :| MarksAt(strict, init, marker, v, i) {
        assert MarksAt(strict, lines, marker, v, i);
      }
    }
  }
}
