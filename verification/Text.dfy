/** The string operations the parsers rely on: splitting on a separator, splitting into lines,
    stripping white space. */
module Text {

  // ---------------------------------------------------------------- one separator

  predicate Free<T(==)>(s: seq<T>, sep: T) { sep !in s }

  /** Splitting on one separator; the result is never empty. */
  function SplitOn<T(==)>(s: seq<T>, sep: T): (parts: seq<seq<T>>)
    ensures parts != [] && forall i :: 0 <= i < |parts| ==> Free(parts[i], sep)
  {
    if s == [] then [[]]
    else
      var rest := SplitOn(s[1..], sep);
      if s[0] == sep then [[]] + rest else [[s[0]] + rest[0]] + rest[1..]
  }

  /** Every part followed by the separator. */
  function Terminated<T>(parts: seq<seq<T>>, sep: T): seq<T> {
    if parts == [] then [] else parts[0] + [sep] + Terminated(parts[1..], sep)
  }

  lemma {:induction false} SplitFirst<T>(part: seq<T>, rest: seq<T>, sep: T)
    requires Free(part, sep)
    ensures SplitOn(part + [sep] + rest, sep) == [part] + SplitOn(rest, sep)
  {
    var s := part + [sep] + rest;
    if part == [] {
      assert s == [sep] + rest && s[1..] == rest;
    } else {
      assert s[0] == part[0] && s[1..] == part[1..] + [sep] + rest;
      SplitFirst(part[1..], rest, sep);
      assert [part[0]] + part[1..] == part;
    }
  }

  /** Splitting a terminated list gives its parts back, and one empty part after the last separator. */
  lemma {:induction false} SplitTerminated<T>(parts: seq<seq<T>>, sep: T)
    requires forall i :: 0 <= i < |parts| ==> Free(parts[i], sep)
    ensures SplitOn(Terminated(parts, sep), sep) == parts + [[]]
  {
    if parts != [] {
      SplitTerminated(parts[1..], sep);
      SplitFirst(parts[0], Terminated(parts[1..], sep), sep);
      assert [parts[0]] + (parts[1..] + [[]]) == parts + [[]];
    }
  }

  /** And the parts of any string, each followed by the separator, are that string with one more separator. */
  lemma {:induction false} SplitInverts<T>(s: seq<T>, sep: T)
    ensures Terminated(SplitOn(s, sep), sep) == s + [sep]
  {
    if s != [] {
      SplitInverts(s[1..], sep);
      var rest := SplitOn(s[1..], sep);
      assert s == [s[0]] + s[1..];
      if s[0] != sep {
        var parts := [[s[0]] + rest[0]] + rest[1..];
        assert parts[1..] == rest[1..] && SplitOn(s, sep) == parts;
        assert [s[0]] + (rest[0] + [sep] + Terminated(rest[1..], sep)) == parts[0] + [sep] + Terminated(parts[1..], sep);
      } else {
        assert ([[]] + rest)[1..] == rest;
      }
    } else {
      assert Terminated([[]], sep) == [] + [sep] + Terminated([[]][1..], sep);
    }
  }

  // --------------------------------------------------------------------- white space

  predicate IsSpace(c: char) {
    || '\t' <= c <= '\r' || '\U{1c}' <= c <= ' ' || c == '\U{85}' || c == '\U{a0}' || c == '\U{1680}' || '\U{2000}' <= c <= '\U{200a}'
    || c == '\U{2028}' || c == '\U{2029}' || c == '\U{202f}' || c == '\U{205f}' || c == '\U{3000}'
  }

  function StripLeft(s: string): string {
    if s != "" && IsSpace(s[0]) then StripLeft(s[1..]) else s
  }

  function StripRight(s: string): string {
    if s != "" && IsSpace(s[|s| - 1]) then StripRight(s[..|s| - 1]) else s
  }

  function Strip(s: string): string { StripRight(StripLeft(s)) }

  predicate StartsWith(s: string, prefix: string) { prefix <= s }

  /** White space by code point: tab to carriage return, the four separators and the space, and Unicode's others. */
  lemma SpaceExactly(c: char)
    ensures IsSpace(c) <==>
            var n := c as int;
            9 <= n <= 13 || 28 <= n <= 32 || 8192 <= n <= 8202 || n in {133, 160, 5760, 8232, 8233, 8239, 8287, 12288}
  {
  }

  predicate AllSpace(s: string) { forall i :: 0 <= i < |s| ==> IsSpace(s[i]) }

  lemma {:induction false} StripLeftExactly(s: string) returns (i: nat)
    ensures i <= |s| && StripLeft(s) == s[i..] && (forall m :: 0 <= m < i ==> IsSpace(s[m])) && (i < |s| ==> !IsSpace(s[i]))
  {
    i := 0;
    if s != "" && IsSpace(s[0]) {
      var k := StripLeftExactly(s[1..]);
      i := k + 1;
      assert forall m :: 0 < m < i ==> s[m] == s[1..][m - 1];
    }
  }

  lemma {:induction false} StripRightExactly(s: string) returns (j: nat)
    ensures j <= |s| && StripRight(s) == s[..j] && (forall m :: j <= m < |s| ==> IsSpace(s[m])) && (j > 0 ==> !IsSpace(s[j - 1]))
  {
    j := |s|;
    if s != "" && IsSpace(s[|s| - 1]) {
      j := StripRightExactly(s[..|s| - 1]);
    }
  }

  /** Stripping takes white space off both ends, and leaves none there. */
  lemma StripExactly(s: string) returns (i: nat, j: nat)
    ensures i <= j <= |s| && Strip(s) == s[i..j]
    ensures forall m :: 0 <= m < i || j <= m < |s| ==> IsSpace(s[m])
    ensures i < j ==> !IsSpace(s[i]) && !IsSpace(s[j - 1])
  {
    i := StripLeftExactly(s);
    var k := StripRightExactly(s[i..]);
    j := i + k;
    assert s[i..j] == s[i..][..k] && forall m :: i <= m < |s| ==> s[m] == s[i..][m - i];
  }

  lemma {:induction false} StripBlank(s: string)
    requires forall i :: 0 <= i < |s| ==> IsSpace(s[i])
    ensures StripLeft(s) == "" && Strip(s) == ""
  {
    if s != "" {
      StripBlank(s[1..]);
    }
  }

  /** Stripping changes nothing exactly when neither end is white space. */
  lemma StripFixed(s: string)
    requires s != "" && !IsSpace(s[0]) && !IsSpace(s[|s| - 1])
    ensures Strip(s) == s && StripLeft(s) == s
  {
  }

  // --------------------------------------------------------------------------- lines

  /** The line boundaries of `str.splitlines`. */
  predicate IsBreak(c: char) {
    '\n' <= c <= '\r' || '\U{1c}' <= c <= '\U{1e}' || c == '\U{85}' || c == '\U{2028}' || c == '\U{2029}'
  }

  predicate OneLine(s: string) { forall i :: 0 <= i < |s| ==> !IsBreak(s[i]) }

  /** `splitlines`: a carriage return and a line feed together are one boundary, and a final boundary opens no line. */
  function SplitLines(s: string): (lines: seq<string>)
    ensures s != "" ==> lines != []
  {
    if s == "" then []
    else if s[0] == '\r' && |s| > 1 && s[1] == '\n' then [""] + SplitLines(s[2..])
    else if IsBreak(s[0]) then [""] + SplitLines(s[1..])
    else if |s| == 1 || IsBreak(s[1]) then
      (if |s| == 1 then [s]
       else if s[1] == '\r' && |s| > 2 && s[2] == '\n' then [[s[0]]] + SplitLines(s[3..])
       else [[s[0]]] + SplitLines(s[2..]))
    else
      var rest := SplitLines(s[1..]);
      [[s[0]] + rest[0]] + rest[1..]
  }

  function JoinLines(lines: seq<string>): string { Terminated(lines, '\n') }

  /** Line boundaries by code point. */
  lemma BreakExactly(c: char)
    ensures IsBreak(c) <==> c as int in {10, 11, 12, 13, 28, 29, 30, 133, 8232, 8233}
  {
  }

  /** The first line of a text ends at its first boundary, of whatever kind. */
  lemma {:induction false} SplitBreak(line: string, c: char, rest: string)
    requires OneLine(line) && IsBreak(c) && !(c == '\r' && "\n" <= rest)
    ensures SplitLines(line + [c] + rest) == [line] + SplitLines(rest)
  {
    var s := line + [c] + rest;
    if line == "" {
      assert s[1..] == rest && s[0] == c;
    } else if |line| == 1 {
      assert s[0] == line[0] && s[1] == c && s[2..] == rest;
      assert [s[0]] == line;
    } else {
      assert s[0] == line[0] && s[1] == line[1] && s[1..] == line[1..] + [c] + rest;
      SplitBreak(line[1..], c, rest);
      assert [line[0]] + line[1..] == line;
    }
  }

  /** A carriage return with its line feed is one boundary. */
  lemma {:induction false} SplitCrLf(line: string, rest: string)
    requires OneLine(line)
    ensures SplitLines(line + "\r\n" + rest) == [line] + SplitLines(rest)
  {
    var s := line + "\r\n" + rest;
    if line == "" {
      assert s[2..] == rest && s[0] == '\r' && s[1] == '\n';
    } else if |line| == 1 {
      assert s[0] == line[0] && s[1] == '\r' && s[2] == '\n' && s[3..] == rest;
      assert [s[0]] == line;
    } else {
      assert s[0] == line[0] && s[1] == line[1] && s[1..] == line[1..] + "\r\n" + rest;
      SplitCrLf(line[1..], rest);
      assert [line[0]] + line[1..] == line;
    }
  }

  /** And a last line needs none. */
  lemma {:induction false} SplitLast(line: string)
    requires OneLine(line) && line != ""
    ensures SplitLines(line) == [line]
  {
    if |line| > 1 {
      SplitLast(line[1..]);
      assert [line[0]] + line[1..] == line;
    }
  }

  lemma SplitLine(line: string, rest: string)
    requires OneLine(line)
    ensures SplitLines(line + "\n" + rest) == [line] + SplitLines(rest)
  {
    SplitBreak(line, '\n', rest);
  }

  predicate WholeLines(lines: seq<string>) { forall i :: 0 <= i < |lines| ==> OneLine(lines[i]) }

  /** A text written line by line reads back as those lines. */
  lemma {:induction false} SplitJoined(lines: seq<string>)
    requires WholeLines(lines)
    ensures SplitLines(JoinLines(lines)) == lines
  {
    if lines != [] {
      SplitJoined(lines[1..]);
      SplitLine(lines[0], JoinLines(lines[1..]));
      assert [lines[0]] + lines[1..] == lines;
    }
  }

  /** Whole lines in front of a text are its first lines. */
  lemma {:induction false} JoinAppend(a: seq<string>, b: string)
    requires WholeLines(a)
    ensures SplitLines(JoinLines(a) + b) == a + SplitLines(b)
  {
    if a == [] {
      assert JoinLines(a) + b == b;
    } else {
      JoinAppend(a[1..], b);
      JoinFirst(a, b);
      SplitLine(a[0], JoinLines(a[1..]) + b);
      Prepend(a, SplitLines(b));
    }
  }

  lemma JoinFirst(a: seq<string>, b: string)
    requires a != []
    ensures JoinLines(a) + b == a[0] + "\n" + (JoinLines(a[1..]) + b)
  {
    var rest := JoinLines(a[1..]);
    assert a[0] + "\n" + rest + b == a[0] + "\n" + (rest + b);
  }

  lemma Prepend(a: seq<string>, b: seq<string>)
    requires a != []
    ensures [a[0]] + (a[1..] + b) == a + b
  {
  }
}
