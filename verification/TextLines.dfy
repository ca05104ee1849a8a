/** Text as lines: breaking, joining and trimming, and splitting a line at its last double spaces. */
module TextLines {
  import opened Text

  /** The characters that end a line, besides the pair of a carriage return and a line feed. */
  predicate IsBreak(c: char) {
    || '\n' <= c <= '\r'
    || '\U{1C}' <= c <= '\U{1E}'
    || c == '\U{85}' || c == '\U{2028}' || c == '\U{2029}'
  }

  predicate IsSpace(c: char) {
    || IsBreak(c) || c == '\t' || c == ' ' || c == '\U{1F}' || c == '\U{A0}' || c == '\U{1680}'
    || '\U{2000}' <= c <= '\U{200A}'
    || c == '\U{202F}' || c == '\U{205F}' || c == '\U{3000}'
  }

  predicate OneLine(s: string) {
    forall i :: 0 <= i < |s| ==> !IsBreak(s[i])
  }

  /** The length of the first line. */
  function LineEnd(s: string): (n: nat)
    ensures n <= |s| && OneLine(s[..n])
    ensures n < |s| ==> IsBreak(s[n])
  {
    if s == "" || IsBreak(s[0]) then 0 else 1 + LineEnd(s[1..])
  }

  /** Where the second line begins. */
  function AfterBreak(s: string): (n: nat)
    requires LineEnd(s) < |s|
    ensures LineEnd(s) < n <= |s|
  {
    var n := LineEnd(s);
    if s[n] == '\r' && n + 1 < |s| && s[n + 1] == '\n' then n + 2 else n + 1
  }

  /** The lines of a text; a break at the very end does not begin another line. */
  function Lines(s: string): (lines: seq<string>)
    ensures forall i :: 0 <= i < |lines| ==> OneLine(lines[i])
  {
    if s == "" then []
    else if LineEnd(s) == |s| then [s]
    else [s[..LineEnd(s)]] + Lines(s[AfterBreak(s)..])
  }

  /** The lines, each followed by a line feed. */
  function Terminated(lines: seq<string>): string {
    if lines == [] then "" else lines[0] + "\n" + Terminated(lines[1..])
  }

  /** The lines with line feeds between them. */
  function Joined(lines: seq<string>): string
    requires lines != []
  {
    if |lines| == 1 then lines[0] else lines[0] + "\n" + Joined(lines[1..])
  }

  lemma Associates<T>(a: seq<T>, b: seq<T>, c: seq<T>)
    ensures (a + b) + c == a + (b + c)
  {
  }

  lemma {:induction false} JoinedTerminated(lines: seq<string>)
    requires lines != []
    ensures Joined(lines) + "\n" == Terminated(lines)
  {
    if |lines| == 1 {
      assert Terminated(lines[1..]) == "";
      assert lines[0] + "\n" + "" == lines[0] + "\n";
    } else {
      JoinedTerminated(lines[1..]);
      Associates(lines[0] + "\n", Joined(lines[1..]), "\n");
    }
  }

  lemma {:induction false} TerminatedAppend(a: seq<string>, b: seq<string>)
    ensures Terminated(a + b) == Terminated(a) + Terminated(b)
  {
    if a == [] {
      assert a + b == b;
    } else {
      assert (a + b)[1..] == a[1..] + b;
      TerminatedAppend(a[1..], b);
      Associates(a[0] + "\n", Terminated(a[1..]), Terminated(b));
    }
  }

  /** A line feed, or anything else that ends a line, is found where it first stands. */
  lemma {:induction false} LineEndIs(s: string, n: nat)
    requires n < |s| && OneLine(s[..n]) && IsBreak(s[n])
    ensures LineEnd(s) == n
  {
    if n == 0 {
    } else {
      assert s[0] == s[..n][0];
      assert s[1..][..n - 1] == s[..n][1..];
      LineEndIs(s[1..], n - 1);
    }
  }

  lemma NoLines()
    ensures Lines("") == []
  {
  }

  lemma LinesStep(s: string)
    requires LineEnd(s) < |s|
    ensures Lines(s) == [s[..LineEnd(s)]] + Lines(s[AfterBreak(s)..])
  {
  }

  lemma {:induction false} LineEndAtMost(s: string, i: nat)
    requires i < |s| && IsBreak(s[i])
    ensures LineEnd(s) <= i
  {
    if i == 0 {
    } else {
      LineEndAtMost(s[1..], i - 1);
    }
  }

  /** The first break of a text ended by a line feed does not depend on what follows it. */
  lemma SameBreak(a: string, b: string)
    requires LineEnd(a + "\n" + b) == LineEnd(a + "\n") <= |a|
    ensures AfterBreak(a + "\n" + b) == AfterBreak(a + "\n")
  {
    hide LineEnd;
    var s, t := a + "\n" + b, a + "\n";
    assert forall i :: 0 <= i < |t| ==> s[i] == t[i];
  }

  /** Text up to a line feed and text after it break into lines separately. */
  lemma {:induction false} LinesAppend(a: string, b: string)
    ensures Lines(a + "\n" + b) == Lines(a + "\n") + Lines(b)
    decreases |a|
  {
    hide Lines, LineEnd, AfterBreak;
    var s, t := a + "\n" + b, a + "\n";
    var n := LineEnd(t);
    LineEndAtMost(t, |a|);
    assert s[..n] == t[..n] && s[n] == t[n];
    LineEndIs(s, n);
    LinesStep(s);
    LinesStep(t);
    if AfterBreak(t) <= |a| {
      var k := AfterBreak(t);
      SameBreak(a, b);
      assert t[k..] == a[k..] + "\n" && s[k..] == a[k..] + "\n" + b;
      LinesAppend(a[k..], b);
      Associates([t[..n]], Lines(a[k..] + "\n"), Lines(b));
    } else {
      SameBreak(a, b);
      assert t[|t|..] == "" && s[|t|..] == b;
      NoLines();
      assert [t[..n]] + [] == [t[..n]];
    }
  }

  lemma LinesOfLine(line: string, rest: string)
    requires OneLine(line)
    ensures Lines(line + "\n" + rest) == [line] + Lines(rest)
  {
    hide Lines, LineEnd;
    var s := line + "\n" + rest;
    assert s[..|line|] == line;
    LineEndIs(s, |line|);
    LinesStep(s);
    assert s[|line| + 1..] == rest;
  }

  /** Lines that hold no break come back as they were. */
  lemma {:induction false} LinesOfTerminated(lines: seq<string>, rest: string)
    requires forall i :: 0 <= i < |lines| ==> OneLine(lines[i])
    ensures Lines(Terminated(lines) + rest) == lines + Lines(rest)
  {
    hide Lines, OneLine;
    if lines == [] {
      assert "" + rest == rest;
    } else {
      LinesOfTerminated(lines[1..], rest);
      Associates(lines[0] + "\n", Terminated(lines[1..]), rest);
      LinesOfLine(lines[0], Terminated(lines[1..]) + rest);
      assert lines == [lines[0]] + lines[1..];
      Associates([lines[0]], lines[1..], Lines(rest));
    }
  }

  lemma {:induction false} TerminatedEndsLine(lines: seq<string>)
    requires lines != []
    ensures Terminated(lines) != "" && Terminated(lines) == Terminated(lines)[..|Terminated(lines)| - 1] + "\n"
  {
    if |lines| > 1 {
      TerminatedEndsLine(lines[1..]);
    }
  }

  predicate OneLineEach(lines: seq<string>) {
    forall i :: 0 <= i < |lines| ==> OneLine(lines[i])
  }

  lemma AppendOneLines(a: seq<string>, b: seq<string>)
    requires OneLineEach(a) && OneLineEach(b)
    ensures OneLineEach(a + b)
  {
    hide OneLine;
  }

  lemma LinesOfJoined(lines: seq<string>)
    requires lines != [] && OneLineEach(lines)
    ensures Lines(Joined(lines) + "\n") == lines
  {
    hide Lines, Terminated, Joined, OneLine;
    JoinedTerminated(lines);
    LinesOfTerminated(lines, "");
    assert Terminated(lines) + "" == Terminated(lines);
    NoLines();
    assert lines + [] == lines;
  }

  /** Terminated lines and what follows them break into lines separately. */
  lemma LinesOfParts(lines: seq<string>, rest: string)
    ensures Lines(Terminated(lines) + rest) == Lines(Terminated(lines)) + Lines(rest)
  {
    hide Lines;
    if lines == [] {
      NoLines();
      assert "" + rest == rest;
    } else {
      TerminatedEndsLine(lines);
      LinesAppend(Terminated(lines)[..|Terminated(lines)| - 1], rest);
    }
  }

  lemma SingleLine(line: string)
    requires OneLine(line) && line != ""
    ensures Lines(line) == [line]
  {
    assert LineEnd(line) == |line|;
  }

  /** Reading the lines one by one: each ends at the first break, where a carriage return and the line feed
      after it are one break. */
  lemma LinesSplitAtBreak(line: string, c: char, rest: string)
    requires OneLine(line) && IsBreak(c)
    ensures c == '\r' && rest != "" && rest[0] == '\n' ==> Lines(line + [c] + rest) == [line] + Lines(rest[1..])
    ensures !(c == '\r' && rest != "" && rest[0] == '\n') ==> Lines(line + [c] + rest) == [line] + Lines(rest)
    ensures line != "" ==> Lines(line) == [line]
  {
    hide Lines, LineEnd;
    var s, n := line + [c] + rest, |line|;
    LineEndIs(s, n);
    LinesStep(s);
    assert s[..n] == line && s[n + 1..] == rest;
    if rest != "" {
      assert s[n + 1] == rest[0] && s[n + 2..] == rest[1..];
    }
    if line != "" {
      SingleLine(line);
    }
  }

  /******* Trimming *******/

  function StripLeft(s: string): (r: string)
    ensures r == "" || !IsSpace(r[0])
    ensures |r| <= |s| && r == s[|s| - |r|..]
  {
    if s != "" && IsSpace(s[0]) then StripLeft(s[1..]) else s
  }

  function StripRight(s: string): (r: string)
    ensures r == "" || !IsSpace(r[|r| - 1])
    ensures |r| <= |s| && r == s[..|r|]
    ensures s != "" && !IsSpace(s[0]) ==> r != ""
  {
    if s != "" && IsSpace(s[|s| - 1]) then StripRight(s[..|s| - 1]) else s
  }

  /** The text without the whitespace at either end. */
  function Strip(s: string): (r: string)
    ensures r == "" || (!IsSpace(r[0]) && !IsSpace(r[|r| - 1]))
    ensures OneLine(s) ==> OneLine(r)
    ensures s != "" && !IsSpace(s[0]) && !IsSpace(s[|s| - 1]) ==> r == s
  {
    StripRight(StripLeft(s))
  }

  lemma StripStep(s: string)
    ensures StripLeft(s) == if s != "" && IsSpace(s[0]) then StripLeft(s[1..]) else s
    ensures StripRight(s) == if s != "" && IsSpace(s[|s| - 1]) then StripRight(s[..|s| - 1]) else s
  {
    hide IsSpace;
  }

  predicate AllSpace(s: string) {
    forall c :: c in s ==> IsSpace(c)
  }

  lemma NoneIsSpace()
    ensures AllSpace("")
  {
  }

  lemma SpacesAppend(a: string, b: string)
    requires AllSpace(a) && AllSpace(b)
    ensures AllSpace(a + b)
  {
    hide IsSpace;
  }

  lemma FirstApart(s: string, more: string, kept: string)
    requires s != "" && s[1..] == more + kept
    ensures s == ([s[0]] + more) + kept
  {
    assert s == [s[0]] + s[1..];
  }

  lemma LastApart(s: string, kept: string, more: string)
    requires s != "" && s[..|s| - 1] == kept + more
    ensures s == kept + (more + [s[|s| - 1]])
  {
    assert s == s[..|s| - 1] + [s[|s| - 1]];
  }

  lemma {:induction false} StripLeftTakesSpace(s: string) returns (before: string)
    ensures s == before + StripLeft(s) && AllSpace(before)
  {
    hide StripLeft;
    before := "";
    NoneIsSpace();
    StripStep(s);
    if s != "" && IsSpace(s[0]) {
      var more := StripLeftTakesSpace(s[1..]);
      before := [s[0]] + more;
      assert AllSpace([s[0]]);
      hide AllSpace, IsSpace;
      SpacesAppend([s[0]], more);
      FirstApart(s, more, StripLeft(s));
    }
  }

  lemma {:induction false} StripRightTakesSpace(s: string) returns (after: string)
    ensures s == StripRight(s) + after && AllSpace(after)
  {
    hide StripRight;
    after := "";
    NoneIsSpace();
    StripStep(s);
    if s != "" && IsSpace(s[|s| - 1]) {
      var more := StripRightTakesSpace(s[..|s| - 1]);
      after := more + [s[|s| - 1]];
      assert AllSpace([s[|s| - 1]]);
      hide AllSpace, IsSpace;
      SpacesAppend(more, [s[|s| - 1]]);
      LastApart(s, StripRight(s), more);
    }
  }

  /** Nothing but whitespace is taken away. */
  lemma StripTakesSpace(s: string) returns (before: string, after: string)
    ensures s == before + Strip(s) + after && AllSpace(before) && AllSpace(after)
  {
    hide AllSpace, StripLeft, StripRight;
    before := StripLeftTakesSpace(s);
    after := StripRightTakesSpace(StripLeft(s));
    Associates(before, Strip(s), after);
  }

  /** A text that begins with something other than whitespace keeps its beginning. */
  lemma StripKeepsStart(s: string)
    requires s != "" && !IsSpace(s[0])
    ensures Strip(s) != "" && Strip(s)[0] == s[0]
  {
    assert StripLeft(s) == s;
  }

  /******* Splitting at double spaces *******/

  predicate GapAt(s: string, i: nat) {
    i + 1 < |s| && s[i] == ' ' && s[i + 1] == ' '
  }

  /** Where the last double space begins. */
  function LastGap(s: string): (r: Option<nat>)
    ensures r.Some? ==> GapAt(s, r.value) && forall i :: i > r.value ==> !GapAt(s, i)
    ensures r.None? ==> forall i :: !GapAt(s, i)
  {
    if |s| < 2 then None
    else if s[|s| - 2] == ' ' && s[|s| - 1] == ' ' then Some(|s| - 2)
    else
      var r := LastGap(s[..|s| - 1]);
      assert forall i :: GapAt(s, i) <==> GapAt(s[..|s| - 1], i);
      r
  }

  /** The three parts of a line split from the right at its last two double spaces. */
  function SplitTwice(s: string): Option<(string, string, string)> {
    var second := LastGap(s);
    if second.None? then None
    else
      var first := LastGap(s[..second.value]);
      if first.None? then None
      else Some((s[..first.value], s[first.value + 2..second.value], s[second.value + 2..]))
  }

  predicate NoSpace(s: string) {
    forall i :: 0 <= i < |s| ==> s[i] != ' '
  }

  lemma LastGapUnique(s: string, i: nat)
    requires GapAt(s, i) && forall j :: j > i ==> !GapAt(s, j)
    ensures LastGap(s) == Some(i)
  {
  }

  /** What stands before a double space that no space follows, however it ends itself. */
  lemma LastGapIs(before: string, after: string)
    requires NoSpace(after)
    ensures LastGap(before + "  " + after) == Some(|before|)
  {
    hide LastGap;
    var s := before + "  " + after;
    assert GapAt(s, |before|);
    forall j | j > |before| ensures !GapAt(s, j) {
      if j + 1 < |s| {
        assert s[j + 1] == after[j - 1 - |before|];
      }
    }
    LastGapUnique(s, |before|);
  }

  /** Splitting undoes joining with double spaces, whatever the first part is. */
  lemma SplitJoined(a: string, b: string, c: string)
    requires NoSpace(b) && NoSpace(c)
    ensures SplitTwice(a + "  " + b + "  " + c) == Some((a, b, c))
  {
    hide LastGap;
    var s := a + "  " + b + "  " + c;
    LastGapIs(a + "  " + b, c);
    LastGapIs(a, b);
    assert s[..|a + "  " + b|] == a + "  " + b;
    assert s[..|a|] == a && s[|a| + 2..|a| + 2 + |b|] == b && s[|a| + 4 + |b|..] == c;
  }
}
