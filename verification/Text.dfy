/** Splitting, stripping and joining text the way the Python programs do. */
module Text {

  /** The white space that strip() removes. */
  predicate IsSpace(c: char) {
    var n := c as int;
    || 0x09 <= n <= 0x0d || 0x1c <= n <= 0x20 || n == 0x85 || n == 0xa0 || n == 0x1680
    || 0x2000 <= n <= 0x200a || n == 0x2028 || n == 0x2029 || n == 0x202f || n == 0x205f || n == 0x3000
  }

  function StripLeft(s: string): (r: string)
    ensures |r| <= |s|
  {
    if s != "" && IsSpace(s[0]) then StripLeft(s[1..]) else s
  }

  function StripRight(s: string): (r: string)
    ensures |r| <= |s|
  {
    if s != "" && IsSpace(s[|s| - 1]) then StripRight(s[..|s| - 1]) else s
  }

  function Strip(s: string): string {
    StripRight(StripLeft(s))
  }

  ghost predicate Stripped(s: string) {
    s != "" ==> !IsSpace(s[0]) && !IsSpace(s[|s| - 1])
  }

  lemma {:induction false} StripLeftStarts(s: string)
    ensures StripLeft(s) == "" || !IsSpace(StripLeft(s)[0])
  {
    if s != "" && IsSpace(s[0]) {
      StripLeftStarts(s[1..]);
    }
  }

  lemma {:induction false} StripRightEnds(s: string)
    ensures StripRight(s) == "" || (!IsSpace(StripRight(s)[|StripRight(s)| - 1]) && StripRight(s)[0] == s[0])
    ensures StripRight(s) <= s
  {
    if s != "" && IsSpace(s[|s| - 1]) {
      StripRightEnds(s[..|s| - 1]);
    }
  }

  lemma StripIsStripped(s: string)
    ensures Stripped(Strip(s))
  {
    StripLeftStarts(s);
    StripRightEnds(StripLeft(s));
  }

  lemma StripStripped(s: string)
    requires Stripped(s)
    ensures Strip(s) == s
  {
  }

  lemma StripIsIdempotent(s: string)
    ensures Strip(Strip(s)) == Strip(s)
  {
    StripIsStripped(s);
    StripStripped(Strip(s));
  }

  /** A character that is left after stripping was there before. */
  lemma StripKeeps(s: string, c: char)
    requires c !in s
    ensures c !in Strip(s)
  {
    StripLeftKeeps(s, c);
    StripRightEnds(StripLeft(s));
  }

  lemma {:induction false} StripLeftKeeps(s: string, c: char)
    requires c !in s
    ensures c !in StripLeft(s)
  {
    if s != "" && IsSpace(s[0]) {
      StripLeftKeeps(s[1..], c);
    }
  }

  lemma {:induction false} StripRightAfter(s: string, t: string)
    requires s != "" && !IsSpace(s[|s| - 1])
    ensures StripRight(s + t) == s + StripRight(t)
  {
    if t == "" {
      assert s + t == s;
    } else if IsSpace(t[|t| - 1]) {
      assert (s + t)[..|s + t| - 1] == s + t[..|t| - 1];
      StripRightAfter(s, t[..|t| - 1]);
    }
  }

  lemma {:induction false} StripsCommute(s: string)
    ensures StripLeft(StripRight(s)) == StripRight(StripLeft(s))
  {
    if s != "" && IsSpace(s[0]) {
      StripsCommute(s[1..]);
      StripRightOfSpace(s);
    } else {
      StripRightEnds(s);
    }
  }

  lemma {:induction false} StripRightOfSpace(s: string)
    requires s != "" && IsSpace(s[0])
    ensures StripLeft(StripRight(s)) == StripLeft(StripRight(s[1..]))
  {
    if IsSpace(s[|s| - 1]) {
      var init := s[..|s| - 1];
      if init != "" {
        StripRightOfSpace(init);
        assert s[1..][..|s[1..]| - 1] == init[1..];
      }
    } else {
      assert StripRight(s[1..]) == s[1..];
    }
  }

  lemma StripAfterStripRight(s: string)
    ensures Strip(StripRight(s)) == Strip(s)
  {
    StripsCommute(s);
    StripIsIdempotent(s);
    StripRightTwice(StripLeft(s));
  }

  lemma StripRightTwice(s: string)
    ensures StripRight(StripRight(s)) == StripRight(s)
  {
    StripRightEnds(s);
  }

  /** Stripping takes away white space at both ends and nothing else, and leaves none there. */
  lemma StripMeans(s: string) returns (i: nat, j: nat)
    ensures i <= j <= |s| && Strip(s) == s[i..j] && Stripped(Strip(s))
    ensures (forall k :: 0 <= k < i ==> IsSpace(s[k])) && (forall k :: j <= k < |s| ==> IsSpace(s[k]))
  {
    i := LeftMeans(s);
    var r := s[i..];
    var n := RightMeans(r);
    j := i + n;
    StripIsStripped(s);
    assert forall k :: j <= k < |s| ==> s[k] == r[k - i];
  }

  lemma {:induction false} LeftMeans(s: string) returns (i: nat)
    ensures i <= |s| && StripLeft(s) == s[i..] && forall k :: 0 <= k < i ==> IsSpace(s[k])
  {
    if s != "" && IsSpace(s[0]) {
      i := LeftMeans(s[1..]);
      assert forall k :: 1 <= k < i + 1 ==> s[k] == s[1..][k - 1];
      i := i + 1;
    } else {
      i := 0;
    }
  }

  lemma {:induction false} RightMeans(s: string) returns (j: nat)
    ensures j <= |s| && StripRight(s) == s[..j] && forall k :: j <= k < |s| ==> IsSpace(s[k])
  {
    if s != "" && IsSpace(s[|s| - 1]) {
      j := RightMeans(s[..|s| - 1]);
    } else {
      j := |s|;
    }
  }

  // ---- split and join

  function Split(s: string, c: char): (parts: seq<string>)
    ensures parts != []
  {
    if s == "" then [""]
    else if s[0] == c then [""] + Split(s[1..], c)
    else
      var rest := Split(s[1..], c);
      [[s[0]] + rest[0]] + rest[1..]
  }

  function Join(parts: seq<string>, separator: string): string {
    if parts == [] then ""
    else if |parts| == 1 then parts[0]
    else parts[0] + separator + Join(parts[1..], separator)
  }

  lemma {:induction false} SplitWithout(s: string, c: char)
    requires c !in s
    ensures Split(s, c) == [s]
  {
    if s == "" {
    } else {
      SplitWithout(s[1..], c);
      assert [s[0]] + s[1..] == s;
    }
  }

  lemma {:induction false} SplitAt(a: string, c: char, b: string)
    requires c !in a
    ensures Split(a + [c] + b, c) == [a] + Split(b, c)
  {
    var s := a + [c] + b;
    if a == "" {
      assert s[1..] == b;
    } else {
      SplitAt(a[1..], c, b);
      assert s[1..] == a[1..] + [c] + b;
      assert [a[0]] + a[1..] == a;
    }
  }

  lemma {:induction false} SplitPartsFree(s: string, c: char)
    ensures forall i :: 0 <= i < |Split(s, c)| ==> c !in Split(s, c)[i]
  {
    if s == "" {
    } else {
      SplitPartsFree(s[1..], c);
    }
  }

  /** Splitting at a separator character undoes joining with it. */
  lemma {:induction false} SplitJoin(parts: seq<string>, c: char)
    requires parts != [] && forall i :: 0 <= i < |parts| ==> c !in parts[i]
    ensures Split(Join(parts, [c]), c) == parts
  {
    if |parts| == 1 {
      SplitWithout(parts[0], c);
    } else {
      var rest := Join(parts[1..], [c]);
      SplitJoin(parts[1..], c);
      assert Join(parts, [c]) == parts[0] + [c] + rest;
      SplitAt(parts[0], c, rest);
      assert [parts[0]] + parts[1..] == parts;
    }
  }

  /** Joining with the separator character undoes splitting at it. */
  lemma {:induction false} JoinSplit(s: string, c: char)
    ensures Join(Split(s, c), [c]) == s
  {
    if s == "" {
    } else {
      var rest := Split(s[1..], c);
      JoinSplit(s[1..], c);
      if s[0] == c {
        assert ([""] + rest)[1..] == rest;
        assert Join([""] + rest, [c]) == "" + [c] + s[1..];
      } else {
        FirstPartGrows(s[0], rest, c);
        assert [s[0]] + s[1..] == s;
      }
    }
  }

  lemma FirstPartGrows(x: char, parts: seq<string>, c: char)
    requires parts != []
    ensures Join([[x] + parts[0]] + parts[1..], [c]) == [x] + Join(parts, [c])
  {
    var grown := [[x] + parts[0]] + parts[1..];
    assert grown[1..] == parts[1..];
    if |parts| > 1 {
      assert ([x] + parts[0]) + [c] + Join(parts[1..], [c]) == [x] + (parts[0] + [c] + Join(parts[1..], [c]));
    }
  }

  // ---- the first occurrence of a character

  function Before(s: string, c: char): string {
    if s == "" || s[0] == c then "" else [s[0]] + Before(s[1..], c)
  }

  /** What split(c, 1) returns when c occurs. */
  function After(s: string, c: char): string {
    if s == "" then "" else if s[0] == c then s[1..] else After(s[1..], c)
  }

  lemma {:induction false} BeforeAfterOf(a: string, c: char, b: string)
    requires c !in a
    ensures Before(a + [c] + b, c) == a && After(a + [c] + b, c) == b
  {
    var s := a + [c] + b;
    if a == "" {
      assert s[1..] == b;
    } else {
      BeforeAfterOf(a[1..], c, b);
      assert s[1..] == a[1..] + [c] + b;
    }
  }

  lemma {:induction false} BeforeWithout(s: string, c: char)
    requires c !in s
    ensures Before(s, c) == s
  {
    if s == "" {
    } else {
      BeforeWithout(s[1..], c);
    }
  }

  // ---- lines

  /** splitlines() with newline as the only terminator: a final newline does not start another line. */
  function Lines(s: string): seq<string> {
    var parts := Split(s, '\n');
    if parts[|parts| - 1] == "" then parts[..|parts| - 1] else parts
  }

  /** Every line followed by its terminator. */
  function Terminated(lines: seq<string>): string {
    if lines == [] then "" else lines[0] + "\n" + Terminated(lines[1..])
  }

  lemma SplitLine(line: string, rest: string)
    requires '\n' !in line
    ensures Split(line + "\n" + rest, '\n') == [line] + Split(rest, '\n')
  {
    SplitAt(line, '\n', rest);
    assert line + "\n" + rest == line + ['\n'] + rest;
  }

  lemma {:induction false} SplitTerminated(lines: seq<string>, rest: string)
    requires forall i :: 0 <= i < |lines| ==> '\n' !in lines[i]
    ensures Split(Terminated(lines) + rest, '\n') == lines + Split(rest, '\n')
  {
    if lines == [] {
      assert Terminated(lines) + rest == rest;
      assert lines + Split(rest, '\n') == Split(rest, '\n');
    } else {
      SplitTerminated(lines[1..], rest);
      SplitLine(lines[0], Terminated(lines[1..]) + rest);
      RegroupLine(lines[0], Terminated(lines[1..]), rest);
      ConsLines(lines, Split(rest, '\n'));
    }
  }

  lemma RegroupLine(line: string, tail: string, rest: string)
    ensures (line + "\n" + tail) + rest == line + "\n" + (tail + rest)
  {
  }

  lemma ConsLines(lines: seq<string>, rest: seq<string>)
    requires lines != []
    ensures [lines[0]] + (lines[1..] + rest) == lines + rest
  {
  }

  lemma LinesTerminated(lines: seq<string>)
    requires forall i :: 0 <= i < |lines| ==> '\n' !in lines[i]
    ensures Lines(Terminated(lines)) == lines
  {
    SplitTerminated(lines, "");
    assert Terminated(lines) + "" == Terminated(lines);
    assert (lines + [""])[..|lines|] == lines;
  }

  lemma LinesHaveNoNewline(s: string)
    ensures forall i :: 0 <= i < |Lines(s)| ==> '\n' !in Lines(s)[i]
  {
    SplitPartsFree(s, '\n');
  }

  /** A joined text with a final newline is its lines, each terminated. */
  lemma {:induction false} JoinIsTerminated(lines: seq<string>)
    requires lines != []
    ensures Join(lines, "\n") + "\n" == Terminated(lines)
  {
    if |lines| == 1 {
      assert Terminated(lines[1..]) == "";
      assert Terminated(lines) == lines[0] + "\n" + "";
    } else {
      JoinIsTerminated(lines[1..]);
      assert Join(lines, "\n") + "\n" == lines[0] + "\n" + (Join(lines[1..], "\n") + "\n");
    }
  }

  lemma {:induction false} TerminatedConcat(a: seq<string>, b: seq<string>)
    ensures Terminated(a + b) == Terminated(a) + Terminated(b)
  {
    if a == [] {
      assert a + b == b;
    } else {
      TerminatedConcat(a[1..], b);
      assert (a + b)[1..] == a[1..] + b;
      assert a[0] + "\n" + (Terminated(a[1..]) + Terminated(b)) == (a[0] + "\n" + Terminated(a[1..])) + Terminated(b);
    }
  }

  lemma {:induction false} SplitEndsEmpty(s: string)
    ensures var parts := Split(s, '\n');
            parts[|parts| - 1] == "" <==> s == "" || s[|s| - 1] == '\n'
  {
    if s == "" {
    } else {
      SplitEndsEmpty(s[1..]);
    }
  }

  lemma TerminatedCons(line: string, lines: seq<string>)
    ensures Terminated([line] + lines) == line + "\n" + Terminated(lines)
  {
    assert ([line] + lines)[1..] == lines;
  }

  /** Every part but the last was terminated by a newline. */
  function Rejoined(parts: seq<string>): string
    requires parts != []
  {
    Terminated(parts[..|parts| - 1]) + parts[|parts| - 1]
  }

  lemma RejoinedCons(line: string, rest: seq<string>)
    requires rest != []
    ensures Rejoined([line] + rest) == line + "\n" + Rejoined(rest)
  {
    var n := |rest| - 1;
    assert ([line] + rest)[..n + 1] == [line] + rest[..n];
    TerminatedCons(line, rest[..n]);
  }

  lemma RejoinedHead(c: char, rest: seq<string>)
    requires rest != []
    ensures Rejoined([[c] + rest[0]] + rest[1..]) == [c] + Rejoined(rest)
  {
    var head, tail := [c] + rest[0], rest[1..];
    assert [rest[0]] + tail == rest;
    if tail == [] {
      assert [head] + tail == [head];
      assert Rejoined([head]) == head && Rejoined(rest) == rest[0];
    } else {
      RejoinedCons(head, tail);
      RejoinedCons(rest[0], tail);
      assert head + "\n" + Rejoined(tail) == [c] + (rest[0] + "\n" + Rejoined(tail));
    }
  }

  lemma {:induction false} SplitRejoins(s: string)
    ensures Rejoined(Split(s, '\n')) == s
  {
    if s == "" {
    } else {
      var rest := Split(s[1..], '\n');
      SplitRejoins(s[1..]);
      RejoinedCons("", rest);
      RejoinedHead(s[0], rest);
      assert [s[0]] + s[1..] == s;
    }
  }

  /** Adding the missing final newline makes any text a list of terminated lines. */
  lemma TextIsLines(s: string)
    ensures s + (if s == "" || s[|s| - 1] == '\n' then "" else "\n") == Terminated(Lines(s))
  {
    var parts := Split(s, '\n');
    SplitRejoins(s);
    SplitEndsEmpty(s);
    var init, last := parts[..|parts| - 1], parts[|parts| - 1];
    if last != "" {
      assert Lines(s) == parts == init + [last];
      OneMoreTerminated(init, last);
      var t := Terminated(init);
      assert (t + last) + "\n" == t + (last + "\n");
    } else {
      assert Terminated(init) + "" == Terminated(init) && s + "" == s;
    }
  }

  lemma OneMoreTerminated(init: seq<string>, last: string)
    ensures Terminated(init + [last]) == Terminated(init) + (last + "\n")
  {
    TerminatedConcat(init, [last]);
    TerminatedCons(last, []);
    assert [last] + [] == [last];
    assert last + "\n" + Terminated([]) == last + "\n";
  }

  // ---- lines that contain line breaks

  /** The lines a reader sees: every line break within a line ends one. */
  function Broken(lines: seq<string>): seq<string> {
    if lines == [] then [] else Split(lines[0], '\n') + Broken(lines[1..])
  }

  ghost predicate LineFree(lines: seq<string>) {
    forall i :: 0 <= i < |lines| ==> '\n' !in lines[i]
  }

  lemma BrokenCons(line: string, rest: seq<string>)
    ensures Broken([line] + rest) == Split(line, '\n') + Broken(rest)
  {
    assert ([line] + rest)[1..] == rest;
  }

  lemma Associate<T>(a: seq<T>, b: seq<T>, c: seq<T>)
    ensures a + (b + c) == (a + b) + c
  {
  }

  lemma {:induction false} BrokenConcat(a: seq<string>, b: seq<string>)
    ensures Broken(a + b) == Broken(a) + Broken(b)
  {
    if a == [] {
      assert a + b == b;
      assert [] + Broken(b) == Broken(b);
    } else {
      var first, rest := [a[0]], a[1..];
      assert first + rest == a;
      BrokenConcat(rest, b);
      BrokenCons(a[0], rest);
      BrokenCons(a[0], rest + b);
      Associate(first, rest, b);
      Associate(Split(a[0], '\n'), Broken(rest), Broken(b));
    }
  }

  lemma {:induction false} BrokenUnbroken(lines: seq<string>)
    requires LineFree(lines)
    ensures Broken(lines) == lines
  {
    if lines == [] {
    } else {
      BrokenUnbroken(lines[1..]);
      SplitWithout(lines[0], '\n');
      assert [lines[0]] + lines[1..] == lines;
    }
  }

  lemma SplitIsTerminated(s: string)
    ensures Terminated(Split(s, '\n')) == s + "\n"
  {
    var parts := Split(s, '\n');
    var init, last := parts[..|parts| - 1], parts[|parts| - 1];
    SplitRejoins(s);
    assert parts == init + [last];
    OneMoreTerminated(init, last);
    assert Terminated(init) + (last + "\n") == (Terminated(init) + last) + "\n";
  }

  lemma {:induction false} BrokenTerminated(lines: seq<string>)
    ensures Terminated(Broken(lines)) == Terminated(lines)
    ensures LineFree(Broken(lines))
  {
    if lines == [] {
    } else {
      BrokenTerminated(lines[1..]);
      SplitIsTerminated(lines[0]);
      SplitPartsFree(lines[0], '\n');
      TerminatedConcat(Split(lines[0], '\n'), Broken(lines[1..]));
    }
  }

  /** A text joined from lines is read line by line, whatever line breaks they contain. */
  lemma LinesOfJoined(lines: seq<string>)
    requires lines != []
    ensures Lines(Join(lines, "\n") + "\n") == Broken(lines)
  {
    JoinIsTerminated(lines);
    BrokenTerminated(lines);
    LinesTerminated(Broken(lines));
  }

  lemma {:induction false} SplitAfter(p: string, s: string, c: char)
    requires c !in p
    ensures Split(p + s, c) == [p + Split(s, c)[0]] + Split(s, c)[1..]
  {
    var parts := Split(s, c);
    if p == "" {
      assert p + s == s && p + parts[0] == parts[0];
      assert [parts[0]] + parts[1..] == parts;
    } else {
      SplitAfter(p[1..], s, c);
      assert (p + s)[1..] == p[1..] + s;
      assert [p[0]] + (p[1..] + parts[0]) == p + parts[0];
    }
  }
}
