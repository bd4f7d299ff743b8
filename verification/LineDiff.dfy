/**
 The line diff shown to the user: a table of longest common subsequences over the suffixes of both
 texts, and a walk that reads the script off it.
 */
module LineDiff {

  // ----- Lines -----

  predicate OneLine(s: string) { forall i :: 0 <= i < |s| ==> s[i] != '\n' }

  function SplitAll(text: string): (r: seq<string>)
    ensures r != []
  {
    if text == "" then [""]
    else
      var rest := SplitAll(text[1..]);
      if text[0] == '\n' then [""] + rest else [[text[0]] + rest[0]] + rest[1..]
  }

  function SplitLines(text: string): seq<string> {
    if text == "" then []
    else
      var lines := SplitAll(text);
      if lines[|lines| - 1] == "" then lines[..|lines| - 1] else lines
  }

  /** Every line with its newline. */
  function Unlines(lines: seq<string>): string {
    if lines == [] then "" else lines[0] + "\n" + Unlines(lines[1..])
  }

  predicate Terminated(text: string) { text == "" || text[|text| - 1] == '\n' }

  lemma {:induction false} UnlinesSnoc(lines: seq<string>, last: string)
    ensures Unlines(lines + [last]) == Unlines(lines) + last + "\n"
  {
    if lines == [] {
      assert lines + [last] == [last];
      assert [last][1..] == [];
    } else {
      assert (lines + [last])[1..] == lines[1..] + [last];
      UnlinesSnoc(lines[1..], last);
    }
  }

  lemma FirstLine(line: string, lines: seq<string>)
    ensures Unlines([line] + lines) == line + "\n" + Unlines(lines)
  {
    assert ([line] + lines)[1..] == lines;
  }

  lemma LongerLine(c: char, line: string, lines: seq<string>)
    ensures Unlines([[c] + line] + lines) == [c] + Unlines([line] + lines)
  {
    hide Unlines;
    FirstLine(line, lines);
    FirstLine([c] + line, lines);
    assert [c] + (line + "\n" + Unlines(lines)) == [c] + line + "\n" + Unlines(lines);
  }

  lemma {:induction false} SplitAllSpells(text: string)
    ensures Unlines(SplitAll(text)) == text + "\n"
  {
    hide Unlines;
    var lines := SplitAll(text);
    if text == "" {
      OneEmptyLine();
    } else {
      var rest := SplitAll(text[1..]);
      SplitAllSpells(text[1..]);
      assert [text[0]] + (text[1..] + "\n") == text + "\n";
      if text[0] == '\n' {
        FirstLine("", rest);
        assert "" + "\n" == [text[0]];
      } else {
        LongerLine(text[0], rest[0], rest[1..]);
        assert rest == [rest[0]] + rest[1..];
      }
    }
  }

  lemma OneEmptyLine()
    ensures Unlines([""]) == "\n"
  {
    assert [""][1..] == [];
  }

  lemma {:induction false} SplitAllLines(text: string)
    ensures forall i :: 0 <= i < |SplitAll(text)| ==> OneLine(SplitAll(text)[i])
    ensures SplitAll(text)[|SplitAll(text)| - 1] == "" <==> Terminated(text)
  {
    if text != "" {
      SplitAllLines(text[1..]);
    }
  }

  /** The lines of a text spell it, up to the newline a last line may lack. */
  lemma LinesSpellText(text: string)
    ensures Unlines(SplitLines(text)) == if Terminated(text) then text else text + "\n"
    ensures forall i :: 0 <= i < |SplitLines(text)| ==> OneLine(SplitLines(text)[i])
  {
    if text != "" {
      var lines := SplitAll(text);
      SplitAllSpells(text);
      SplitAllLines(text);
      if lines[|lines| - 1] == "" {
        var front := lines[..|lines| - 1];
        assert lines == front + [""];
        UnlinesSnoc(front, "");
        assert Unlines(lines)[..|Unlines(lines)| - 1] == Unlines(front);
        assert (text + "\n")[..|text|] == text;
      }
    }
  }

  // ----- Longest common subsequence -----

  function LcsLen(a: seq<string>, b: seq<string>): nat
    decreases |a| + |b|
  {
    if a == [] || b == [] then 0
    else if a[0] == b[0] then LcsLen(a[1..], b[1..]) + 1
    else if LcsLen(a[1..], b) >= LcsLen(a, b[1..]) then LcsLen(a[1..], b)
    else LcsLen(a, b[1..])
  }

  /** `s` can be had from `a` by leaving lines out. */
  predicate Subsequence(s: seq<string>, a: seq<string>) {
    s == [] || (a != [] && if s[0] == a[0] then Subsequence(s[1..], a[1..]) else Subsequence(s, a[1..]))
  }

  lemma {:induction false} DropFirst(s: seq<string>, a: seq<string>)
    requires s != [] && Subsequence(s, a)
    ensures Subsequence(s[1..], a)
    ensures a != [] ==> Subsequence(s[1..], a[1..])
    decreases |a|
  {
    if s[0] == a[0] {
      if s[1..] != [] {
        DropFirst(s[1..], a[1..]);
      }
    } else {
      DropFirst(s, a[1..]);
      if s[1..] != [] && s[1..][0] == a[0] {
        DropFirst(s[1..], a[1..]);
      }
    }
  }

  /** No common subsequence is longer. */
  lemma {:induction false} LcsIsLongest(s: seq<string>, a: seq<string>, b: seq<string>)
    requires Subsequence(s, a) && Subsequence(s, b)
    ensures |s| <= LcsLen(a, b)
    decreases |a| + |b|
  {
    if s != [] {
      if a[0] == b[0] {
        if s[0] == a[0] {
          LcsIsLongest(s[1..], a[1..], b[1..]);
        } else {
          LcsIsLongest(s, a[1..], b[1..]);
        }
      } else if s[0] != a[0] {
        LcsIsLongest(s, a[1..], b);
      } else {
        LcsIsLongest(s, a, b[1..]);
      }
    }
  }

  // ----- Scripts -----

  /** The lines a script keeps under one of `marks`, without their mark. */
  function Marked(script: seq<string>, marks: set<char>): seq<string> {
    if script == [] then []
    else
      var rest := Marked(script[1..], marks);
      if script[0] != "" && script[0][0] in marks then [script[0][1..]] + rest else rest
  }

  function Before(script: seq<string>): seq<string> { Marked(script, {' ', '-'}) }

  function After(script: seq<string>): seq<string> { Marked(script, {' ', '+'}) }

  function Kept(script: seq<string>): seq<string> { Marked(script, {' '}) }

  predicate IsScript(script: seq<string>) {
    forall i :: 0 <= i < |script| ==> script[i] != "" && script[i][0] in {' ', '-', '+'}
  }

  ghost predicate Turns(script: seq<string>, a: seq<string>, b: seq<string>) {
    IsScript(script) && Before(script) == a && After(script) == b
  }

  /** The script the walk reads off the table: on a tie the old line goes first. */
  function Script(a: seq<string>, b: seq<string>): seq<string>
    decreases |a| + |b|
  {
    if a == [] && b == [] then []
    else if b == [] then ["-" + a[0]] + Script(a[1..], b)
    else if a == [] then ["+" + b[0]] + Script(a, b[1..])
    else if a[0] == b[0] then [" " + a[0]] + Script(a[1..], b[1..])
    else if LcsLen(a[1..], b) >= LcsLen(a, b[1..]) then ["-" + a[0]] + Script(a[1..], b)
    else ["+" + b[0]] + Script(a, b[1..])
  }

  lemma MarkedStep(mark: char, line: string, rest: seq<string>, marks: set<char>)
    ensures Marked([[mark] + line] + rest, marks) == if mark in marks then [line] + Marked(rest, marks) else Marked(rest, marks)
  {
    var script := [[mark] + line] + rest;
    assert script[1..] == rest && script[0][1..] == line;
  }

  lemma ScriptStep(mark: char, line: string, rest: seq<string>)
    requires mark in {' ', '-', '+'} && IsScript(rest)
    ensures var script := [[mark] + line] + rest;
            && IsScript(script)
            && Before(script) == (if mark == '+' then Before(rest) else [line] + Before(rest))
            && After(script) == (if mark == '-' then After(rest) else [line] + After(rest))
            && Kept(script) == (if mark == ' ' then [line] + Kept(rest) else Kept(rest))
  {
    MarkedStep(mark, line, rest, {' ', '-'});
    MarkedStep(mark, line, rest, {' ', '+'});
    MarkedStep(mark, line, rest, {' '});
  }

  /** The script turns the old lines into the new ones and keeps as many as can be kept. */
  lemma {:induction false} ScriptIsRight(a: seq<string>, b: seq<string>)
    ensures Turns(Script(a, b), a, b)
    ensures |Kept(Script(a, b))| == LcsLen(a, b)
    decreases |a| + |b|
  {
    hide Marked, IsScript;
    if a == [] && b == [] {
      EmptyScript();
    } else if b == [] || (a != [] && a[0] != b[0] && LcsLen(a[1..], b) >= LcsLen(a, b[1..])) {
      ScriptIsRight(a[1..], b);
      ScriptStep('-', a[0], Script(a[1..], b));
    } else if a == [] || a[0] != b[0] {
      ScriptIsRight(a, b[1..]);
      ScriptStep('+', b[0], Script(a, b[1..]));
    } else {
      ScriptIsRight(a[1..], b[1..]);
      ScriptStep(' ', a[0], Script(a[1..], b[1..]));
    }
  }

  lemma EmptyScript()
    ensures Turns([], [], []) && Kept([]) == []
  {
  }

  // What a script keeps is a common subsequence, and its length follows from that of the texts.
  lemma {:induction false} KeptIsCommon(script: seq<string>)
    requires IsScript(script)
    ensures Subsequence(Kept(script), Before(script)) && Subsequence(Kept(script), After(script))
    ensures |script| == |Before(script)| + |After(script)| - |Kept(script)|
  {
    if script != [] {
      var mark, line, rest := script[0][0], script[0][1..], script[1..];
      KeptIsCommon(rest);
      assert script[0] == [mark] + line && script == [[mark] + line] + rest;
      ScriptStep(mark, line, rest);
      if mark == '-' { Widen(Kept(rest), line, Before(rest)); }
      if mark == '+' { Widen(Kept(rest), line, After(rest)); }
    }
  }

  lemma Widen(s: seq<string>, line: string, a: seq<string>)
    requires Subsequence(s, a)
    ensures Subsequence(s, [line] + a)
  {
    assert ([line] + a)[1..] == a;
    if s != [] && s[0] == line { DropFirst(s, a); }
  }

  /** No script that turns the old lines into the new ones is shorter. */
  lemma ScriptIsShortest(a: seq<string>, b: seq<string>, other: seq<string>)
    requires Turns(other, a, b)
    ensures |Script(a, b)| <= |other|
  {
    ScriptIsRight(a, b);
    KeptIsCommon(Script(a, b));
    KeptIsCommon(other);
    LcsIsLongest(Kept(other), a, b);
  }

  // What is left of a script after its first line.
  lemma TurnsStep(script: seq<string>, a: seq<string>, b: seq<string>)
    requires Turns(script, a, b) && script != []
    ensures script[0] != ""
    ensures var mark := script[0][0];
            && mark in {' ', '-', '+'}
            && (mark != '+' ==> a != [] && script[0][1..] == a[0])
            && (mark != '-' ==> b != [] && script[0][1..] == b[0])
            && Turns(script[1..], if mark == '+' then a else a[1..], if mark == '-' then b else b[1..])
  {
    hide Marked;
    var mark, line, rest := script[0][0], script[0][1..], script[1..];
    assert script[0] == [mark] + line && script == [[mark] + line] + rest;
    ScriptStep(mark, line, rest);
    assert mark != '+' ==> a == [line] + Before(rest);
    assert mark != '-' ==> b == [line] + After(rest);
  }

  lemma ScriptLength(a: seq<string>, b: seq<string>)
    ensures |Script(a, b)| == |a| + |b| - LcsLen(a, b)
  {
    ScriptIsRight(a, b);
    KeptIsCommon(Script(a, b));
  }

  function Rank(line: string): nat { if line != "" && line[0] == ' ' then 0 else if line != "" && line[0] == '-' then 1 else 2 }

  /** Where two scripts part, the first keeps a line or removes one that the second does not. */
  predicate NoLater(s: seq<string>, t: seq<string>) {
    s == [] || t == [] || Rank(s[0]) < Rank(t[0]) || (s[0] == t[0] && NoLater(s[1..], t[1..]))
  }

  // The walk's first line, when another shortest script starts with one of a rank not higher.
  lemma FirstMarkIs(a: seq<string>, b: seq<string>, other: seq<string>)
    requires Turns(other, a, b) && |other| == |Script(a, b)| && other != [] && Rank(Script(a, b)[0]) >= Rank(other[0])
    ensures var mark := other[0][0];
            Script(a, b) == [other[0]] + Script(if mark == '+' then a else a[1..], if mark == '-' then b else b[1..])
  {
    TurnsStep(other, a, b);
    hide Turns, Subsequence;
    var mark := other[0][0];
    assert other[0] == [mark] + other[0][1..];
    if mark == '-' && b != [] && a[0] != b[0] {
      ScriptIsShortest(a[1..], b, other[1..]);
      ScriptLength(a[1..], b);
      ScriptLength(a, b[1..]);
    }
  }

  /** Among the shortest scripts it is the first: it keeps a line as soon as one of them can, and removes before it adds. */
  lemma {:induction false} ScriptIsFirst(a: seq<string>, b: seq<string>, other: seq<string>)
    requires Turns(other, a, b) && |other| == |Script(a, b)|
    ensures NoLater(Script(a, b), other)
    decreases |a| + |b|
  {
    hide Turns, LcsLen, Subsequence;
    if other != [] {
      TurnsStep(other, a, b);
      var mark := other[0][0];
      if Rank(Script(a, b)[0]) >= Rank(other[0]) {
        FirstMarkIs(a, b, other);
        ScriptIsFirst(if mark == '+' then a else a[1..], if mark == '-' then b else b[1..], other[1..]);
      }
    }
  }

  // ----- The diff -----

  // The length the table holds for the suffixes from `i` and `j` on.
  ghost function Common(a: seq<string>, b: seq<string>, i: int, j: int): nat
    requires 0 <= i <= |a| && 0 <= j <= |b|
  {
    LcsLen(a[i..], b[j..])
  }

  lemma LcsAt(a: seq<string>, b: seq<string>, i: nat, j: nat)
    requires i <= |a| && j <= |b|
    ensures Common(a, b, i, j) ==
            if i == |a| || j == |b| then 0
            else if a[i] == b[j] then Common(a, b, i + 1, j + 1) + 1
            else if Common(a, b, i + 1, j) >= Common(a, b, i, j + 1) then Common(a, b, i + 1, j)
            else Common(a, b, i, j + 1)
  {
    if i < |a| { assert a[i..][1..] == a[i + 1..]; }
    if j < |b| { assert b[j..][1..] == b[j + 1..]; }
  }

  lemma ScriptAt(a: seq<string>, b: seq<string>, i: nat, j: nat)
    requires i <= |a| && j <= |b|
    ensures Script(a[i..], b[j..]) ==
            if i == |a| && j == |b| then []
            else if j == |b| then ["-" + a[i]] + Script(a[i + 1..], b[j..])
            else if i == |a| then ["+" + b[j]] + Script(a[i..], b[j + 1..])
            else if a[i] == b[j] then [" " + a[i]] + Script(a[i + 1..], b[j + 1..])
            else if Common(a, b, i + 1, j) >= Common(a, b, i, j + 1) then ["-" + a[i]] + Script(a[i + 1..], b[j..])
            else ["+" + b[j]] + Script(a[i..], b[j + 1..])
  {
    hide LcsLen;
    if i < |a| { assert a[i..][1..] == a[i + 1..]; }
    if j < |b| { assert b[j..][1..] == b[j + 1..]; }
  }

  lemma Append(done: seq<string>, line: string, rest: seq<string>, all: seq<string>)
    requires done + ([line] + rest) == all
    ensures (done + [line]) + rest == all
  {
    assert (done + [line]) + rest == done + ([line] + rest);
  }

  /** The table of common lengths, filled from the last suffixes back. */
  method Table(a: seq<string>, b: seq<string>) returns (dp: array2<nat>)
    ensures fresh(dp) && dp.Length0 == |a| + 1 && dp.Length1 == |b| + 1
    ensures forall i, j :: 0 <= i <= |a| && 0 <= j <= |b| ==> dp[i, j] == Common(a, b, i, j)
  {
    hide LcsLen, Common;
    dp := new nat[|a| + 1, |b| + 1]((i, j) => 0);
    forall k | 0 <= k <= |b| ensures dp[|a|, k] == Common(a, b, |a|, k) { LcsAt(a, b, |a|, k); }
    var i := |a| - 1;
    while i >= 0
      invariant -1 <= i < |a|
      invariant forall r, k :: i < r <= |a| && 0 <= k <= |b| ==> dp[r, k] == Common(a, b, r, k)
      invariant forall r :: 0 <= r <= i ==> dp[r, |b|] == 0
    {
      var j := |b| - 1;
      LcsAt(a, b, i, |b|);
      while j >= 0
        invariant -1 <= j < |b|
        invariant forall r, k :: i < r <= |a| && 0 <= k <= |b| ==> dp[r, k] == Common(a, b, r, k)
        invariant forall k :: j < k <= |b| ==> dp[i, k] == Common(a, b, i, k)
        invariant forall r :: 0 <= r < i ==> dp[r, |b|] == 0
      {
        LcsAt(a, b, i, j);
        if a[i] == b[j] {
          dp[i, j] := dp[i + 1, j + 1] + 1;
        } else if dp[i + 1, j] >= dp[i, j + 1] {
          dp[i, j] := dp[i + 1, j];
        } else {
          dp[i, j] := dp[i, j + 1];
        }
        j := j - 1;
      }
      i := i - 1;
    }
  }

  /** Nothing for equal texts, and otherwise the script from the lines of one to those of the other. */
  method DiffLines(before: string, after: string) returns (result: seq<string>)
    ensures before == after ==> result == []
    ensures before != after ==> result == Script(SplitLines(before), SplitLines(after))
  {
    hide SplitLines, Script, LcsLen, Common;
    if before == after {
      return [];
    }
    var a, b := SplitLines(before), SplitLines(after);
    var dp := Table(a, b);
    result := [];
    var i, j := 0, 0;
    assert a[0..] == a && b[0..] == b;
    ghost var all := Script(a, b);
    while i < |a| && j < |b|
      invariant forall r, k :: 0 <= r <= |a| && 0 <= k <= |b| ==> dp[r, k] == Common(a, b, r, k)
      invariant i <= |a| && j <= |b| && result + Script(a[i..], b[j..]) == all
    {
      ScriptAt(a, b, i, j);
      if a[i] == b[j] {
        Append(result, " " + a[i], Script(a[i + 1..], b[j + 1..]), all);
        result := result + [" " + a[i]];
        i, j := i + 1, j + 1;
      } else if dp[i + 1, j] >= dp[i, j + 1] {
        Append(result, "-" + a[i], Script(a[i + 1..], b[j..]), all);
        result := result + ["-" + a[i]];
        i := i + 1;
      } else {
        Append(result, "+" + b[j], Script(a[i..], b[j + 1..]), all);
        result := result + ["+" + b[j]];
        j := j + 1;
      }
    }
    while i < |a|
      invariant i <= |a| && j <= |b| && (i == |a| || j == |b|) && result + Script(a[i..], b[j..]) == all
    {
      ScriptAt(a, b, i, j);
      Append(result, "-" + a[i], Script(a[i + 1..], b[j..]), all);
      result := result + ["-" + a[i]];
      i := i + 1;
    }
    while j < |b|
      invariant i == |a| && j <= |b| && result + Script(a[i..], b[j..]) == all
    {
      ScriptAt(a, b, i, j);
      Append(result, "+" + b[j], Script(a[i..], b[j + 1..]), all);
      result := result + ["+" + b[j]];
      j := j + 1;
    }
    ScriptAt(a, b, i, j);
    assert result + [] == result;
  }

  /** A diff without changed lines means the texts agree up to a newline at the end. */
  lemma QuietDiff(before: string, after: string)
    ensures |Script(SplitLines(before), SplitLines(after))| == LcsLen(SplitLines(before), SplitLines(after))
       <==> Whole(before) == Whole(after)
  {
    var a, b := SplitLines(before), SplitLines(after);
    ScriptIsRight(a, b);
    KeptIsCommon(Script(a, b));
    LinesSpellText(before);
    LinesSpellText(after);
    LcsBounds(a, b);
    if Whole(before) == Whole(after) {
      SameSpelling(a, b);
      LcsOfSame(a);
    }
  }

  function Whole(text: string): string { if Terminated(text) then text else text + "\n" }

  lemma {:induction false} LcsBounds(a: seq<string>, b: seq<string>)
    ensures LcsLen(a, b) <= |a| && LcsLen(a, b) <= |b|
    ensures LcsLen(a, b) == |a| == |b| ==> a == b
    decreases |a| + |b|
  {
    if a != [] && b != [] {
      if a[0] == b[0] {
        LcsBounds(a[1..], b[1..]);
        assert a == [a[0]] + a[1..] && b == [b[0]] + b[1..];
      } else {
        LcsBounds(a[1..], b);
        LcsBounds(a, b[1..]);
      }
    }
  }

  lemma {:induction false} LcsOfSame(a: seq<string>)
    ensures LcsLen(a, a) == |a|
  {
    if a != [] { LcsOfSame(a[1..]); }
  }

  lemma {:induction false} SameSpelling(a: seq<string>, b: seq<string>)
    requires forall i :: 0 <= i < |a| ==> OneLine(a[i])
    requires forall i :: 0 <= i < |b| ==> OneLine(b[i])
    requires Unlines(a) == Unlines(b)
    ensures a == b
  {
    if a != [] && b != [] {
      SameHead(a[0], Unlines(a[1..]), b[0], Unlines(b[1..]));
      SameSpelling(a[1..], b[1..]);
      assert a == [a[0]] + a[1..] && b == [b[0]] + b[1..];
    }
  }

  lemma SameHead(x: string, s: string, y: string, t: string)
    requires OneLine(x) && OneLine(y) && x + "\n" + s == y + "\n" + t
    ensures x == y && s == t
  {
    var u := x + "\n" + s;
    assert u[|x|] == '\n' && u[|y|] == '\n';
    assert forall i :: 0 <= i < |x| ==> u[i] == x[i];
    assert forall i :: 0 <= i < |y| ==> u[i] == y[i];
    assert |x| == |y|;
    assert x == u[..|x|] && y == u[..|y|] && s == u[|x| + 1..] && t == u[|y| + 1..];
  }
}
