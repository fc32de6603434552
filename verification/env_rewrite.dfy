/**
 * The line rewrite the development launcher applies to the frontend's .env
 * file: every line assigning VITE_API_URL is replaced by the wanted
 * assignment, and the assignment is appended when no line held one. Reading
 * and writing the file are not modelled; the lines are given and returned.
 */
module EnvRewrite {
  import opened Text

  const VarName := "VITE_API_URL"

  /** The line written for `url`, with its newline. */
  function Assignment(url: string): string { VarName + "=" + url + "\n" }

  /** A line is replaced when, stripped, it starts with "VITE_API_URL=". */
  predicate IsTarget(line: string) { StartsWith(PyStrip(line), VarName + "=") }

  predicate AnyMatch(lines: seq<string>, isTarget: string -> bool) {
    exists i :: 0 <= i < |lines| && isTarget(lines[i])
  }

  /** Every line satisfying `isTarget` replaced by `repl`, the others kept. */
  function ReplaceWhere(lines: seq<string>, isTarget: string -> bool, repl: string): (r: seq<string>)
    ensures |r| == |lines|
    ensures forall i :: 0 <= i < |lines| ==> r[i] == (if isTarget(lines[i]) then repl else lines[i])
  {
    if lines == [] then []
    else [if isTarget(lines[0]) then repl else lines[0]] + ReplaceWhere(lines[1..], isTarget, repl)
  }

  /** Replace the matching lines, and append `repl` when none matched. */
  function ReplaceOrAppend(lines: seq<string>, isTarget: string -> bool, repl: string): (r: seq<string>)
    ensures |r| == |lines| + (if AnyMatch(lines, isTarget) then 0 else 1)
    ensures forall i :: 0 <= i < |lines| ==> r[i] == (if isTarget(lines[i]) then repl else lines[i])
    ensures !AnyMatch(lines, isTarget) ==> r[|lines|] == repl
  {
    ReplaceWhere(lines, isTarget, repl) + (if AnyMatch(lines, isTarget) then [] else [repl])
  }

  /** The new line list of update_env_file. */
  function Rewrite(lines: seq<string>, url: string): seq<string> {
    ReplaceOrAppend(lines, IsTarget, Assignment(url))
  }

  /** The loop of update_env_file: build the new list and remember whether a line matched. */
  method RewriteEnvLines(lines: seq<string>, url: string) returns (newLines: seq<string>)
    ensures newLines == Rewrite(lines, url)
  {
    newLines := RewriteLoop(lines, IsTarget, Assignment(url));
  }

  method RewriteLoop(lines: seq<string>, isTarget: string -> bool, repl: string) returns (newLines: seq<string>)
    ensures newLines == ReplaceOrAppend(lines, isTarget, repl)
  {
    newLines := [];
    var found := false;
    for i := 0 to |lines|
      invariant newLines == ReplaceWhere(lines[..i], isTarget, repl)
      invariant found == AnyMatch(lines[..i], isTarget)
    {
      var line := lines[i];
      ReplaceStep(lines, i, isTarget, repl);
      MatchStep(lines, i, isTarget);
      if isTarget(line) {
        newLines := newLines + [repl];
        found := true;
      } else {
        newLines := newLines + [line];
      }
    }
    assert lines[..|lines|] == lines;
    if !found {
      newLines := newLines + [repl];
    }
  }

  /** One more line of input adds its (possibly replaced) copy at the end. */
  lemma ReplaceStep(lines: seq<string>, i: nat, isTarget: string -> bool, repl: string)
    requires i < |lines|
    ensures ReplaceWhere(lines[..i + 1], isTarget, repl)
      == ReplaceWhere(lines[..i], isTarget, repl) + [if isTarget(lines[i]) then repl else lines[i]]
  {
    var pre := lines[..i];
    var a := ReplaceWhere(lines[..i + 1], isTarget, repl);
    var c := ReplaceWhere(pre, isTarget, repl);
    var b := c + [if isTarget(lines[i]) then repl else lines[i]];
    assert |a| == i + 1 == |b|;
    forall k | 0 <= k < i + 1 ensures a[k] == b[k] {
      assert lines[..i + 1][k] == lines[k];
      if k < i {
        assert pre[k] == lines[k];
        assert b[k] == c[k];
      }
    }
    assert a == b;
  }

  /** One more line of input matches when it or an earlier line does. */
  lemma MatchStep(lines: seq<string>, i: nat, isTarget: string -> bool)
    requires i < |lines|
    ensures AnyMatch(lines[..i + 1], isTarget) == (AnyMatch(lines[..i], isTarget) || isTarget(lines[i]))
  {
    var a, b := lines[..i + 1], lines[..i];
    assert a[i] == lines[i];
    assert forall k :: 0 <= k < i ==> a[k] == b[k];
  }

  /** The written assignment is itself a line the rewrite recognises. */
  lemma AssignmentIsTarget(url: string)
    ensures IsTarget(Assignment(url))
  {
    var s := Assignment(url);
    var p := VarName + "=";
    assert s == p + (url + "\n");
    assert s[..|p|] == p;
    assert p[0] == 'V' && p[|p| - 1] == '=';
    assert !IsPySpace('V') && !IsPySpace('=');
    TrimKeepsPrefix(s, p, IsPySpace);
  }

  /** A missing file is an empty line list, and gives the single assignment line. */
  lemma MissingFile(url: string)
    ensures Rewrite([], url) == [Assignment(url)]
  {
  }

  /** Once `repl` is itself a target, the result holds a target, so a second pass appends nothing. */
  lemma ResultHasMatch(lines: seq<string>, isTarget: string -> bool, repl: string)
    requires isTarget(repl)
    ensures AnyMatch(ReplaceOrAppend(lines, isTarget, repl), isTarget)
  {
    var r := ReplaceOrAppend(lines, isTarget, repl);
    if AnyMatch(lines, isTarget) {
      var i :| 0 <= i < |lines| && isTarget(lines[i]);
      assert isTarget(r[i]);
    } else {
      assert isTarget(r[|lines|]);
    }
  }

  /** Replacing with a target twice gives the result of replacing once. */
  lemma ReplaceOrAppendIdempotent(lines: seq<string>, isTarget: string -> bool, repl: string)
    requires isTarget(repl)
    ensures ReplaceOrAppend(ReplaceOrAppend(lines, isTarget, repl), isTarget, repl) == ReplaceOrAppend(lines, isTarget, repl)
  {
    var r := ReplaceOrAppend(lines, isTarget, repl);
    ResultHasMatch(lines, isTarget, repl);
    var rr := ReplaceOrAppend(r, isTarget, repl);
    forall i | 0 <= i < |r| ensures rr[i] == r[i] {
      if i < |lines| && !isTarget(lines[i]) {
        assert r[i] == lines[i];
      }
    }
  }

  /** Rewriting twice with the same url gives the lines of rewriting once. */
  lemma Idempotent(lines: seq<string>, url: string)
    ensures Rewrite(Rewrite(lines, url), url) == Rewrite(lines, url)
  {
    AssignmentIsTarget(url);
    ReplaceOrAppendIdempotent(lines, IsTarget, Assignment(url));
  }

  /** The rewrite's length law and line-by-line content, in the file's own terms. */
  lemma RewriteShape(lines: seq<string>, url: string)
    ensures var r := Rewrite(lines, url);
      && |r| == |lines| + (if AnyMatch(lines, IsTarget) then 0 else 1)
      && (forall i :: 0 <= i < |lines| && IsTarget(lines[i]) ==> r[i] == Assignment(url))
      && (forall i :: 0 <= i < |lines| && !IsTarget(lines[i]) ==> r[i] == lines[i])
      && (!AnyMatch(lines, IsTarget) ==> r[|lines|] == Assignment(url))
  {
  }

  /** The written file is the lines concatenated: writelines adds no separators. */
  function Content(lines: seq<string>): string {
    if lines == [] then [] else lines[0] + Content(lines[1..])
  }

  lemma {:induction false} ContentAppend(a: seq<string>, b: seq<string>)
    ensures Content(a + b) == Content(a) + Content(b)
  {
    if a == [] {
      assert a + b == b;
    } else {
      assert (a + b)[1..] == a[1..] + b;
      ContentAppend(a[1..], b);
    }
  }

  /**
   * When no line matched, the assignment is written straight after the old
   * text: if that text does not end in a newline, the assignment shares the
   * old last line and does not start a line of its own.
   */
  lemma AppendedAfterContent(lines: seq<string>, url: string)
    requires !AnyMatch(lines, IsTarget)
    ensures Content(Rewrite(lines, url)) == Content(lines) + Assignment(url)
  {
    assert ReplaceWhere(lines, IsTarget, Assignment(url)) == lines;
    ContentAppend(lines, [Assignment(url)]);
    assert Content([Assignment(url)]) == Assignment(url) + Content([]);
  }

  /** A line whose first character is neither whitespace nor 'V' is never replaced. */
  lemma NotTargetByFirst(line: string)
    requires line != [] && !IsPySpace(line[0]) && line[0] != 'V'
    ensures !IsTarget(line)
  {
    assert TrimStart(line, IsPySpace) == line;
    var r := TrimEnd(line, IsPySpace);
    TrimEndShape(line, IsPySpace);
    if r != [] {
      assert r[0] == line[0];
    }
  }

  /** An example of that: a last line without its newline is joined to the assignment on one line. */
  lemma UnterminatedLastLine(url: string)
    ensures Content(Rewrite(["PORT=5173"], url)) == "PORT=5173" + Assignment(url)
  {
    var line := "PORT=5173";
    NotTargetByFirst(line);
    assert !AnyMatch([line], IsTarget);
    AppendedAfterContent([line], url);
    assert Content([line]) == line + Content([]);
  }

  /** The length of the first line of a non-empty text: up to and including its first '\n', or all of it. */
  function FirstLineLength(t: string): (k: nat)
    requires t != []
    ensures 1 <= k <= |t|
  {
    if t[0] == '\n' || |t| == 1 then 1 else 1 + FirstLineLength(t[1..])
  }

  /** f.readlines(): the text cut after every '\n'; a last line without one is kept as it is. */
  function ReadLines(t: string): seq<string>
    decreases |t|
  {
    if t == [] then []
    else
      var k := FirstLineLength(t);
      [t[..k]] + ReadLines(t[k..])
  }

  /** A line as readlines returns it: non-empty, with a '\n' at most as its last character. */
  predicate WellFormedLine(l: string) {
    l != [] && forall i :: 0 <= i < |l| - 1 ==> l[i] != '\n'
  }

  predicate Terminated(l: string) {
    l != [] && l[|l| - 1] == '\n'
  }

  /** A line list readlines can return: well-formed lines, each but the last one terminated. */
  predicate LineList(ls: seq<string>) {
    && (forall i :: 0 <= i < |ls| ==> WellFormedLine(ls[i]))
    && (forall i :: 0 <= i < |ls| - 1 ==> Terminated(ls[i]))
  }

  /** The first line readlines cuts from a text is well-formed, and terminated unless it is all of the text. */
  lemma {:induction false} FirstLineShape(t: string)
    requires t != []
    ensures var k := FirstLineLength(t);
      WellFormedLine(t[..k]) && (Terminated(t[..k]) || k == |t|)
    decreases |t|
  {
    if !(t[0] == '\n' || |t| == 1) {
      FirstLineShape(t[1..]);
      var k := FirstLineLength(t);
      assert t[..k] == [t[0]] + t[1..][..k - 1];
    }
  }

  /** A well-formed line that is terminated, or is all of the text, is exactly the first line cut. */
  lemma {:induction false} FirstLineOf(l: string, rest: string)
    requires WellFormedLine(l) && (Terminated(l) || rest == [])
    ensures FirstLineLength(l + rest) == |l|
    decreases |l|
  {
    var t := l + rest;
    assert t[0] == l[0];
    if |l| > 1 {
      assert t[1..] == l[1..] + rest;
      assert l[|l| - 1] == l[1..][|l| - 2];
      FirstLineOf(l[1..], rest);
    }
  }

  /** readlines loses nothing: its lines are well-formed and concatenate back to the text. */
  lemma {:induction false} ReadLinesShape(t: string)
    ensures LineList(ReadLines(t)) && Content(ReadLines(t)) == t
    decreases |t|
  {
    if t != [] {
      var k := FirstLineLength(t);
      FirstLineShape(t);
      ReadLinesShape(t[k..]);
      var ls := ReadLines(t);
      assert ls[1..] == ReadLines(t[k..]);
      assert t == t[..k] + t[k..];
      if k == |t| {
        assert ReadLines(t[k..]) == [];
      }
    }
  }

  /** readlines loses nothing: its lines concatenate back to the text. */
  lemma ReadLinesContent(t: string)
    ensures Content(ReadLines(t)) == t
  {
    ReadLinesShape(t);
  }

  /** Writing a line list readlines can return and reading it back gives the same lines. */
  lemma {:induction false} LinesRoundTrip(ls: seq<string>)
    requires LineList(ls)
    ensures ReadLines(Content(ls)) == ls
  {
    if ls != [] {
      var rest := Content(ls[1..]);
      if |ls| == 1 {
        assert ls[1..] == [];
      }
      FirstLineOf(ls[0], rest);
      var t := ls[0] + rest;
      assert t[..|ls[0]|] == ls[0] && t[|ls[0]|..] == rest;
      assert LineList(ls[1..]) by {
        assert forall i :: 0 <= i < |ls| - 1 ==> ls[1..][i] == ls[i + 1];
      }
      LinesRoundTrip(ls[1..]);
    }
  }

  /** update_env_file on the file's text: read the lines, rewrite them, write them back. */
  function RewriteText(t: string, url: string): string {
    Content(Rewrite(ReadLines(t), url))
  }

  /** Text without a newline, closed by one, is a single terminated line. */
  lemma NewlineClosed(x: string)
    requires '\n' !in x
    ensures WellFormedLine(x + "\n") && Terminated(x + "\n")
  {
    assert forall i :: 0 <= i < |x| ==> (x + "\n")[i] == x[i];
  }

  /** The written assignment is a single terminated line when the url holds no newline. */
  lemma AssignmentLine(url: string)
    requires '\n' !in url
    ensures WellFormedLine(Assignment(url)) && Terminated(Assignment(url))
  {
    assert '\n' !in VarName + "=";
    assert Assignment(url) == (VarName + "=" + url) + "\n";
    NewlineClosed(VarName + "=" + url);
  }

  /** A text that is one well-formed line reads as that one line. */
  lemma SingleLine(l: string)
    requires WellFormedLine(l)
    ensures ReadLines(l) == [l]
  {
    assert Content([l]) == l by { assert [l][1..] == []; }
    LinesRoundTrip([l]);
  }

  /**
   * A last line without its newline that is not a target (its first
   * character is neither whitespace nor 'V') is glued to the appended
   * assignment, and the glued line is no target either, so a second run
   * appends the assignment again.
   */
  lemma GluedLineAppendsAgain(l: string, url: string)
    requires l != [] && '\n' !in l && !IsPySpace(l[0]) && l[0] != 'V'
    requires '\n' !in url
    ensures RewriteText(l, url) == l + Assignment(url)
    ensures RewriteText(l + Assignment(url), url) == l + Assignment(url) + Assignment(url)
  {
    assert WellFormedLine(l);
    SingleLine(l);
    NotTargetByFirst(l);
    assert !AnyMatch([l], IsTarget);
    AppendedAfterContent([l], url);
    assert Content([l]) == l by { assert [l][1..] == []; }
    var x := l + VarName + "=" + url;
    assert '\n' !in VarName + "=";
    assert '\n' !in x;
    NewlineClosed(x);
    var t := x + "\n";
    assert t == l + Assignment(url);
    SingleLine(t);
    NotTargetByFirst(t);
    assert !AnyMatch([t], IsTarget);
    AppendedAfterContent([t], url);
    assert Content([t]) == t by { assert [t][1..] == []; }
  }

  /** The instance: a .env holding "PORT=5173" without a final newline gets the assignment twice from two runs. */
  lemma TwiceAppends(url: string)
    requires '\n' !in url
    ensures RewriteText("PORT=5173", url) == "PORT=5173" + Assignment(url)
    ensures RewriteText(RewriteText("PORT=5173", url), url) == "PORT=5173" + Assignment(url) + Assignment(url)
  {
    var l := "PORT=5173";
    assert '\n' !in l;
    GluedLineAppendsAgain(l, url);
  }

  /**
   * After the second append the text is stable: the first assignment stays
   * glued to the old last line, but the second one is a line of its own that
   * every later run replaces with itself.
   */
  lemma GluedThenStable(l: string, url: string)
    requires l != [] && '\n' !in l && !IsPySpace(l[0]) && l[0] != 'V'
    requires '\n' !in url
    ensures var t := l + Assignment(url) + Assignment(url); RewriteText(t, url) == t
  {
    var a := Assignment(url);
    var x := l + VarName + "=" + url;
    assert '\n' !in VarName + "=";
    assert '\n' !in x;
    NewlineClosed(x);
    var g := x + "\n";
    assert g == l + a;
    AssignmentLine(url);
    var ls := [g, a];
    assert LineList(ls);
    assert Content([a]) == a by { assert [a][1..] == []; }
    assert Content(ls) == g + Content([a]) by { assert ls[1..] == [a]; }
    LinesRoundTrip(ls);
    NotTargetByFirst(g);
    LastTargetFixed(ls, url);
  }

  /** The instance: the text two runs leave from "PORT=5173" (TwiceAppends) is not changed by a third run. */
  lemma ThirdRunStable(url: string)
    requires '\n' !in url
    ensures var t2 := "PORT=5173" + Assignment(url) + Assignment(url); RewriteText(t2, url) == t2
  {
    var l := "PORT=5173";
    assert '\n' !in l;
    GluedThenStable(l, url);
  }

  /** The last line, with a '\n' added when it lacks one. */
  function Terminate(ls: seq<string>): (r: seq<string>)
    ensures |r| == |ls|
    ensures forall i :: 0 <= i < |ls| - 1 ==> r[i] == ls[i]
    ensures ls != [] ==> r[|ls| - 1] == (if Terminated(ls[|ls| - 1]) then ls[|ls| - 1] else ls[|ls| - 1] + "\n")
  {
    if ls != [] && !Terminated(ls[|ls| - 1]) then ls[..|ls| - 1] + [ls[|ls| - 1] + "\n"] else ls
  }

  /** update_env_file with the append it evidently intends: the assignment starts a line of its own. */
  function RewriteFixed(lines: seq<string>, url: string): seq<string> {
    if AnyMatch(lines, IsTarget) then Rewrite(lines, url) else Terminate(lines) + [Assignment(url)]
  }

  function RewriteTextFixed(t: string, url: string): string {
    Content(RewriteFixed(ReadLines(t), url))
  }

  /** A final newline does not change whether a line is a target. */
  lemma TargetIgnoresNewline(l: string)
    ensures IsTarget(l + "\n") == IsTarget(l)
  {
    TrimTrailingSpace(l, '\n', IsPySpace);
  }

  /** Terminating the last line keeps a line list well-formed and its targets unchanged, and terminates every line. */
  lemma TerminateShape(ls: seq<string>)
    requires LineList(ls)
    ensures var r := Terminate(ls);
      && (forall i :: 0 <= i < |r| ==> WellFormedLine(r[i]) && Terminated(r[i]))
      && (forall i :: 0 <= i < |r| ==> IsTarget(r[i]) == IsTarget(ls[i]))
  {
    if ls != [] {
      var l := ls[|ls| - 1];
      TargetIgnoresNewline(l);
      if !Terminated(l) {
        assert forall i :: 0 <= i < |l| ==> (l + "\n")[i] == l[i] != '\n';
      }
    }
  }

  /** Replacing target lines of a line list by the assignment keeps it a line list. */
  lemma RewriteKeepsLineList(ls: seq<string>, url: string)
    requires LineList(ls) && AnyMatch(ls, IsTarget) && '\n' !in url
    ensures LineList(Rewrite(ls, url))
  {
    var a := Assignment(url);
    AssignmentLine(url);
    var r := Rewrite(ls, url);
    assert forall i :: 0 <= i < |r| ==> r[i] == a || (i < |ls| && r[i] == ls[i]);
  }

  /** Without a target, the fixed rewrite's lines form a line list and hold no target but the last. */
  lemma AppendedLineList(ls: seq<string>, url: string)
    requires LineList(ls) && !AnyMatch(ls, IsTarget) && '\n' !in url
    ensures var r := RewriteFixed(ls, url);
      && LineList(r) && |r| == |ls| + 1
      && (forall i :: 0 <= i < |ls| ==> !IsTarget(r[i]))
      && r[|ls|] == Assignment(url)
  {
    TerminateShape(ls);
    AssignmentLine(url);
  }

  /** A line list whose only target is its last line, the assignment, is left as it is. */
  lemma LastTargetFixed(r: seq<string>, url: string)
    requires r != [] && r[|r| - 1] == Assignment(url)
    requires forall i :: 0 <= i < |r| - 1 ==> !IsTarget(r[i])
    ensures Rewrite(r, url) == r
  {
    var a := Assignment(url);
    AssignmentIsTarget(url);
    assert AnyMatch(r, IsTarget) by { assert IsTarget(r[|r| - 1]); }
    var rr := ReplaceOrAppend(r, IsTarget, a);
    assert |rr| == |r|;
    forall i | 0 <= i < |r|
      ensures rr[i] == r[i]
    {
      assert rr[i] == (if IsTarget(r[i]) then a else r[i]);
    }
  }

  /**
   * The fixed rewrite is idempotent on the file's text, whatever the text:
   * its result holds a target line, every line of it reads back as written,
   * and rewriting a list that holds a target again changes nothing.
   */
  lemma FixedIdempotent(t: string, url: string)
    requires '\n' !in url
    ensures RewriteTextFixed(RewriteTextFixed(t, url), url) == RewriteTextFixed(t, url)
  {
    var ls := ReadLines(t);
    ReadLinesShape(t);
    var r := RewriteFixed(ls, url);
    AssignmentIsTarget(url);
    if AnyMatch(ls, IsTarget) {
      RewriteKeepsLineList(ls, url);
      LinesRoundTrip(r);
      ResultHasMatch(ls, IsTarget, Assignment(url));
      Idempotent(ls, url);
    } else {
      AppendedLineList(ls, url);
      LinesRoundTrip(r);
      assert IsTarget(r[|ls|]);
      assert AnyMatch(r, IsTarget);
      LastTargetFixed(r, url);
    }
  }

  /** The text of a single line is that line. */
  lemma ContentOne(l: string)
    ensures Content([l]) == l
  {
    assert [l][1..] == [];
  }

  /** A '\n' added to the last line is a '\n' added to the text. */
  lemma ContentNewlineLast(p: seq<string>, l: string)
    ensures Content(p + [l + "\n"]) == Content(p + [l]) + "\n"
  {
    ContentAppend(p, [l + "\n"]);
    ContentAppend(p, [l]);
    ContentOne(l + "\n");
    ContentOne(l);
  }

  /** Terminating the last line adds a '\n' to the text exactly when the last line lacked one. */
  lemma TerminateContent(ls: seq<string>)
    requires ls != []
    ensures Content(Terminate(ls)) == Content(ls) + (if Terminated(ls[|ls| - 1]) then "" else "\n")
  {
    var n := |ls| - 1;
    if !Terminated(ls[n]) {
      assert ls == ls[..n] + [ls[n]];
      ContentNewlineLast(ls[..n], ls[n]);
    } else {
      assert Content(ls) + "" == Content(ls);
    }
  }

  /** Without a target, the fixed rewrite's text is the old text, a '\n' if its last line lacked one, and the assignment. */
  lemma FixedAppendContent(ls: seq<string>, url: string)
    requires !AnyMatch(ls, IsTarget)
    ensures Content(RewriteFixed(ls, url))
      == Content(ls) + (if ls == [] || Terminated(ls[|ls| - 1]) then "" else "\n") + Assignment(url)
  {
    ContentAppend(Terminate(ls), [Assignment(url)]);
    ContentOne(Assignment(url));
    if ls != [] {
      TerminateContent(ls);
    }
  }

  /** The text of a line list whose last line is non-empty ends as that line ends. */
  lemma ContentLastChar(ls: seq<string>)
    requires ls != [] && ls[|ls| - 1] != []
    ensures var t, l := Content(ls), ls[|ls| - 1]; t != [] && t[|t| - 1] == l[|l| - 1]
  {
    var n := |ls| - 1;
    assert ls == ls[..n] + [ls[n]];
    ContentAppend(ls[..n], [ls[n]]);
    ContentOne(ls[n]);
  }

  /** The text ends in '\n' exactly when the last line readlines gives is terminated. */
  lemma LastLineTerminated(t: string)
    ensures var ls := ReadLines(t);
      (ls == [] || Terminated(ls[|ls| - 1])) <==> (t == [] || t[|t| - 1] == '\n')
  {
    var ls := ReadLines(t);
    ReadLinesShape(t);
    if ls != [] {
      assert WellFormedLine(ls[|ls| - 1]);
      ContentLastChar(ls);
    }
  }

  /** FixedAppendContent read on the file's text. */
  lemma FixedTextContent(t: string, url: string)
    requires !AnyMatch(ReadLines(t), IsTarget)
    ensures var ls := ReadLines(t);
      RewriteTextFixed(t, url) == Content(ls) + (if ls == [] || Terminated(ls[|ls| - 1]) then "" else "\n") + Assignment(url)
  {
    FixedAppendContent(ReadLines(t), url);
  }

  /** When nothing matches, the fixed rewrite puts the assignment on a line of its own after the old text. */
  lemma FixedAppendsOwnLine(t: string, url: string)
    requires !AnyMatch(ReadLines(t), IsTarget)
    ensures RewriteTextFixed(t, url) == t + (if t == [] || t[|t| - 1] == '\n' then "" else "\n") + Assignment(url)
  {
    FixedTextContent(t, url);
    ReadLinesContent(t);
    LastLineTerminated(t);
  }
}
