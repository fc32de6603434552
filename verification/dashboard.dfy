/**
 * The analysis editor page: whether a job description was entered, the
 * markdown-to-HTML preview of the resume (four line-anchored rewrites in
 * multiline mode, then the blank-line rewrite) and the rule that locks
 * some output languages for visitors who are not logged in.
 */
module Dashboard {
  import opened Text

  /** hasJD: the job description is non-empty after trim. */
  predicate HasJd(jd: string) {
    |JsTrim(jd)| > 0
  }

  /** A job description counts exactly when it holds a character that is not whitespace. */
  lemma HasJdIff(jd: string)
    ensures HasJd(jd) <==> exists i :: 0 <= i < |jd| && !IsJsSpace(jd[i])
  {
    TrimEmptyIff(jd, IsJsSpace);
  }

  /** A string with no line terminator: what `.` matches run after run. */
  predicate OneLine(s: string) {
    forall i :: 0 <= i < |s| ==> !IsLineTerminator(s[i])
  }

  /** Where the first line of `s` ends: the first line terminator, or the end of `s`. */
  function LineEnd(s: string): (k: nat)
    ensures k <= |s|
    ensures k < |s| ==> IsLineTerminator(s[k])
  {
    if s == [] || IsLineTerminator(s[0]) then 0 else LineEnd(s[1..]) + 1
  }

  /** No terminator comes before the end of the first line. */
  lemma {:induction false} LineEndFirst(s: string)
    ensures forall i :: 0 <= i < LineEnd(s) ==> !IsLineTerminator(s[i])
    decreases |s|
  {
    if s != [] && !IsLineTerminator(s[0]) {
      LineEndFirst(s[1..]);
      assert forall i :: 1 <= i < LineEnd(s) ==> s[i] == s[1..][i - 1];
    }
  }

  /** The first line holds no terminator. */
  lemma FirstLine(s: string)
    ensures OneLine(s[..LineEnd(s)])
  {
    var k := LineEnd(s);
    LineEndFirst(s);
    assert forall i :: 0 <= i < k ==> s[..k][i] == s[i];
  }

  /**
   * A regular expression anchored with ^ and $ under the m flag, applied
   * with the g flag: every line (the text between line terminators) is
   * rewritten on its own by `f`, and the terminators stay in place.
   */
  function MapLines(s: string, f: string -> string): string
    decreases |s|
  {
    var k := LineEnd(s);
    if k == |s| then f(s) else f(s[..k]) + [s[k]] + MapLines(s[k + 1..], f)
  }

  /** `^<prefix>(.+)$` matches a line: the line starts with the prefix and something follows it. */
  predicate Fires(line: string, prefix: string) {
    StartsWith(line, prefix) && |line| > |prefix|
  }

  /** One replace step on one line: the text after the prefix, wrapped in the element's tags. */
  function Rule(line: string, prefix: string, open: string, close: string): string
  {
    if Fires(line, prefix) then open + line[|prefix|..] + close else line
  }

  /** The opening tags, written in pieces short enough to reason about one by one. */
  const H3Open: string := "<h3 class=\"" + "text-lg font-semibold " + "mt-4 mb-2 " + "text-foreground\">"
  const H2Open: string :=
    "<h2 class=\"" + "text-xl font-bold " + "mt-6 mb-3 " + "text-foreground " + "border-b border-border " + "pb-2\">"
  const H1Open: string := "<h1 class=\"" + "text-2xl font-bold " + "mb-4 text-primary\">"
  const LiOpen: string := "<li class=\"" + "ml-4 " + "text-muted-foreground\">"

  function H3(line: string): string { Rule(line, "### ", H3Open, "</h3>") }
  function H2(line: string): string { Rule(line, "## ", H2Open, "</h2>") }
  function H1(line: string): string { Rule(line, "# ", H1Open, "</h1>") }
  function Li(line: string): string { Rule(line, "- ", LiOpen, "</li>") }

  /** What the whole chain does to one line: the first prefix that fires, and only that one. */
  function LineHtml(line: string): (r: string)
    ensures Fires(line, "### ") ==> r == H3Open + line[4..] + "</h3>"
    ensures !Fires(line, "### ") && Fires(line, "## ") ==> r == H2Open + line[3..] + "</h2>"
    ensures !Fires(line, "### ") && !Fires(line, "## ") && Fires(line, "# ") ==> r == H1Open + line[2..] + "</h1>"
    ensures !Fires(line, "### ") && !Fires(line, "## ") && !Fires(line, "# ") && Fires(line, "- ") ==>
      r == LiOpen + line[2..] + "</li>"
    ensures !Fires(line, "### ") && !Fires(line, "## ") && !Fires(line, "# ") && !Fires(line, "- ") ==> r == line
  {
    if Fires(line, "### ") then H3(line)
    else if Fires(line, "## ") then H2(line)
    else if Fires(line, "# ") then H1(line)
    else Li(line)
  }

  /** `.replace(/\n\n/g, "<br/><br/>")`: pairs of newlines, found left to right without overlap. */
  function ReplaceBreaks(s: string): (r: string)
    ensures |r| > 0 && r[0] == '\n' <==> |s| > 0 && s[0] == '\n' && !(|s| >= 2 && s[1] == '\n')
    decreases |s|
  {
    if |s| >= 2 && s[0] == '\n' && s[1] == '\n' then "<br/><br/>" + ReplaceBreaks(s[2..])
    else if s == [] then []
    else [s[0]] + ReplaceBreaks(s[1..])
  }

  /** previewHtml: the four line rewrites in the source's order, then the blank-line rewrite. */
  function Preview(resume: string): string {
    ReplaceBreaks(MapLines(MapLines(MapLines(MapLines(resume, H3), H2), H1), Li))
  }

  /** No two newlines stand next to each other. */
  predicate NoBlankLine(r: string) {
    forall i :: 0 <= i < |r| - 1 ==> !(r[i] == '\n' && r[i + 1] == '\n')
  }

  /** No two newlines stay adjacent after the blank-line rewrite. */
  lemma {:induction false} NoDoubleNewline(s: string)
    ensures NoBlankLine(ReplaceBreaks(s))
  {
    var r := ReplaceBreaks(s);
    if |s| >= 2 && s[0] == '\n' && s[1] == '\n' {
      NoDoubleNewline(s[2..]);
      var t := ReplaceBreaks(s[2..]);
      assert r == "<br/><br/>" + t;
      forall i | 0 <= i < |r| - 1 ensures !(r[i] == '\n' && r[i + 1] == '\n') {
        if i < 10 {
          assert OneLine("<br/><br/>");
          assert r[i] == "<br/><br/>"[i];
          assert !IsLineTerminator(r[i]);
        } else {
          var j := i - 10;
          assert r[i] == t[j] && r[i + 1] == t[j + 1];
          assert !(t[j] == '\n' && t[j + 1] == '\n');
        }
      }
    } else if s != [] {
      NoDoubleNewline(s[1..]);
      var t := ReplaceBreaks(s[1..]);
      assert r == [s[0]] + t;
      forall i | 0 <= i < |r| - 1 ensures !(r[i] == '\n' && r[i + 1] == '\n') {
        if i == 0 {
          assert r[0] == s[0] && r[1] == t[0];
          assert |s| >= 2 ==> s[1..][0] == s[1];
        } else {
          var j := i - 1;
          assert r[i] == t[j] && r[i + 1] == t[j + 1];
          assert !(t[j] == '\n' && t[j + 1] == '\n');
        }
      }
    }
  }

  /** Text without a blank line passes the blank-line rewrite unchanged. */
  lemma {:induction false} BreaksIdentity(s: string)
    requires NoBlankLine(s)
    ensures ReplaceBreaks(s) == s
  {
    if s != [] {
      BreaksIdentity(s[1..]);
      assert s == [s[0]] + s[1..];
    }
  }

  /** Rewriting lines by `f` and then by `g`, where `f` keeps lines whole, is one rewrite by their composition `h`. */
  lemma {:induction false} MapLinesCompose(s: string, f: string -> string, g: string -> string, h: string -> string)
    requires forall x :: OneLine(x) ==> OneLine(f(x))
    requires forall x :: OneLine(x) ==> h(x) == g(f(x))
    ensures MapLines(MapLines(s, f), g) == MapLines(s, h)
    decreases |s|
  {
    var k := LineEnd(s);
    if k == |s| {
      LineEndFirst(s);
      assert MapLines(s, f) == f(s) && MapLines(s, h) == h(s);
      LineEndOfLine(f(s));
      assert MapLines(f(s), g) == g(f(s));
    } else {
      var line, t, rest := s[..k], s[k], s[k + 1..];
      var u, m := f(line), MapLines(rest, f);
      FirstLine(s);
      assert OneLine(line) && OneLine(u) && h(line) == g(u);
      MapLinesStep(s, f);
      MapLinesOfCons(MapLines(s, f), u, t, m, g);
      MapLinesCompose(rest, f, g, h);
      MapLinesStep(s, h);
    }
  }

  lemma MapLinesStep(s: string, f: string -> string)
    requires LineEnd(s) < |s|
    ensures var k := LineEnd(s); MapLines(s, f) == f(s[..k]) + [s[k]] + MapLines(s[k + 1..], f)
  {
  }

  /** A line followed by a terminator: the line is rewritten, the terminator kept, and the rest rewritten on its own. */
  lemma MapLinesCons(u: string, t: char, m: string, g: string -> string)
    requires OneLine(u) && IsLineTerminator(t)
    ensures MapLines(u + [t] + m, g) == g(u) + [t] + MapLines(m, g)
  {
    var w := u + [t] + m;
    LineEndAt(u, t, m);
    assert w[..|u|] == u && w[|u|] == t && w[|u| + 1..] == m;
  }

  /** MapLinesCons for a text already known to be a line, a terminator and the rest. */
  lemma MapLinesOfCons(w: string, u: string, t: char, m: string, g: string -> string)
    requires w == u + [t] + m && OneLine(u) && IsLineTerminator(t)
    ensures MapLines(w, g) == g(u) + [t] + MapLines(m, g)
  {
    MapLinesCons(u, t, m, g);
  }

  lemma LineEndOfLine(s: string)
    requires OneLine(s)
    ensures LineEnd(s) == |s|
  {
  }

  /** A line, a terminator and more text: the first line ends at the terminator. */
  lemma {:induction false} LineEndAt(u: string, t: char, rest: string)
    requires OneLine(u) && IsLineTerminator(t)
    ensures LineEnd(u + [t] + rest) == |u|
    decreases |u|
  {
    var w := u + [t] + rest;
    if u != [] {
      assert w[1..] == u[1..] + [t] + rest;
      LineEndAt(u[1..], t, rest);
    }
  }

  /** A tag wrapper keeps a line whole: the tags hold no line terminator. */
  lemma RuleKeepsLines(line: string, prefix: string, open: string, close: string)
    requires OneLine(line) && OneLine(open) && OneLine(close)
    ensures OneLine(Rule(line, prefix, open, close))
  {
    if Fires(line, prefix) {
      var r := open + line[|prefix|..] + close;
      assert forall i :: |open| <= i < |open| + |line| - |prefix| ==> r[i] == line[i - |open| + |prefix|];
    }
  }

  lemma AppendOneLine(a: string, b: string)
    requires OneLine(a) && OneLine(b)
    ensures OneLine(a + b)
  {
    assert forall i :: |a| <= i < |a| + |b| ==> (a + b)[i] == b[i - |a|];
  }

  lemma H3OneLine() ensures OneLine(H3Open) && H3Open[0] == '<' {
    AppendOneLine("<h3 class=\"", "text-lg font-semibold ");
    AppendOneLine("<h3 class=\"" + "text-lg font-semibold ", "mt-4 mb-2 ");
    AppendOneLine("<h3 class=\"" + "text-lg font-semibold " + "mt-4 mb-2 ", "text-foreground\">");
  }

  lemma H2OneLine() ensures OneLine(H2Open) && H2Open[0] == '<' {
    var a := "<h2 class=\"" + "text-xl font-bold ";
    AppendOneLine("<h2 class=\"", "text-xl font-bold ");
    AppendOneLine(a, "mt-6 mb-3 ");
    AppendOneLine(a + "mt-6 mb-3 ", "text-foreground ");
    AppendOneLine(a + "mt-6 mb-3 " + "text-foreground ", "border-b border-border ");
    AppendOneLine(a + "mt-6 mb-3 " + "text-foreground " + "border-b border-border ", "pb-2\">");
  }

  lemma H1OneLine() ensures OneLine(H1Open) && H1Open[0] == '<' {
    AppendOneLine("<h1 class=\"", "text-2xl font-bold ");
    AppendOneLine("<h1 class=\"" + "text-2xl font-bold ", "mb-4 text-primary\">");
  }

  lemma LiOneLine() ensures OneLine(LiOpen) && LiOpen[0] == '<' {
    AppendOneLine("<li class=\"", "ml-4 ");
    AppendOneLine("<li class=\"" + "ml-4 ", "text-muted-foreground\">");
  }

  lemma ClosingTagsOneLine()
    ensures OneLine("</h3>") && OneLine("</h2>") && OneLine("</h1>") && OneLine("</li>")
  {
  }

  /** No tag of the preview contains a line terminator. */
  lemma TagsAreOneLine()
    ensures OneLine(H3Open) && OneLine(H2Open) && OneLine(H1Open) && OneLine(LiOpen)
    ensures OneLine("</h3>") && OneLine("</h2>") && OneLine("</h1>") && OneLine("</li>")
  {
    ClosingTagsOneLine();
    H3OneLine();
    H2OneLine();
    H1OneLine();
    LiOneLine();
  }

  /** The first two rewrites, and the first three, as functions of one line. */
  function UpToH2(line: string): string { H2(H3(line)) }
  function UpToH1(line: string): string { H1(UpToH2(line)) }

  /** A line that starts with '<' fires none of the four prefixes. */
  lemma TagLineFiresNothing(x: string)
    requires |x| > 0 && x[0] == '<'
    ensures !Fires(x, "## ") && !Fires(x, "# ") && !Fires(x, "- ")
  {
    assert "## "[0] == '#' && "# "[0] == '#' && "- "[0] == '-';
  }

  lemma RuleOpensTag(line: string, prefix: string, open: string, close: string)
    requires |open| > 0 && open[0] == '<' && Fires(line, prefix)
    ensures var r := Rule(line, prefix, open, close); |r| > 0 && r[0] == '<'
  {
  }

  /** A rewritten line starts with '<', so no later prefix (all begin with '#' or '-') can fire on it. */
  lemma ChainOnLine(line: string)
    ensures Li(UpToH1(line)) == LineHtml(line)
  {
    if Fires(line, "### ") {
      RuleOpensTag(line, "### ", H3Open, "</h3>");
      TagLineFiresNothing(H3(line));
    } else if Fires(line, "## ") {
      RuleOpensTag(line, "## ", H2Open, "</h2>");
      TagLineFiresNothing(H2(line));
    } else if Fires(line, "# ") {
      RuleOpensTag(line, "# ", H1Open, "</h1>");
      TagLineFiresNothing(H1(line));
    }
  }

  lemma RulesKeepLines(x: string)
    requires OneLine(x)
    ensures OneLine(H3(x)) && OneLine(UpToH2(x)) && OneLine(UpToH1(x))
  {
    TagsAreOneLine();
    RuleKeepsLines(x, "### ", H3Open, "</h3>");
    RuleKeepsLines(H3(x), "## ", H2Open, "</h2>");
    RuleKeepsLines(UpToH2(x), "# ", H1Open, "</h1>");
  }

  /** Each line of the resume receives at most one of the four rewrites: the first whose prefix fires. */
  lemma PreviewPerLine(resume: string)
    ensures Preview(resume) == ReplaceBreaks(MapLines(resume, LineHtml))
  {
    forall x | OneLine(x) ensures OneLine(H3(x)) && OneLine(UpToH2(x)) && OneLine(UpToH1(x)) {
      RulesKeepLines(x);
    }
    forall x | OneLine(x) ensures LineHtml(x) == Li(UpToH1(x)) {
      ChainOnLine(x);
    }
    MapLinesCompose(resume, H3, H2, UpToH2);
    MapLinesCompose(resume, UpToH2, H1, UpToH1);
    MapLinesCompose(resume, UpToH1, Li, LineHtml);
  }

  /** A bare marker with nothing after it is no heading and no item; it stays as typed. */
  lemma BareMarkersStay()
    ensures LineHtml("# ") == "# " && LineHtml("- ") == "- " && LineHtml("### ") == "### "
  {
    assert !StartsWith("### ", "## ") by { assert "### "[2] != "## "[2]; }
    assert !StartsWith("### ", "# ") by { assert "### "[1] != "# "[1]; }
    assert !StartsWith("### ", "- ") by { assert "### "[0] != "- "[0]; }
    assert !StartsWith("- ", "# ") by { assert "- "[0] != "# "[0]; }
  }

  datatype Language = Language(value: string, caption: string, locked: bool)

  /** The output languages offered, three of them locked. */
  const Languages: seq<Language> := [
    Language("zh-TW", "繁體中文", false),
    Language("en", "English", false),
    Language("ja", "日本語", true),
    Language("de", "Deutsch", true),
    Language("fr", "Français", true)
  ]

  /** A language option is disabled when it is locked and the visitor is not logged in. */
  predicate Disabled(lang: Language, isLoggedIn: bool) {
    lang.locked && !isLoggedIn
  }

  /** The values of the disabled options. */
  function DisabledValues(langs: seq<Language>, isLoggedIn: bool): (r: set<string>)
    ensures forall v :: v in r <==> exists i :: 0 <= i < |langs| && langs[i].value == v && Disabled(langs[i], isLoggedIn)
  {
    set i | 0 <= i < |langs| && Disabled(langs[i], isLoggedIn) :: langs[i].value
  }

  /** Logged out (the page's fixed state), exactly Japanese, German and French are disabled; logged in, none is. */
  lemma LockedLanguages()
    ensures DisabledValues(Languages, false) == {"ja", "de", "fr"}
    ensures DisabledValues(Languages, true) == {}
  {
    var d := DisabledValues(Languages, false);
    assert Languages[2].value == "ja" && Languages[3].value == "de" && Languages[4].value == "fr";
    assert "ja" in d && "de" in d && "fr" in d;
    forall v | v in d ensures v in {"ja", "de", "fr"} {
      var i :| 0 <= i < |Languages| && Languages[i].value == v && Disabled(Languages[i], false);
    }
  }
}
