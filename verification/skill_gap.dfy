/**
 * The local fallback of the resume/job-description gap analysis: keywords of a
 * fixed skill list are found in each text, the job description's skills are
 * split into the ones the resume has and the ones it lacks, and a percentage
 * score is computed. The AI analysis that is tried first is an oracle here:
 * its reply (or its failure) is a parameter.
 */
module SkillGap {
  import opened Common
  import opened Text

  /** The keywords the fallback recognises, all lower case. */
  const CommonSkills: set<string> := {
    "react", "vue", "angular", "typescript", "javascript", "html", "css", "tailwind",
    "python", "django", "flask", "node.js", "express", "java", "spring", "go",
    "sql", "mysql", "postgresql", "mongodb", "redis",
    "docker", "kubernetes", "k8s", "aws", "gcp", "azure", "ci/cd", "git", "linux"
  }

  /** What may stand just before a keyword: whitespace or one of `.,;(/`. */
  predicate BeforeBoundary(c: char) { IsPySpace(c) || c in ".,;(/" }

  /** What may stand just after a keyword: whitespace or one of `.,;)/`. */
  predicate AfterBoundary(c: char) { IsPySpace(c) || c in ".,;)/" }

  /** `skill` occurs at index `i` of `text` with a boundary (or the text's edge) on both sides. */
  predicate BoundedAt(text: string, skill: string, i: int) {
    && OccursAt(text, skill, i)
    && (i == 0 || BeforeBoundary(text[i - 1]))
    && (i + |skill| == |text| || AfterBoundary(text[i + |skill|]))
  }

  /** The keyword pattern of the fallback finds `skill` somewhere in `text`. */
  predicate Mentions(text: string, skill: string) {
    exists i :: 0 <= i <= |text| && BoundedAt(text, skill, i)
  }

  /** The skills the fallback extracts: none for a missing or empty text, else the listed ones mentioned case-insensitively. */
  function SkillsIn(text: Option<string>): set<string> {
    match text
    case None => {}
    case Some(t) => if t == "" then {} else set s | s in CommonSkills && Mentions(Lower(t), s)
  }

  /** Loops over the skill list and collects the skills whose pattern matches the lower-cased text. */
  method ExtractSkills(text: Option<string>) returns (found: set<string>)
    ensures found == SkillsIn(text)
    ensures found <= CommonSkills
    ensures text == None || text == Some("") ==> found == {}
    ensures forall s :: s in found <==> text.Some? && s in CommonSkills && Mentions(Lower(text.value), s)
  {
    if text == None || text == Some("") {
      return {};
    }
    var lower := Lower(text.value);
    found := {};
    var remaining := CommonSkills;
    while remaining != {}
      invariant remaining <= CommonSkills
      invariant forall s :: s in found <==> s in CommonSkills && s !in remaining && Mentions(lower, s)
      decreases remaining
    {
      var skill :| skill in remaining;
      if Mentions(lower, skill) {
        found := found + {skill};
      }
      remaining := remaining - {skill};
    }
    assert text.value != "";
  }

  /** Lower-casing a text whose letters are already lower case leaves it unchanged. */
  lemma LowerOfLower(s: string)
    requires forall i :: 0 <= i < |s| ==> !('A' <= s[i] <= 'Z')
    ensures Lower(s) == s
  {
  }

  /** "reactive" is not a mention of "react": the keyword must end at a boundary. */
  lemma ReactiveIsNotReact()
    ensures "react" !in SkillsIn(Some("reactive"))
  {
    LowerOfLower("reactive");
    ReactiveUnbounded();
  }

  lemma ReactiveUnbounded()
    ensures !Mentions("reactive", "react")
  {
    var t := "reactive";
    forall i | 0 <= i <= |t|
      ensures !BoundedAt(t, "react", i)
    {
      if i == 0 {
        assert t[5] == 'i';
      } else if i <= 3 {
        assert t[i..i + 5] != "react" by { assert t[i] != 'r'; }
      }
    }
  }

  /** Matching ignores case: texts that agree after lower-casing yield the same skills. */
  lemma CaseInsensitive(a: string, b: string)
    requires Lower(a) == Lower(b)
    ensures SkillsIn(Some(a)) == SkillsIn(Some(b))
  {
    assert |a| == |Lower(a)| == |Lower(b)| == |b|;
  }

  /** A keyword written in capitals, with a comma after it, is still found. */
  lemma CapitalisedMention()
    ensures "react" in SkillsIn(Some("REACT, Vue"))
  {
    CapitalisedBounded();
  }

  lemma CapitalisedBounded()
    ensures Mentions(Lower("REACT, Vue"), "react")
  {
    var t := Lower("REACT, Vue");
    assert t[..5] == "react" by {
      forall i | 0 <= i < 5 ensures t[i] == "react"[i] {}
    }
    assert t[5] == ',';
    assert BoundedAt(t, "react", 0);
  }

  /** The fallback's result: missing and matching skills, a score out of 100 and a source label. */
  datatype GapReport = GapReport(missing: set<string>, matching: set<string>, score: int, source: string)

  const FallbackSource: string := "Local Keyword Match (Fallback)"

  /** Set algebra of the fallback: missing = JD - resume, matching = JD & resume, score = floor(100 * matching / JD). */
  function Compare(resumeSkills: set<string>, jdSkills: set<string>): (r: GapReport)
    ensures r.missing !! r.matching && r.missing + r.matching == jdSkills
    ensures r.matching <= resumeSkills && r.missing !! resumeSkills
    ensures 0 <= r.score <= 100
    ensures jdSkills == {} ==> r.score == 0
    ensures r.score == 100 <==> jdSkills != {} && r.missing == {}
    ensures r.source == FallbackSource
  {
    var missing := jdSkills - resumeSkills;
    var matching := jdSkills * resumeSkills;
    var score := if jdSkills != {} then (100 * |matching|) / |jdSkills| else 0;
    ScoreFacts(missing, matching, jdSkills);
    GapReport(missing, matching, score, FallbackSource)
  }

  lemma ScoreFacts(missing: set<string>, matching: set<string>, jd: set<string>)
    requires missing !! matching && missing + matching == jd
    ensures jd != {} ==> 0 <= (100 * |matching|) / |jd| <= 100
    ensures jd != {} ==> ((100 * |matching|) / |jd| == 100 <==> missing == {})
  {
    assert |jd| == |missing| + |matching|;
    if jd != {} {
      PercentBounds(|matching|, |jd|);
    }
  }

  /** floor(100 * m / j) lies in [0, 100] and is 100 exactly when m == j. */
  lemma PercentBounds(m: nat, j: nat)
    requires m <= j && j > 0
    ensures 0 <= (100 * m) / j <= 100
    ensures (100 * m) / j == 100 <==> m == j
  {
    var q, r := (100 * m) / j, (100 * m) % j;
    assert j * q + r == 100 * m && 0 <= r < j;
    if q > 100 {
      MulMono(101, q, j);
      assert false;
    }
    if m == j && q < 100 {
      MulMono(q, 99, j);
      assert false;
    }
  }

  lemma MulMono(a: int, b: int, c: nat)
    requires a <= b
    ensures c * a <= c * b
  {
  }

  /** analyze_gap_fallback: extract both skill sets and compare them. */
  method AnalyzeGapFallback(resume: Option<string>, jd: Option<string>) returns (r: GapReport)
    ensures r == Compare(SkillsIn(resume), SkillsIn(jd))
    ensures r.missing + r.matching == SkillsIn(jd) && r.matching <= SkillsIn(resume)
  {
    var resumeSkills := ExtractSkills(resume);
    var jdSkills := ExtractSkills(jd);
    r := Compare(resumeSkills, jdSkills);
  }

  /** What the AI produced once its text parsed as a JSON object; a missing key is None. */
  datatype AiReply = AiReply(missing: Option<seq<string>>, matching: Option<seq<string>>, score: Option<int>)

  /** Which path answered: the fallback, the AI, or a TypeError raised by len(None). */
  datatype Analysis =
    | FromFallback(report: GapReport)
    | FromAi(missing: seq<string>, matching: seq<string>, score: int, source: string)
    | LengthOfNone

  function OrEmpty(v: Option<seq<string>>): seq<string> {
    match v case None => [] case Some(x) => x
  }

  /** Python truthiness of the key setting: absent or empty means no key. */
  predicate KeySet(key: Option<string>) { key.Some? && key.value != "" }

  /**
   * analyze_gap: without a model or key, or with a job description shorter than
   * ten characters, the fallback answers; otherwise the AI's reply is used, and
   * its failure (`ai` is None: the call raised, or its text was not JSON) falls back too.
   */
  method AnalyzeGap(resume: Option<string>, jd: Option<string>, modelLoaded: bool, key: Option<string>, ai: Option<AiReply>)
    returns (a: Analysis)
    ensures !modelLoaded || !KeySet(key) || (jd.Some? && |jd.value| < 10) || (jd.Some? && ai.None?)
            ==> a == FromFallback(Compare(SkillsIn(resume), SkillsIn(jd)))
    ensures modelLoaded && KeySet(key) && jd.None? ==> a == LengthOfNone
    ensures a.FromAi? <==> modelLoaded && KeySet(key) && jd.Some? && |jd.value| >= 10 && ai.Some?
    ensures a.FromAi? ==> a.source == "AI Analysis (Gemini)"
                          && a.missing == OrEmpty(ai.value.missing) && a.matching == OrEmpty(ai.value.matching)
                          && a.score == (match ai.value.score case None => 0 case Some(s) => s)
  {
    if !modelLoaded || !KeySet(key) {
      var r := AnalyzeGapFallback(resume, jd);
      return FromFallback(r);
    }
    if jd.None? {
      return LengthOfNone;
    }
    if |jd.value| < 10 {
      var r := AnalyzeGapFallback(resume, jd);
      return FromFallback(r);
    }
    match ai {
      case None =>
        var r := AnalyzeGapFallback(resume, jd);
        a := FromFallback(r);
      case Some(reply) =>
        var score := match reply.score case None => 0 case Some(s) => s;
        a := FromAi(OrEmpty(reply.missing), OrEmpty(reply.matching), score, "AI Analysis (Gemini)");
    }
  }
}
