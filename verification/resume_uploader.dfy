/**
 * The resume uploader: file selection (picker or drop), the remove button,
 * the analyse request's state sequence and the classification of the
 * returned suggestion into what is rendered. The request itself is an
 * outcome passed to the completion step.
 */
module ResumeUploader {
  import opened Common
  import opened Json
  import opened Text

  datatype FileInfo = FileInfo(name: string, size: nat)

  /** How the upload request ended: an ok or a non-ok response with its parsed body, or an exception. */
  datatype Outcome = Ok(data: Value) | NotOk(data: Value) | Failed(message: string)

  /** The alerts the analyse handler raises. */
  datatype Alert = UploadFailed(reason: Value) | ConnectionError(message: string)

  /** The shape renderSuggestionContent picks. */
  datatype View =
    | NoView
    | ErrorView(error: Value)
    | RawView(text: string)
    | Structured(analysis: Value, jobs: Value, projects: Value, learning: Value)

  /** Destructuring with a default: the default replaces undefined only, not null. */
  function WithDefault(v: Value, d: Value): Value
  {
    if v == JUndefined then d else v
  }

  /** renderSuggestionContent's order: no suggestion, then an error field, then a string, then the structured form. */
  function Classify(result: Value): (r: View)
    ensures r.NoView? <==> !Truthy(Get(result, "suggestion"))
    ensures r.ErrorView? <==> Truthy(Get(result, "suggestion")) && Truthy(Get(Get(result, "suggestion"), "error"))
    ensures r.ErrorView? ==> r.error == Get(Get(result, "suggestion"), "error")
    ensures r.RawView? ==> Get(result, "suggestion") == JStr(r.text)
    ensures r.Structured? ==>
      (Get(result, "suggestion").JObj? || Get(result, "suggestion").JArr?
       || Get(result, "suggestion").JNum? || Get(result, "suggestion").JBool?)
    ensures r.Structured? ==> var a := Get(Get(result, "suggestion"), "analysis");
      (a != JUndefined ==> r.analysis == a) && (a == JUndefined ==> r.analysis == JObj(map[]))
    ensures r.Structured? ==> var l := Get(Get(result, "suggestion"), "job_recommendations");
      (l != JUndefined ==> r.jobs == l) && (l == JUndefined ==> r.jobs == JArr([]))
    ensures r.Structured? ==> var l := Get(Get(result, "suggestion"), "project_recommendations");
      (l != JUndefined ==> r.projects == l) && (l == JUndefined ==> r.projects == JArr([]))
    ensures r.Structured? ==> var l := Get(Get(result, "suggestion"), "learning_path");
      (l != JUndefined ==> r.learning == l) && (l == JUndefined ==> r.learning == JArr([]))
  {
    var sug := Get(result, "suggestion");
    if !Truthy(sug) then NoView
    else if Truthy(Get(sug, "error")) then ErrorView(Get(sug, "error"))
    else if sug.JStr? then RawView(sug.s)
    else Structured(
      WithDefault(Get(sug, "analysis"), JObj(map[])),
      WithDefault(Get(sug, "job_recommendations"), JArr([])),
      WithDefault(Get(sug, "project_recommendations"), JArr([])),
      WithDefault(Get(sug, "learning_path"), JArr([])))
  }

  /** The three colour bands of the score. */
  datatype Band = High | Middle | Low

  /**
   * `analysis?.score || 0` as the comparisons `>= 80` and `>= 60` convert it:
   * the `|| 0` matters for a missing score only, since every other falsy
   * value converts to 0 anyway; a present score converts by ToNumber.
   */
  function Score(analysis: Value): (r: Number)
    ensures Get(analysis, "score") == JUndefined ==> r == Finite(0)
    ensures Get(analysis, "score") != JUndefined ==> r == ToNumber(Get(analysis, "score"))
  {
    var score := Get(analysis, "score");
    FalsyIsZero(score);
    ToNumber(Or(score, JNum(0)))
  }

  /** At least 80 (or +Infinity) is the first band, at least 60 the second, anything else (NaN included) the third. */
  function BandOf(score: Number): (b: Band)
    ensures b == High <==> score == Infinite(true) || (score.Finite? && score.floor >= 80)
    ensures b == Middle <==> score.Finite? && 60 <= score.floor < 80
  {
    match score
    case Finite(x) => if x >= 80 then High else if x >= 60 then Middle else Low
    case Infinite(positive) => if positive then High else Low
    case NaN => Low
  }

  /**
   * The lists a structured view maps: the strengths and weaknesses of the
   * analysis, then the job, project and learning recommendations. A section
   * is shown exactly when its list passes the `?.length > 0` test.
   */
  datatype Sections = Sections(strengths: bool, weaknesses: bool, jobs: bool, projects: bool, learning: bool)

  /** The structured view either renders its sections or throws while rendering. */
  datatype Rendering = Shown(sections: Sections) | Crashed

  /**
   * `list?.length > 0 && list.map(...)` throws when the length test passes on
   * anything but an array: a string or an object with a "length" member has
   * no map method (JSON carries no functions).
   */
  predicate MapThrows(list: Value) {
    PositiveLength(list) && !list.JArr?
  }

  /** A mapped list with a null or undefined element: reading the element's first field throws. */
  predicate HasNullishItem(list: Value) {
    list.JArr? && exists i :: 0 <= i < |list.items| && Nullish(list.items[i])
  }

  /** A job whose `missing_skills` passes the length test but is no array throws when mapped. */
  predicate SkillsThrow(jobs: Value) {
    jobs.JArr? && exists i :: 0 <= i < |jobs.items| && MapThrows(Get(jobs.items[i], "missing_skills"))
  }

  /**
   * The structured part of renderSuggestionContent. Any throw ends the whole
   * render, so the outcome does not depend on the order of the sections.
   */
  function SectionsOf(v: View): (r: Rendering)
    requires v.Structured?
    ensures r.Crashed? <==>
      MapThrows(Get(v.analysis, "strengths")) || MapThrows(Get(v.analysis, "weaknesses"))
      || MapThrows(v.jobs) || MapThrows(v.projects) || MapThrows(v.learning)
      || HasNullishItem(v.jobs) || HasNullishItem(v.projects) || HasNullishItem(v.learning)
      || SkillsThrow(v.jobs)
    ensures r.Shown? ==>
      && (r.sections.strengths <==> Get(v.analysis, "strengths").JArr? && |Get(v.analysis, "strengths").items| > 0)
      && (r.sections.weaknesses <==> Get(v.analysis, "weaknesses").JArr? && |Get(v.analysis, "weaknesses").items| > 0)
      && (r.sections.jobs <==> v.jobs.JArr? && |v.jobs.items| > 0)
      && (r.sections.projects <==> v.projects.JArr? && |v.projects.items| > 0)
      && (r.sections.learning <==> v.learning.JArr? && |v.learning.items| > 0)
  {
    var strengths := Get(v.analysis, "strengths");
    var weaknesses := Get(v.analysis, "weaknesses");
    if MapThrows(strengths) || MapThrows(weaknesses)
      || MapThrows(v.jobs) || MapThrows(v.projects) || MapThrows(v.learning)
      || HasNullishItem(v.jobs) || HasNullishItem(v.projects) || HasNullishItem(v.learning)
      || SkillsThrow(v.jobs)
    then Crashed
    else Shown(Sections(PositiveLength(strengths), PositiveLength(weaknesses),
      PositiveLength(v.jobs), PositiveLength(v.projects), PositiveLength(v.learning)))
  }

  /** A recommendation list given as a string or as an object with a positive "length" member crashes the render. */
  lemma NonArrayListCrashes(list: Value)
    requires (list.JStr? && list.s != []) || (list.JObj? && "length" in list.fields && list.fields["length"] == JNum(1))
    ensures var v := Classify(JObj(map["suggestion" := JObj(map["job_recommendations" := list])]));
      v.Structured? && SectionsOf(v) == Crashed
  {
  }

  /** An array of objects: the shape the analysis service sends for each recommendation list. */
  predicate ObjectArray(list: Value) {
    list.JArr? && forall i :: 0 <= i < |list.items| ==> list.items[i].JObj?
  }

  /**
   * A view in the service's shape never throws: missing or array strengths
   * and weaknesses, object arrays for the recommendations, and missing or
   * array skill lists. Each section then shows exactly when its list has an element.
   */
  lemma WellShapedRenders(v: View)
    requires v.Structured?
    requires forall key :: key in {"strengths", "weaknesses"} ==>
      Get(v.analysis, key) == JUndefined || Get(v.analysis, key).JArr?
    requires ObjectArray(v.jobs) && ObjectArray(v.projects) && ObjectArray(v.learning)
    requires forall i :: 0 <= i < |v.jobs.items| ==>
      Get(v.jobs.items[i], "missing_skills") == JUndefined || Get(v.jobs.items[i], "missing_skills").JArr?
    ensures SectionsOf(v).Shown?
    ensures SectionsOf(v).sections.jobs <==> |v.jobs.items| > 0
  {
  }

  /** An object without a "length" member fails the test and hides its section without throwing. */
  lemma LengthlessObjectHidden(fields: map<string, Value>)
    requires "length" !in fields
    ensures var v := Classify(JObj(map["suggestion" := JObj(map["job_recommendations" := JObj(fields)])]));
      v.Structured? && SectionsOf(v) == Shown(Sections(false, false, false, false, false))
  {
  }

  /** Null and undefined: the values whose property reads throw. */
  predicate Nullish(v: Value) {
    v == JNull || v == JUndefined
  }

  /** The TypeError message of reading `error` off null or undefined, in V8's wording. */
  function ReadErrorMessage(v: Value): (m: string)
    requires Nullish(v)
    ensures StartsWith(m, "Cannot read properties of ")
  {
    "Cannot read properties of " + (if v == JNull then "null" else "undefined") + " (reading 'error')"
  }

  class Uploader {
    var file: Option<FileInfo>
    var isDragging: bool
    var result: Value
    var loading: bool
    var alerts: seq<Alert>

    constructor()
      ensures file.None? && !isDragging && result == JNull && !loading && alerts == []
    {
      file := None;
      isDragging := false;
      result := JNull;
      loading := false;
      alerts := [];
    }

    /** `disabled={!file || loading}`, negated. */
    predicate AnalyzeEnabled()
      reads this
    {
      file.Some? && !loading
    }

    /** handleFileChange: a chosen file replaces the old one and clears the result; no file changes nothing. */
    method HandleFileChange(selected: Option<FileInfo>)
      modifies this
      ensures selected.Some? ==> file == selected && result == JNull
      ensures selected.None? ==> file == old(file) && result == old(result)
      ensures isDragging == old(isDragging) && loading == old(loading) && alerts == old(alerts)
    {
      if selected.Some? {
        file := selected;
        result := JNull;
      }
    }

    method HandleDragOver()
      modifies this
      ensures isDragging
      ensures file == old(file) && result == old(result) && loading == old(loading) && alerts == old(alerts)
    {
      isDragging := true;
    }

    method HandleDragLeave()
      modifies this
      ensures !isDragging
      ensures file == old(file) && result == old(result) && loading == old(loading) && alerts == old(alerts)
    {
      isDragging := false;
    }

    /** handleDrop: dragging ends, then the dropped file is taken like a chosen one. */
    method HandleDrop(dropped: Option<FileInfo>)
      modifies this
      ensures !isDragging
      ensures dropped.Some? ==> file == dropped && result == JNull
      ensures dropped.None? ==> file == old(file) && result == old(result)
      ensures loading == old(loading) && alerts == old(alerts)
    {
      isDragging := false;
      if dropped.Some? {
        file := dropped;
        result := JNull;
      }
    }

    /** The remove button: no file and no result. */
    method Remove()
      modifies this
      ensures file.None? && result == JNull
      ensures isDragging == old(isDragging) && loading == old(loading) && alerts == old(alerts)
    {
      file := None;
      result := JNull;
    }

    /** handleAnalyze up to the request: nothing without a file, otherwise loading with the old result cleared. */
    method BeginAnalyze() returns (started: bool)
      modifies this
      ensures started <==> old(file).Some?
      ensures !started ==> loading == old(loading) && result == old(result)
      ensures started ==> loading && result == JNull
      ensures file == old(file) && isDragging == old(isDragging) && alerts == old(alerts)
    {
      if file.None? {
        return false;
      }
      loading := true;
      result := JNull;
      started := true;
    }

    /**
     * A click on the analyse button: it acts only while the button is
     * enabled, and the request it starts disables the button until the
     * request completes, so a second click cannot send a second upload.
     */
    method ClickAnalyze() returns (started: bool)
      modifies this
      ensures started <==> old(AnalyzeEnabled())
      ensures started ==> loading && result == JNull && !AnalyzeEnabled()
      ensures !started ==> loading == old(loading) && result == old(result)
      ensures file == old(file) && isDragging == old(isDragging) && alerts == old(alerts)
    {
      if AnalyzeEnabled() {
        started := BeginAnalyze();
      } else {
        started := false;
      }
    }

    /**
     * The rest of handleAnalyze: the body of an ok response becomes the
     * result; a non-ok response alerts its error, except that reading `error`
     * off a null body throws and the catch alerts the TypeError instead; an
     * exception alerts its message. Loading ends on every path.
     */
    method CompleteAnalyze(outcome: Outcome)
      modifies this
      ensures !loading
      ensures outcome.Ok? ==> result == outcome.data && alerts == old(alerts)
      ensures outcome.NotOk? && !Nullish(outcome.data) ==>
        result == old(result) && alerts == old(alerts) + [UploadFailed(Or(Get(outcome.data, "error"), JStr("未知錯誤")))]
      ensures outcome.NotOk? && Nullish(outcome.data) ==>
        result == old(result) && alerts == old(alerts) + [ConnectionError(ReadErrorMessage(outcome.data))]
      ensures outcome.Failed? ==> result == old(result) && alerts == old(alerts) + [ConnectionError(outcome.message)]
      ensures file == old(file) && isDragging == old(isDragging)
    {
      match outcome {
        case Ok(data) =>
          result := data;
        case NotOk(data) =>
          if Nullish(data) {
            alerts := alerts + [ConnectionError(ReadErrorMessage(data))];
          } else {
            alerts := alerts + [UploadFailed(Or(Get(data, "error"), JStr("未知錯誤")))];
          }
        case Failed(message) =>
          alerts := alerts + [ConnectionError(message)];
      }
      loading := false;
    }
  }

  /** A whole analysis run: the result is set only for an ok response, and loading is off afterwards. */
  method AnalyzeRun(u: Uploader, outcome: Outcome) returns (started: bool)
    modifies u
    ensures started <==> old(u.file).Some?
    ensures started ==> !u.loading
    ensures started && outcome.Ok? ==> u.result == outcome.data
    ensures started && !outcome.Ok? ==> u.result == JNull
  {
    started := u.BeginAnalyze();
    if started {
      u.CompleteAnalyze(outcome);
    }
  }

  /** A backend error object is shown as an error even when it carries other fields. */
  lemma ErrorBeforeStructure(err: string, rest: map<string, Value>)
    requires err != ""
    ensures Classify(JObj(map["suggestion" := JObj(rest["error" := JStr(err)])])) == ErrorView(JStr(err))
  {
  }

  /** An unstructured reply is shown raw. */
  lemma StringIsRaw(text: string)
    requires text != ""
    ensures Classify(JObj(map["suggestion" := JStr(text)])) == RawView(text)
  {
  }

  /** An empty suggestion object takes every default: empty analysis, no sections, score 0 in the third band. */
  lemma EmptyObjectDefaults()
    ensures var v := Classify(JObj(map["suggestion" := JObj(map[])]));
      && v == Structured(JObj(map[]), JArr([]), JArr([]), JArr([]))
      && SectionsOf(v) == Shown(Sections(false, false, false, false, false))
      && Score(v.analysis) == Finite(0) && BandOf(Score(v.analysis)) == Low
  {
  }

  /** A null analysis is kept (the default applies to undefined only), and still scores 0. */
  lemma NullAnalysisScoresZero()
    ensures var v := Classify(JObj(map["suggestion" := JObj(map["analysis" := JNull])]));
      v.Structured? && v.analysis == JNull && Score(v.analysis) == Finite(0)
  {
  }

  /** The bands split the scores at 60 and 80; NaN and -Infinity are in the third band. */
  lemma BandBoundaries()
    ensures BandOf(Finite(80)) == High && BandOf(Finite(79)) == Middle
    ensures BandOf(Finite(60)) == Middle && BandOf(Finite(59)) == Low
    ensures BandOf(NaN) == Low && BandOf(Infinite(false)) == Low && BandOf(Infinite(true)) == High
  {
  }

  /** A score sent as a decimal string is banded like the number it spells. */
  lemma NumericStringScore(n: int)
    ensures Score(JObj(map["score" := JStr(IntToString(n))])) == Finite(n)
  {
    IntReadsBack(n);
  }

  /** A one-element array holding a number converts through its string form to that number. */
  lemma SingletonArrayScore(n: int)
    ensures Score(JObj(map["score" := JArr([JNum(n)])])) == Finite(n)
  {
    var v := JArr([JNum(n)]);
    assert ItemsText(v, 0) == ElementText(JNum(n));
    IntReadsBack(n);
  }

  /** An array of two or more scores converts to NaN and is shown in the third band. */
  lemma ListScoreIsLow(items: seq<Value>)
    requires |items| >= 2
    ensures Score(JObj(map["score" := JArr(items)])) == NaN
    ensures BandOf(Score(JObj(map["score" := JArr(items)]))) == Low
  {
    ManyItemsNaN(JArr(items));
  }

  /** Spaces around a numeric string are trimmed before it converts. */
  lemma PaddedStringScore()
    ensures StringNumber(" 85 ") == Finite(85) && BandOf(StringNumber(" 85 ")) == High
  {
    PaddedTrim();
    EightyFive();
  }

  lemma PaddedTrim()
    ensures JsTrim(" 85 ") == "85"
  {
    var d := "85";
    TrimTrailingSpace(" 85", ' ', IsJsSpace);
    assert " 85" + [' '] == " 85 ";
    assert " 85"[1..] == d;
    assert TrimStart(" 85", IsJsSpace) == d;
    TrimNoSpace(d);
  }

  lemma EightyFive()
    ensures UnsignedDecimal("85", false) == Finite(85)
  {
    var d := "85";
    assert DigitRun(d) == 2 by {
      assert DigitRun(d[1..]) == 1 by { assert d[1..][1..] == []; }
    }
    assert d[..2] == d && DigitsValue(d) == 85 by { assert d[..1] == "8"; }
    assert d[2..] == [];
  }

  /** A fractional score is banded by its floor: 79.5 is in the second band. */
  lemma FractionScore()
    ensures StringNumber("79.5") == Finite(79) && BandOf(StringNumber("79.5")) == Middle
  {
    var d := "79.5";
    TrimNoSpace(d);
    assert DigitRun(d) == 2 by {
      assert DigitRun(d[1..]) == 1 by { assert DigitRun(d[1..][1..]) == 0; }
    }
    assert DigitsValue("79") == 79 by { assert "79"[..1] == "7"; }
    assert d[..2] == "79" && d[2..] == ".5";
    assert UnsignedDecimal(d, false) == Finite(79);
  }

  /** A negative fraction is floored away from zero: -0.5 has floor -1. */
  lemma NegativeFractionScore()
    ensures StringNumber("-0.5") == Finite(-1)
  {
    var e := "-0.5";
    TrimNoSpace(e);
    var b := "0.5";
    assert e[1..] == b;
    assert DigitRun(b) == 1 by { assert DigitRun(b[1..]) == 0; }
    assert DigitsValue("0") == 0 by { assert "0"[..0] == []; }
    assert b[..1] == "0" && b[1..] == ".5" && ".5"[1] != '0';
    assert UnsignedDecimal(b, true) == Finite(-1);
  }

  /** "Infinity" is in the first band and a word in the third. */
  lemma WordScores()
    ensures StringNumber("Infinity") == Infinite(true) && BandOf(StringNumber("Infinity")) == High
    ensures StringNumber("abc") == NaN && BandOf(StringNumber("abc")) == Low
  {
    TrimNoSpace("Infinity");
    TrimNoSpace("abc");
    assert DigitRun("abc") == 0;
    assert "abc"[0..] == "abc";
  }
}
