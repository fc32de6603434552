/**
 * The side-project idea generator: the skills request built from the
 * input, the normalisation of the reply into a list of suggestions, the
 * loading flag around the request and the cards drawn for each suggestion.
 * The request's outcome is a parameter of the completion step.
 */
module SideProject {
  import opened Common
  import opened Text
  import opened Json

  /** How the request ended: a parsed body, or an exception from the network or from parsing. */
  datatype Outcome = Parsed(data: Value) | Failed

  const ConnectionAlert: string := "連線失敗，請確認後端是否啟動"

  /** The skills sent: the input cut at every comma, pieces kept as typed (spaces included). */
  function Skills(input: string): seq<string> {
    Split(input, ',')
  }

  /** The request carries one skill more than there are commas, and the pieces rejoined with commas give back the input. */
  lemma SkillsFromInput(input: string)
    ensures |Skills(input)| == Count(input, ',') + 1
    ensures Join(Skills(input), ",") == input
    ensures forall k :: 0 <= k < |Skills(input)| ==> ',' !in Skills(input)[k]
  {
    SplitCount(input, ',');
    SplitJoin(input, ',');
    SplitNoSeparator(input, ',');
  }

  /**
   * `data.suggestions || data || []`: None when reading the property throws
   * (a null body); otherwise the list candidate, which replaces the
   * suggestions only when it is an array.
   */
  function ResultList(data: Value): (r: Option<Value>)
    ensures r.None? <==> data == JNull || data == JUndefined
    ensures r.Some? && Truthy(Get(data, "suggestions")) ==> r.value == Get(data, "suggestions")
    ensures r.Some? && !Truthy(Get(data, "suggestions")) && Truthy(data) ==> r.value == data
    ensures r.Some? && !Truthy(data) ==> r.value == JArr([])
  {
    if data == JNull || data == JUndefined then None
    else Some(Or(Or(Get(data, "suggestions"), data), JArr([])))
  }

  class Generator {
    var inputSkills: string
    var loading: bool
    var suggestions: seq<Value>
    var alerts: seq<string>

    constructor()
      ensures inputSkills == "" && !loading && suggestions == [] && alerts == []
    {
      inputSkills := "";
      loading := false;
      suggestions := [];
      alerts := [];
    }

    /** The placeholder under the cards shows when nothing is loading and there is no suggestion. */
    predicate EmptyState()
      reads this
    {
      !loading && |suggestions| == 0
    }

    method Edit(text: string)
      modifies this
      ensures inputSkills == text
      ensures loading == old(loading) && suggestions == old(suggestions) && alerts == old(alerts)
    {
      inputSkills := text;
    }

    /**
     * handleGenerate up to the request: blank input sends nothing and
     * changes nothing; otherwise loading starts, the old suggestions are
     * cleared and the skills are sent.
     */
    method BeginGenerate() returns (request: Option<seq<string>>)
      modifies this
      ensures request.None? <==> JsTrim(old(inputSkills)) == ""
      ensures request.None? ==> loading == old(loading) && suggestions == old(suggestions)
      ensures request.Some? ==> request.value == Skills(old(inputSkills)) && loading && suggestions == []
      ensures inputSkills == old(inputSkills) && alerts == old(alerts)
    {
      if JsTrim(inputSkills) == "" {
        return None;
      }
      loading := true;
      suggestions := [];
      request := Some(Skills(inputSkills));
    }

    /**
     * The rest of handleGenerate: an array result replaces the suggestions,
     * any other result leaves them; a failure raises the alert. Loading ends
     * on every path.
     */
    method CompleteGenerate(outcome: Outcome)
      modifies this
      ensures !loading
      ensures outcome.Failed? ==> suggestions == old(suggestions) && alerts == old(alerts) + [ConnectionAlert]
      ensures outcome.Parsed? && ResultList(outcome.data).None? ==>
        suggestions == old(suggestions) && alerts == old(alerts) + [ConnectionAlert]
      ensures outcome.Parsed? && ResultList(outcome.data).Some? && ResultList(outcome.data).value.JArr? ==>
        suggestions == ResultList(outcome.data).value.items && alerts == old(alerts)
      ensures outcome.Parsed? && ResultList(outcome.data).Some? && !ResultList(outcome.data).value.JArr? ==>
        suggestions == old(suggestions) && alerts == old(alerts)
      ensures inputSkills == old(inputSkills)
    {
      match outcome {
        case Failed =>
          alerts := alerts + [ConnectionAlert];
        case Parsed(data) =>
          var resultList := ResultList(data);
          if resultList.None? {
            alerts := alerts + [ConnectionAlert];
          } else if resultList.value.JArr? {
            suggestions := resultList.value.items;
          }
      }
      loading := false;
    }
  }

  /**
   * A whole generation: with non-blank input the loading flag is off at the
   * end, and the suggestions are the array result or else none at all, since
   * the start cleared them.
   */
  method Generate(g: Generator, outcome: Outcome) returns (sent: bool)
    modifies g
    ensures sent <==> JsTrim(old(g.inputSkills)) != ""
    ensures sent ==> !g.loading
    ensures sent && outcome.Parsed? && ResultList(outcome.data).Some? && ResultList(outcome.data).value.JArr? ==>
      g.suggestions == ResultList(outcome.data).value.items
    ensures sent && !(outcome.Parsed? && ResultList(outcome.data).Some? && ResultList(outcome.data).value.JArr?) ==>
      g.suggestions == [] && g.EmptyState()
    ensures !sent ==> g.loading == old(g.loading) && g.suggestions == old(g.suggestions) && g.alerts == old(g.alerts)
  {
    var request := g.BeginGenerate();
    sent := request.Some?;
    if sent {
      g.CompleteGenerate(outcome);
    }
  }

  /** Both reply shapes give the same list: the wrapped one and the bare array. */
  lemma BothShapesAccepted(items: seq<Value>)
    ensures ResultList(JObj(map["suggestions" := JArr(items)])) == Some(JArr(items))
    ensures ResultList(JArr(items)) == Some(JArr(items))
  {
  }

  /** A wrapped list that is not an array is refused, even when the body holds other fields. */
  lemma NonArrayRefused(s: string)
    requires s != ""
    ensures ResultList(JObj(map["suggestions" := JStr(s)])) == Some(JStr(s))
    ensures !ResultList(JObj(map["suggestions" := JStr(s)])).value.JArr?
  {
  }

  /** What a card shows for one suggestion. */
  datatype Card = Card(difficulty: Value, name: Value, techStack: seq<Value>, features: seq<Value>)

  /** The badge's fallback difficulty and the title's fallback name. */
  const DefaultDifficulty: string := "中等"
  const DefaultName: string := "未命名專案"

  /** How many key features a card lists. */
  const MaxFeatures: nat := 2

  /** The card for one suggestion; None when the suggestion is null or undefined, where rendering throws. */
  function CardOf(project: Value): (c: Option<Card>)
    ensures c.None? <==> project == JNull || project == JUndefined
    ensures c.Some? ==> c.value.difficulty == (if Truthy(Get(project, "difficulty")) then Get(project, "difficulty") else JStr(DefaultDifficulty))
    ensures c.Some? ==> c.value.name == (if Truthy(Get(project, "project_name")) then Get(project, "project_name") else JStr(DefaultName))
    ensures c.Some? ==> |c.value.features| <= MaxFeatures
    ensures c.Some? && Get(project, "key_features").JArr? ==>
      |c.value.features| == Min(|Get(project, "key_features").items|, MaxFeatures)
      && c.value.features == Get(project, "key_features").items[..|c.value.features|]
    ensures c.Some? && !Get(project, "key_features").JArr? ==> c.value.features == []
    ensures c.Some? ==> c.value.techStack == (if Get(project, "tech_stack").JArr? then Get(project, "tech_stack").items else [])
  {
    if project == JNull || project == JUndefined then None
    else
      var features := Get(project, "key_features");
      var stack := Get(project, "tech_stack");
      Some(Card(
        Or(Get(project, "difficulty"), JStr(DefaultDifficulty)),
        Or(Get(project, "project_name"), JStr(DefaultName)),
        if stack.JArr? then stack.items else [],
        if features.JArr? then features.items[..Min(|features.items|, MaxFeatures)] else []))
  }

  /** A suggestion with none of the card's fields still draws a card: default badge, default title, no lists. */
  lemma EmptySuggestionDefaults()
    ensures CardOf(JObj(map[])) == Some(Card(JStr(DefaultDifficulty), JStr(DefaultName), [], []))
  {
  }
}
