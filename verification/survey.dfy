/**
 * The skills survey page's submit handler: it collects the answers into
 * one object keyed by question number and topic. The page is given as
 * values: the rows of the language table, one block per choice question
 * that the page holds (its title and the labels of its checked inputs, in
 * page order), the domain text and the three ranking selects.
 */
module Survey {
  import opened Common
  import opened Text

  /** The topic used when a title has no bracketed topic. */
  const OtherTopic: string := "其他"

  /** Whether some line terminator lies in s[a..b]. */
  predicate BreakBetween(s: string, a: int, b: int) {
    exists m :: a <= m < b && 0 <= m < |s| && IsLineTerminator(s[m])
  }

  /**
   * The first "]" at or after `k` reachable without crossing a line
   * terminator: what `.*?\]` matches from `k`.
   */
  function ClosingFrom(s: string, k: nat): (r: Option<nat>)
    requires k <= |s|
    ensures r.Some? ==> k <= r.value < |s| && s[r.value] == ']'
    ensures r.Some? ==> forall m :: k <= m < r.value ==> s[m] != ']' && !IsLineTerminator(s[m])
    ensures r.None? ==> forall j :: k <= j < |s| && s[j] == ']' ==> BreakBetween(s, k, j)
    decreases |s| - k
  {
    if k == |s| then None
    else if s[k] == ']' then Some(k)
    else if IsLineTerminator(s[k]) then
      assert forall j :: k < j < |s| ==> BreakBetween(s, k, j) by {
        forall j | k < j < |s| ensures BreakBetween(s, k, j) {
          assert IsLineTerminator(s[k]);
        }
      }
      None
    else
      var r := ClosingFrom(s, k + 1);
      assert r.None? ==> forall j :: k < j < |s| && s[j] == ']' ==> BreakBetween(s, k, j) by {
        if r.None? {
          forall j | k < j < |s| && s[j] == ']' ensures BreakBetween(s, k, j) {
            assert BreakBetween(s, k + 1, j);
            var m :| k + 1 <= m < j && 0 <= m < |s| && IsLineTerminator(s[m]);
            assert k <= m < j;
          }
        }
      }
      r
  }

  /**
   * Where `/\[(.*?)\]/` matches at or after `i`: the leftmost "[" that has
   * a closing "]" on the same line, paired with the first such "]".
   */
  function TopicFrom(s: string, i: nat): (r: Option<(nat, nat)>)
    requires i <= |s|
    ensures r.Some? ==> i <= r.value.0 < |s| && s[r.value.0] == '[' && ClosingFrom(s, r.value.0 + 1) == Some(r.value.1)
    ensures r.Some? ==> forall o :: i <= o < r.value.0 && s[o] == '[' ==> ClosingFrom(s, o + 1).None?
    ensures r.None? ==> forall o :: i <= o < |s| && s[o] == '[' ==> ClosingFrom(s, o + 1).None?
    decreases |s| - i
  {
    if i == |s| then None
    else if s[i] == '[' && ClosingFrom(s, i + 1).Some? then Some((i, ClosingFrom(s, i + 1).value))
    else TopicFrom(s, i + 1)
  }

  /** getTopic: the text between the first matching brackets, or the fallback topic. */
  function GetTopic(title: string): string {
    match TopicFrom(title, 0)
    case None => OtherTopic
    case Some((i, j)) => title[i + 1..j]
  }

  /** A found topic sits between a "[" and the next "]" and holds neither a "]" nor a line break. */
  lemma GetTopicFound(title: string)
    requires TopicFrom(title, 0).Some?
    ensures var (i, j) := TopicFrom(title, 0).value;
      && i < j < |title| && title[i] == '[' && title[j] == ']' && GetTopic(title) == title[i + 1..j]
      && (forall c :: c in GetTopic(title) ==> c != ']' && !IsLineTerminator(c))
  {
    var (i, j) := TopicFrom(title, 0).value;
    var t := title[i + 1..j];
    forall c | c in t ensures c != ']' && !IsLineTerminator(c) {
      var m :| 0 <= m < |t| && t[m] == c;
      assert title[i + 1 + m] == c;
    }
  }

  /** No "[" before the found one has a closing "]" on its line: the match is the leftmost. */
  lemma GetTopicLeftmost(title: string)
    requires TopicFrom(title, 0).Some?
    ensures var i := TopicFrom(title, 0).value.0;
      forall o, p :: 0 <= o < i && o < p < |title| && title[o] == '[' && title[p] == ']' ==> BreakBetween(title, o + 1, p)
  {
  }

  /** The fallback topic is used exactly when no "[" has a closing "]" on its line. */
  lemma GetTopicFallback(title: string)
    ensures TopicFrom(title, 0).None? <==>
      forall o, p :: 0 <= o < p < |title| && title[o] == '[' && title[p] == ']' ==> BreakBetween(title, o + 1, p)
    ensures TopicFrom(title, 0).None? ==> GetTopic(title) == OtherTopic
  {
    if TopicFrom(title, 0).Some? {
      var (i, j) := TopicFrom(title, 0).value;
      assert !BreakBetween(title, i + 1, j);
    }
  }

  /** A title in the page's style yields its bracketed topic. */
  lemma TopicExample()
    ensures GetTopic("Q2. [前端開發] 針對") == "前端開發"
  {
    var s := "Q2. [前端開發] 針對";
    assert s[0] != '[' && s[1] != '[' && s[2] != '[' && s[3] != '[' && s[4] == '[';
    assert ClosingFrom(s, 5) == Some(9);
  }

  /** A title without brackets falls back to the fixed topic. */
  lemma TopicFallback(title: string)
    requires '[' !in title
    ensures GetTopic(title) == OtherTopic
  {
    assert TopicFrom(title, 0).None?;
  }

  /** One row of the language table: the typed language and the chosen score. */
  datatype Row = Row(language: string, score: string)

  /** A row counts when its trimmed language and its score are both non-empty. */
  predicate Filled(r: Row) {
    JsTrim(r.language) != "" && r.score != ""
  }

  /** "language(score)" with the language trimmed. */
  function Part(r: Row): string {
    JsTrim(r.language) + "(" + r.score + ")"
  }

  /** The rendering of the kept elements, in order (a forEach that pushes under a condition). */
  function Kept<T>(xs: seq<T>, keep: T -> bool, render: T -> string): seq<string> {
    if xs == [] then [] else (if keep(xs[0]) then [render(xs[0])] else []) + Kept(xs[1..], keep, render)
  }

  /** Keeping from two runs keeps from the first run, then from the second. */
  lemma {:induction false} KeptAppend<T>(a: seq<T>, b: seq<T>, keep: T -> bool, render: T -> string)
    ensures Kept(a + b, keep, render) == Kept(a, keep, render) + Kept(b, keep, render)
  {
    if a == [] {
      assert a + b == b;
    } else {
      assert (a + b)[0] == a[0];
      assert (a + b)[1..] == a[1..] + b;
      KeptAppend(a[1..], b, keep, render);
    }
  }

  /** A dropped element contributes nothing and does not disturb the others. */
  lemma KeptSkips<T>(a: seq<T>, x: T, b: seq<T>, keep: T -> bool, render: T -> string)
    requires !keep(x)
    ensures Kept(a + [x] + b, keep, render) == Kept(a, keep, render) + Kept(b, keep, render)
  {
    assert a + [x] + b == a + ([x] + b);
    KeptAppend(a, [x] + b, keep, render);
    assert ([x] + b)[1..] == b;
  }

  /** Keeping one element more. */
  lemma KeptStep<T>(xs: seq<T>, i: nat, keep: T -> bool, render: T -> string)
    requires i < |xs|
    ensures Kept(xs[..i + 1], keep, render) == Kept(xs[..i], keep, render) + (if keep(xs[i]) then [render(xs[i])] else [])
  {
    assert xs[..i + 1] == xs[..i] + [xs[i]];
    KeptAppend(xs[..i], [xs[i]], keep, render);
  }

  /** At most one result per element, and exactly one each when every element is kept. */
  lemma {:induction false} KeptCount<T>(xs: seq<T>, keep: T -> bool, render: T -> string)
    ensures |Kept(xs, keep, render)| <= |xs|
    ensures (forall k :: 0 <= k < |xs| ==> keep(xs[k])) ==> |Kept(xs, keep, render)| == |xs|
  {
    if xs != [] {
      KeptCount(xs[1..], keep, render);
    }
  }

  /** The parts of the filled rows, in row order. */
  function Q1Parts(rows: seq<Row>): seq<string> {
    Kept(rows, Filled, Part)
  }

  /** An unfilled row contributes nothing and does not disturb the others, and the rows' parts keep the rows' order. */
  lemma Q1PartsOrder(a: seq<Row>, r: Row, b: seq<Row>)
    ensures Q1Parts(a + b) == Q1Parts(a) + Q1Parts(b)
    ensures !Filled(r) ==> Q1Parts(a + [r] + b) == Q1Parts(a) + Q1Parts(b)
  {
    KeptAppend(a, b, Filled, Part);
    if !Filled(r) {
      KeptSkips(a, r, b, Filled, Part);
    }
  }

  /** There is at most one part per row, and every filled row gives one. */
  lemma Q1PartsCount(rows: seq<Row>)
    ensures |Q1Parts(rows)| <= |rows|
    ensures (forall k :: 0 <= k < |rows| ==> Filled(rows[k])) ==> |Q1Parts(rows)| == |rows|
  {
    KeptCount(rows, Filled, Part);
  }

  /** The language answer: the parts joined by ", ". */
  method Q1Answer(rows: seq<Row>) returns (answer: string)
    ensures answer == Join(Q1Parts(rows), ", ")
  {
    var parts: seq<string> := [];
    var i := 0;
    while i < |rows|
      invariant 0 <= i <= |rows|
      invariant parts == Q1Parts(rows[..i])
    {
      var row := rows[i];
      if Filled(row) {
        parts := parts + [Part(row)];
      }
      KeptStep(rows, i, Filled, Part);
      i := i + 1;
    }
    assert rows[..i] == rows;
    answer := Join(parts, ", ");
  }

  const Unanswered: string := "未作答"

  /** A choice answer: none checked, one checked (its trimmed label), or the trimmed labels joined by "; ". */
  function ChoiceAnswer(labels: seq<string>): string {
    if |labels| == 0 then Unanswered
    else if |labels| == 1 then JsTrim(labels[0])
    else Join(seq(|labels|, k requires 0 <= k < |labels| => JsTrim(labels[k])), "; ")
  }

  /** The single-answer case is the joined form of one label, so any answered question is its trimmed labels joined by "; ". */
  lemma ChoiceAnswerJoins(labels: seq<string>)
    ensures labels == [] ==> ChoiceAnswer(labels) == Unanswered
    ensures labels != [] ==> ChoiceAnswer(labels) == Join(seq(|labels|, k requires 0 <= k < |labels| => JsTrim(labels[k])), "; ")
  {
    if |labels| == 1 {
      assert seq(|labels|, k requires 0 <= k < |labels| => JsTrim(labels[k])) == [JsTrim(labels[0])];
    }
  }

  /** The key of a question: its number, "_", its topic. */
  function Key(qid: string, topic: string): string {
    qid + "_" + topic
  }

  /** Different question numbers without "_" give different keys, whatever the topics. */
  lemma KeyInjective(q1: string, t1: string, q2: string, t2: string)
    requires '_' !in q1 && '_' !in q2 && q1 != q2
    ensures Key(q1, t1) != Key(q2, t2)
  {
    var k1, k2 := Key(q1, t1), Key(q2, t2);
    if |q1| == |q2| {
      var m :| 0 <= m < |q1| && q1[m] != q2[m];
      assert k1[m] == q1[m] && k2[m] == q2[m];
    } else if |q1| < |q2| {
      assert k1[|q1|] == '_' && k2[|q1|] == q2[|q1|];
      assert q2[|q1|] in q2;
    } else {
      assert k2[|q2|] == '_' && k1[|q2|] == q1[|q2|];
      assert q1[|q2|] in q1;
    }
  }

  /** The domain answer: the trimmed text, or "無" when that is empty. */
  function Q8Answer(text: string): (r: string)
    ensures r != ""
    ensures JsTrim(text) != "" ==> r == JsTrim(text)
  {
    if JsTrim(text) != "" then JsTrim(text) else "無"
  }

  /** The ranking parts from position `pos` on: each chosen value prefixed with its own position; unchosen ones are dropped. */
  function Q20Parts(values: seq<string>, pos: nat): seq<string> {
    if values == [] then []
    else (if values[0] != "" then [NatToString(pos) + "." + values[0]] else []) + Q20Parts(values[1..], pos + 1)
  }

  /** Number of non-empty values. */
  function Chosen(values: seq<string>): nat {
    if values == [] then 0 else (if values[0] != "" then 1 else 0) + Chosen(values[1..])
  }

  /** One part per chosen value, and the k-th value, when chosen, carries position pos + k. */
  lemma {:induction false} Q20PartsMeaning(values: seq<string>, pos: nat)
    ensures |Q20Parts(values, pos)| == Chosen(values)
    ensures forall k :: 0 <= k < |values| && values[k] != "" ==>
      NatToString(pos + k) + "." + values[k] in Q20Parts(values, pos)
    decreases |values|
  {
    if values != [] {
      Q20PartsMeaning(values[1..], pos + 1);
      forall k | 1 <= k < |values| && values[k] != ""
        ensures NatToString(pos + k) + "." + values[k] in Q20Parts(values, pos)
      {
        assert values[1..][k - 1] == values[k];
        assert pos + 1 + (k - 1) == pos + k;
      }
    }
  }

  /** The ranking answer: the parts joined by ", ", positions counted from 1. */
  function Q20Answer(values: seq<string>): string {
    Join(Q20Parts(values, 1), ", ")
  }

  /** An unchosen middle value leaves a gap in the positions: they are not renumbered. */
  lemma Q20KeepsPositions()
    ensures Q20Answer(["Financial", "", "Culture"]) == "1.Financial, 3.Culture"
  {
    var v := ["Financial", "", "Culture"];
    assert NatToString(1) == "1" && NatToString(3) == "3";
    assert NatToString(1) + "." + "Financial" == "1.Financial";
    assert NatToString(3) + "." + "Culture" == "3.Culture";
    assert v[1..][1..] == ["Culture"] && v[1..][1..][1..] == [];
    assert Q20Parts(v[1..][1..], 3) == ["3.Culture"];
    assert Q20Parts(v[1..], 2) == ["3.Culture"];
    assert Q20Parts(v, 1) == ["1.Financial", "3.Culture"];
    assert ["1.Financial", "3.Culture"][1..] == ["3.Culture"];
  }

  /** One choice question on the page: its title and the labels of its checked inputs. */
  datatype Block = Block(title: string, checked: seq<string>)

  /** The choice questions, in the order they are read. */
  const SimpleQuestions: seq<string> := [
    "Q2", "Q3", "Q4", "Q5", "Q6", "Q7",
    "Q9", "Q10", "Q11", "Q12", "Q13", "Q14", "Q15",
    "Q16", "Q17", "Q18", "Q19", "Q21", "Q22", "Q23"
  ]

  const Q1Key: string := Key("Q1", "核心語言")
  const Q8Key: string := Key("Q8", "領域專精")
  const Q20Key: string := Key("Q20", "價值觀排序")

  /** No choice question number holds "_" or is one of the three fixed questions. */
  lemma SimpleQuestionsDistinct()
    ensures forall q :: q in SimpleQuestions ==> '_' !in q && q != "Q1" && q != "Q8" && q != "Q20"
  {
  }

  /** The key a choice question present on the page is stored under. */
  function ChoiceKey(qid: string, containers: map<string, Block>): string
    requires qid in containers
  {
    Key(qid, GetTopic(containers[qid].title))
  }

  /**
   * The answers the loop over the choice questions stores, question by
   * question in list order: each question present on the page writes its
   * answer under its key.
   */
  function Stored(qids: seq<string>, containers: map<string, Block>, data0: map<string, string>): map<string, string> {
    if qids == [] then data0
    else
      var q := qids[|qids| - 1];
      var data := Stored(qids[..|qids| - 1], containers, data0);
      if q in containers then data[ChoiceKey(q, containers) := ChoiceAnswer(containers[q].checked)] else data
  }

  /** The loop over the choice questions stores exactly what Stored describes. */
  method CollectChoices(qids: seq<string>, containers: map<string, Block>, data0: map<string, string>)
    returns (data: map<string, string>)
    requires forall q :: q in qids ==> '_' !in q && q != "Q1"
    requires Q1Key in data0
    ensures data == Stored(qids, containers, data0)
    ensures Q1Key in data && data[Q1Key] == data0[Q1Key]
    ensures forall q :: q in qids && q in containers ==>
      ChoiceKey(q, containers) in data && data[ChoiceKey(q, containers)] == ChoiceAnswer(containers[q].checked)
    ensures data.Keys == data0.Keys + ChoiceKeys(qids, containers)
  {
    data := data0;
    var i := 0;
    while i < |qids|
      invariant 0 <= i <= |qids|
      invariant data == Stored(qids[..i], containers, data0)
    {
      var qid := qids[i];
      assert qids[..i + 1][..i] == qids[..i];
      if qid in containers {
        var key := Key(qid, GetTopic(containers[qid].title));
        data := data[key := ChoiceAnswer(containers[qid].checked)];
      }
      i := i + 1;
    }
    assert qids[..i] == qids;
    StoredKeepsQ1(qids, containers, data0);
    StoredAnswers(qids, containers, data0);
    StoredKeys(qids, containers, data0);
  }

  /** The keys of the listed questions that are present on the page, gathered in list order. */
  function ChoiceKeys(qids: seq<string>, containers: map<string, Block>): set<string> {
    if qids == [] then {}
    else
      var q := qids[|qids| - 1];
      ChoiceKeys(qids[..|qids| - 1], containers) + (if q in containers then {ChoiceKey(q, containers)} else {})
  }

  /** A key is gathered exactly when it belongs to a listed question present on the page. */
  lemma {:induction false} ChoiceKeysMembers(qids: seq<string>, containers: map<string, Block>, k: string)
    ensures k in ChoiceKeys(qids, containers) <==> exists q :: q in qids && q in containers && k == ChoiceKey(q, containers)
  {
    if qids != [] {
      var init := qids[..|qids| - 1];
      ChoiceKeysMembers(init, containers, k);
      assert qids == init + [qids[|qids| - 1]];
    }
  }

  /** The stored keys are the initial ones plus the keys of the questions present on the page. */
  lemma {:induction false} StoredKeys(qids: seq<string>, containers: map<string, Block>, data0: map<string, string>)
    ensures Stored(qids, containers, data0).Keys == data0.Keys + ChoiceKeys(qids, containers)
  {
    if qids != [] {
      StoredKeys(qids[..|qids| - 1], containers, data0);
    }
  }

  /** No choice question overwrites the language answer. */
  lemma {:induction false} StoredKeepsQ1(qids: seq<string>, containers: map<string, Block>, data0: map<string, string>)
    requires forall q :: q in qids ==> '_' !in q && q != "Q1"
    requires Q1Key in data0
    ensures Q1Key in Stored(qids, containers, data0) && Stored(qids, containers, data0)[Q1Key] == data0[Q1Key]
  {
    if qids != [] {
      var q := qids[|qids| - 1];
      var init := qids[..|qids| - 1];
      assert forall p :: p in init ==> p in qids;
      StoredKeepsQ1(init, containers, data0);
      if q in containers {
        KeyInjective("Q1", "核心語言", q, GetTopic(containers[q].title));
      }
    }
  }

  /**
   * Every question present on the page ends with its own answer under its
   * key: a later question never overwrites it, since different question
   * numbers give different keys.
   */
  lemma {:induction false} StoredAnswers(qids: seq<string>, containers: map<string, Block>, data0: map<string, string>)
    requires forall q :: q in qids ==> '_' !in q
    ensures forall q :: q in qids && q in containers ==>
      ChoiceKey(q, containers) in Stored(qids, containers, data0)
      && Stored(qids, containers, data0)[ChoiceKey(q, containers)] == ChoiceAnswer(containers[q].checked)
  {
    if qids != [] {
      var last := qids[|qids| - 1];
      var init := qids[..|qids| - 1];
      assert qids == init + [last];
      StoredAnswers(init, containers, data0);
      forall q | q in qids && q in containers
        ensures ChoiceKey(q, containers) in Stored(qids, containers, data0)
          && Stored(qids, containers, data0)[ChoiceKey(q, containers)] == ChoiceAnswer(containers[q].checked)
      {
        if q != last && last in containers {
          KeyInjective(q, GetTopic(containers[q].title), last, GetTopic(containers[last].title));
        }
      }
    }
  }

  /** Storing under a fixed question's key keeps every choice answer already stored. */
  lemma StoreKeepsChoices(qids: seq<string>, containers: map<string, Block>, data: map<string, string>, qid: string, topic: string, v: string)
    requires forall q :: q in qids ==> '_' !in q && q != qid
    requires '_' !in qid
    requires forall q :: q in qids && q in containers ==>
      ChoiceKey(q, containers) in data && data[ChoiceKey(q, containers)] == ChoiceAnswer(containers[q].checked)
    ensures forall q :: q in qids && q in containers ==>
      ChoiceKey(q, containers) in data[Key(qid, topic) := v]
      && data[Key(qid, topic) := v][ChoiceKey(q, containers)] == ChoiceAnswer(containers[q].checked)
  {
    forall q | q in qids && q in containers
      ensures ChoiceKey(q, containers) != Key(qid, topic)
    {
      KeyInjective(q, GetTopic(containers[q].title), qid, topic);
    }
  }

  /**
   * The submit handler's collection step: the language answer, every choice
   * question present on the page under its own key, the domain answer and
   * the ranking answer.
   */
  method Collect(rows: seq<Row>, containers: map<string, Block>, q8: string, q20: seq<string>)
    returns (data: map<string, string>)
    ensures Q1Key in data && data[Q1Key] == Join(Q1Parts(rows), ", ")
    ensures Q8Key in data && data[Q8Key] == Q8Answer(q8)
    ensures Q20Key in data && data[Q20Key] == Q20Answer(q20)
    ensures forall q :: q in SimpleQuestions && q in containers ==>
      ChoiceKey(q, containers) in data && data[ChoiceKey(q, containers)] == ChoiceAnswer(containers[q].checked)
    ensures data.Keys == {Q1Key, Q8Key, Q20Key} + ChoiceKeys(SimpleQuestions, containers)
  {
    SimpleQuestionsDistinct();
    var q1 := Q1Answer(rows);
    data := map[Q1Key := q1];
    data := CollectChoices(SimpleQuestions, containers, data);
    KeyInjective("Q1", "核心語言", "Q8", "領域專精");
    KeyInjective("Q1", "核心語言", "Q20", "價值觀排序");
    KeyInjective("Q8", "領域專精", "Q20", "價值觀排序");
    StoreKeepsChoices(SimpleQuestions, containers, data, "Q8", "領域專精", Q8Answer(q8));
    data := data[Q8Key := Q8Answer(q8)];
    StoreKeepsChoices(SimpleQuestions, containers, data, "Q20", "價值觀排序", Q20Answer(q20));
    data := data[Q20Key := Q20Answer(q20)];
  }
}
