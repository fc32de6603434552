/**
 * The interview preparation page: a list of questions of two kinds, the
 * "mark as practiced" action, the practiced counter, the two per-kind
 * lists and the back button of the practice area. The page state is a
 * value that each handler replaces.
 */
module InterviewPrep {
  import opened Common

  datatype Kind = Hr | Manager
  datatype Difficulty = Easy | Medium | Hard

  datatype Question = Question(id: string, kind: Kind, question: string, difficulty: Difficulty, isPracticed: bool)

  /** The ten sample questions the page starts with: five for HR, five for a manager, none practiced. */
  const SampleQuestions: seq<Question> := [
    Question("hr1", Hr, "請簡單介紹一下你自己", Easy, false),
    Question("hr2", Hr, "你為什麼想離開現在的公司？", Medium, false),
    Question("hr3", Hr, "你的職涯目標是什麼？五年後你希望達成什麼？", Medium, false),
    Question("hr4", Hr, "描述一次你與同事發生衝突的經驗，你如何處理？", Hard, false),
    Question("hr5", Hr, "你期望的薪資範圍是多少？", Hard, false),
    Question("mgr1", Manager, "請說明你在 React 專案中如何處理狀態管理？", Medium, false),
    Question("mgr2", Manager, "你如何確保程式碼品質？有什麼具體的實踐？", Medium, false),
    Question("mgr3", Manager, "描述一個你解決過最困難的技術問題", Hard, false),
    Question("mgr4", Manager, "你如何在緊迫的 deadline 下做出技術決策？", Hard, false),
    Question("mgr5", Manager, "如果要你重構一個遺留系統，你會怎麼規劃？", Hard, false)
  ]

  /** handleMarkPracticed: every question with the id is practiced, the others stay as they are. */
  function Mark(qs: seq<Question>, id: string): seq<Question> {
    if qs == [] then []
    else [if qs[0].id == id then qs[0].(isPracticed := true) else qs[0]] + Mark(qs[1..], id)
  }

  /** Array.prototype.filter. */
  function Filter(qs: seq<Question>, keep: Question -> bool): seq<Question> {
    if qs == [] then []
    else (if keep(qs[0]) then [qs[0]] else []) + Filter(qs[1..], keep)
  }

  predicate IsPracticed(q: Question) { q.isPracticed }
  predicate IsHr(q: Question) { q.kind == Hr }
  predicate IsManager(q: Question) { q.kind == Manager }

  /** practiceCount: how many questions are practiced. */
  function PracticeCount(qs: seq<Question>): nat {
    |Filter(qs, IsPracticed)|
  }

  function HrQuestions(qs: seq<Question>): seq<Question> { Filter(qs, IsHr) }
  function ManagerQuestions(qs: seq<Question>): seq<Question> { Filter(qs, IsManager) }

  /** Marking touches only the practiced flag of the questions with the id; length, ids and order are kept. */
  lemma {:induction false} MarkPointwise(qs: seq<Question>, id: string)
    ensures |Mark(qs, id)| == |qs|
    ensures forall i :: 0 <= i < |qs| ==>
      && Mark(qs, id)[i].id == qs[i].id
      && (qs[i].id == id ==> Mark(qs, id)[i] == qs[i].(isPracticed := true))
      && (qs[i].id != id ==> Mark(qs, id)[i] == qs[i])
  {
    if qs != [] {
      MarkPointwise(qs[1..], id);
      assert forall i :: 1 <= i < |qs| ==> Mark(qs, id)[i] == Mark(qs[1..], id)[i - 1];
    }
  }

  /** Marking the same question twice is the same as marking it once. */
  lemma {:induction false} MarkIdempotent(qs: seq<Question>, id: string)
    ensures Mark(Mark(qs, id), id) == Mark(qs, id)
  {
    if qs != [] {
      MarkIdempotent(qs[1..], id);
      assert Mark(qs, id)[1..] == Mark(qs[1..], id);
    }
  }

  /** A kept element is in the filtered list exactly when the predicate holds, and nothing else is. */
  lemma {:induction false} FilterMembers(qs: seq<Question>, keep: Question -> bool)
    ensures |Filter(qs, keep)| <= |qs|
    ensures forall q :: q in Filter(qs, keep) <==> q in qs && keep(q)
  {
    if qs != [] {
      FilterMembers(qs[1..], keep);
      assert qs == [qs[0]] + qs[1..];
    }
  }

  /** Filtering a concatenation filters each part in turn, so the filtered list keeps the original order. */
  lemma {:induction false} FilterAppend(a: seq<Question>, b: seq<Question>, keep: Question -> bool)
    ensures Filter(a + b, keep) == Filter(a, keep) + Filter(b, keep)
  {
    if a == [] {
      assert a + b == b;
    } else {
      var ab := a + b;
      assert ab[0] == a[0] && ab[1..] == a[1..] + b;
      FilterAppend(a[1..], b, keep);
      var h := if keep(a[0]) then [a[0]] else [];
      assert Filter(ab, keep) == h + Filter(a[1..] + b, keep);
      assert Filter(a, keep) == h + Filter(a[1..], keep);
      assert h + (Filter(a[1..], keep) + Filter(b, keep)) == (h + Filter(a[1..], keep)) + Filter(b, keep);
    }
  }

  /** The practiced count never exceeds the number of questions. */
  lemma PracticeCountBound(qs: seq<Question>)
    ensures PracticeCount(qs) <= |qs|
  {
    FilterMembers(qs, IsPracticed);
  }

  /** Marking never lowers the count, and raises it by the number of unpracticed questions carrying the id. */
  lemma {:induction false} MarkCount(qs: seq<Question>, id: string)
    ensures PracticeCount(Mark(qs, id)) == PracticeCount(qs) + |Filter(qs, (q: Question) => q.id == id && !q.isPracticed)|
    ensures PracticeCount(Mark(qs, id)) >= PracticeCount(qs)
  {
    if qs != [] {
      MarkCount(qs[1..], id);
      assert Mark(qs, id)[0] == (if qs[0].id == id then qs[0].(isPracticed := true) else qs[0]);
      assert Mark(qs, id)[1..] == Mark(qs[1..], id);
    }
  }

  /** Every question is in exactly one of the HR and manager lists, so their lengths add up. */
  lemma {:induction false} KindsLength(qs: seq<Question>)
    ensures |HrQuestions(qs)| + |ManagerQuestions(qs)| == |qs|
  {
    if qs != [] {
      KindsLength(qs[1..]);
    }
  }

  /** The HR and manager lists split the questions: together they hold every question as often as the list does. */
  lemma {:induction false} KindsPartition(qs: seq<Question>)
    ensures multiset(HrQuestions(qs)) + multiset(ManagerQuestions(qs)) == multiset(qs)
  {
    if qs != [] {
      KindsPartition(qs[1..]);
      assert qs == [qs[0]] + qs[1..];
    }
  }

  lemma {:induction false} FilterAll(qs: seq<Question>, keep: Question -> bool)
    requires forall i :: 0 <= i < |qs| ==> keep(qs[i])
    ensures Filter(qs, keep) == qs
  {
    if qs != [] {
      FilterAll(qs[1..], keep);
    }
  }

  lemma {:induction false} FilterNone(qs: seq<Question>, keep: Question -> bool)
    requires forall i :: 0 <= i < |qs| ==> !keep(qs[i])
    ensures Filter(qs, keep) == []
  {
    if qs != [] {
      FilterNone(qs[1..], keep);
    }
  }

  /** When the first k elements are kept and the rest dropped, exactly k remain. */
  lemma {:induction false} FilterBlock(qs: seq<Question>, k: nat, keep: Question -> bool)
    requires k <= |qs|
    requires forall i :: 0 <= i < k ==> keep(qs[i])
    requires forall i :: k <= i < |qs| ==> !keep(qs[i])
    ensures |Filter(qs, keep)| == k
  {
    if qs != [] {
      if k == 0 {
        FilterNone(qs, keep);
      } else {
        FilterBlock(qs[1..], k - 1, keep);
      }
    }
  }

  lemma SampleHr()
    ensures |HrQuestions(SampleQuestions)| == 5
  {
    assert |SampleQuestions| == 10;
    assert forall i :: 0 <= i < 5 ==> IsHr(SampleQuestions[i]);
    assert forall i :: 5 <= i < 10 ==> !IsHr(SampleQuestions[i]);
    FilterBlock(SampleQuestions, 5, IsHr);
  }

  /** The sample list has five questions of each kind. */
  lemma SampleKinds()
    ensures |HrQuestions(SampleQuestions)| == 5 && |ManagerQuestions(SampleQuestions)| == 5
  {
    SampleHr();
    KindsLength(SampleQuestions);
  }

  /** No sample question starts out practiced. */
  lemma SampleUnpracticed()
    ensures PracticeCount(SampleQuestions) == 0
  {
    assert |SampleQuestions| == 10;
    assert forall i :: 0 <= i < |SampleQuestions| ==> !IsPracticed(SampleQuestions[i]);
    FilterNone(SampleQuestions, IsPracticed);
  }

  /** The page: the question list, the question open in the practice area, and the typed answer. */
  datatype Page = Page(questions: seq<Question>, selected: Option<Question>, answer: string)

  const InitialPage: Page := Page(SampleQuestions, None, "")

  /** Clicking a question in either list opens a copy of it. */
  function Select(p: Page, q: Question): (r: Page)
    ensures r.selected == Some(q) && r.questions == p.questions && r.answer == p.answer
  {
    p.(selected := Some(q))
  }

  /** The back button: no answer and no open question; the list is untouched. */
  function Back(p: Page): (r: Page)
    ensures r.answer == "" && r.selected.None?
    ensures r.questions == p.questions
  {
    p.(answer := "", selected := None)
  }

  /** The mark button is disabled when the open copy says practiced. */
  predicate MarkEnabled(p: Page)
    requires p.selected.Some?
  {
    !p.selected.value.isPracticed
  }

  /** The mark button marks by the open copy's id; the open copy itself is not refreshed. */
  function ClickMark(p: Page): (r: Page)
    requires p.selected.Some?
    ensures r.selected == p.selected && r.answer == p.answer
    ensures r.questions == Mark(p.questions, p.selected.value.id)
    ensures |r.questions| == |p.questions|
    ensures forall i :: 0 <= i < |p.questions| ==>
      && r.questions[i].id == p.questions[i].id
      && r.questions[i].isPracticed == (p.questions[i].isPracticed || p.questions[i].id == p.selected.value.id)
  {
    MarkPointwise(p.questions, p.selected.value.id);
    p.(questions := Mark(p.questions, p.selected.value.id))
  }

  /**
   * Because the open copy is stale, the button stays enabled after a click;
   * a second click leaves the list as the first one did.
   */
  lemma RepeatedClick(p: Page)
    requires p.selected.Some? && MarkEnabled(p)
    ensures MarkEnabled(ClickMark(p))
    ensures ClickMark(ClickMark(p)).questions == ClickMark(p).questions
  {
    MarkIdempotent(p.questions, p.selected.value.id);
  }
}
