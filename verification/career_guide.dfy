/**
 * The floating career guide: a four-step tour shown in a panel that opens
 * by itself after a delay, can be closed and reopened, and moves through
 * its steps with one button. The panel also shows one progress dot per
 * step.
 */
module CareerGuide {
  /** One step of the tour; the icon and the description are display only. */
  datatype GuideStep = GuideStep(id: string, title: string, action: string)

  const GuideSteps: seq<GuideStep> := [
    GuideStep("welcome", "歡迎來到 CareerPilot！", "開始導覽"),
    GuideStep("upload", "AI履歷優化", "下一步"),
    GuideStep("match", "職缺匹配", "下一步"),
    GuideStep("grow", "持續成長", "結束導覽")
  ]

  /** The step the action button leads to: the following one, or back to the first after the last. */
  function NextStep(step: nat): (r: nat)
    ensures r < |GuideSteps|
    ensures step < |GuideSteps| - 1 ==> r == step + 1
    ensures step >= |GuideSteps| - 1 ==> r == 0
  {
    if step < |GuideSteps| - 1 then step + 1 else 0
  }

  /** The step after `k` presses of the action button. */
  function NextTimes(step: nat, k: nat): nat
    decreases k
  {
    if k == 0 then step else NextTimes(NextStep(step), k - 1)
  }

  /** Whether the panel is still open after `k` presses: the press made on the last step closes it. */
  function OpenAfter(open: bool, step: nat, k: nat): bool
    decreases k
  {
    if k == 0 then open
    else OpenAfter(if step < |GuideSteps| - 1 then open else false, NextStep(step), k - 1)
  }

  /** From any step the presses cycle through the four steps in order. */
  lemma {:induction false} NextTimesCycles(step: nat, k: nat)
    requires step < |GuideSteps|
    ensures NextTimes(step, k) == (step + k) % |GuideSteps|
    decreases k
  {
    if k > 0 {
      NextTimesCycles(NextStep(step), k - 1);
      if step < |GuideSteps| - 1 {
        assert NextStep(step) + (k - 1) == step + k;
      } else {
        assert step + k == |GuideSteps| + (k - 1);
      }
    }
  }

  /** The panel stays open exactly as long as the presses have not gone past the last step. */
  lemma {:induction false} OpenAfterPresses(open: bool, step: nat, k: nat)
    requires step < |GuideSteps|
    ensures OpenAfter(open, step, k) <==> open && step + k < |GuideSteps|
    decreases k
  {
    if k > 0 {
      OpenAfterPresses(if step < |GuideSteps| - 1 then open else false, NextStep(step), k - 1);
    }
  }

  /** The state of one progress dot. */
  datatype Dot = Done | Now | Pending

  /** The dot of step `index` while `current` is shown. */
  function DotOf(index: nat, current: nat): Dot {
    if index == current then Now else if index < current then Done else Pending
  }

  /** The four dots. */
  function Dots(current: nat): (ds: seq<Dot>)
    ensures |ds| == |GuideSteps|
  {
    seq(|GuideSteps|, i requires 0 <= i => DotOf(i, current))
  }

  /** Exactly one dot is current, the dots before it are done and those after it pending. */
  lemma DotsAroundCurrent(current: nat)
    requires current < |GuideSteps|
    ensures Dots(current)[current] == Now
    ensures forall i :: 0 <= i < |GuideSteps| && Dots(current)[i] == Now ==> i == current
    ensures forall i :: 0 <= i < current ==> Dots(current)[i] == Done
    ensures forall i :: current < i < |GuideSteps| ==> Dots(current)[i] == Pending
  {
  }

  class Guide {
    var isOpen: bool
    var currentStep: nat

    /** The step always names one of the tour's steps. */
    predicate Valid()
      reads this
    {
      currentStep < |GuideSteps|
    }

    constructor()
      ensures Valid() && !isOpen && currentStep == 0
    {
      isOpen := false;
      currentStep := 0;
    }

    /** The step the panel shows. */
    function CurrentGuide(): (g: GuideStep)
      requires Valid()
      reads this
      ensures g in GuideSteps
    {
      GuideSteps[currentStep]
    }

    /** The mount timer: the panel opens. */
    method ShowAfterDelay()
      requires Valid()
      modifies this
      ensures Valid() && isOpen && currentStep == old(currentStep)
    {
      isOpen := true;
    }

    /** handleNext: the next step, or on the last step the panel closes and the tour starts over. */
    method Next()
      requires Valid()
      modifies this
      ensures Valid()
      ensures currentStep == NextStep(old(currentStep))
      ensures old(currentStep) < |GuideSteps| - 1 ==> isOpen == old(isOpen)
      ensures old(currentStep) == |GuideSteps| - 1 ==> !isOpen && currentStep == 0
    {
      if currentStep < |GuideSteps| - 1 {
        currentStep := currentStep + 1;
      } else {
        isOpen := false;
        currentStep := 0;
      }
    }

    /** The close button: the panel closes and the step is kept. */
    method Close()
      requires Valid()
      modifies this
      ensures Valid() && !isOpen && currentStep == old(currentStep)
    {
      isOpen := false;
    }

    /** The round button shown while closed: the panel opens where the tour was left. */
    method Open()
      requires Valid()
      modifies this
      ensures Valid() && isOpen && currentStep == old(currentStep)
    {
      isOpen := true;
    }
  }

  /** Closing and reopening resumes the tour on the same step. */
  method CloseThenOpen(g: Guide)
    requires g.Valid()
    modifies g
    ensures g.Valid() && g.isOpen && g.currentStep == old(g.currentStep)
    ensures g.CurrentGuide() == old(g.CurrentGuide())
  {
    g.Close();
    g.Open();
  }

  /** The last step's button ends the tour and the first step's starts it. */
  lemma StepActions()
    ensures GuideSteps[0].action == "開始導覽"
    ensures GuideSteps[|GuideSteps| - 1].action == "結束導覽"
    ensures forall i :: 0 < i < |GuideSteps| - 1 ==> GuideSteps[i].action == "下一步"
  {
  }
}
