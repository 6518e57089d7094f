/**
  The instructions panel: the status of each step relative to the current
  index, the progress dots and label, the "Mark Step Complete" button, and the
  toggle that expands one step at a time.
 */
module InstructionsPanel {
  import opened Wrappers
  import opened Text
  import opened Integers
  import opened MockData

  datatype StepStatus = Completed | Current | Locked

  /** Steps before the current one are completed, after it locked. */
  function Status(index: nat, current: nat): (st: StepStatus)
    ensures st == Completed <==> index < current
    ensures st == Current <==> index == current
    ensures st == Locked <==> index > current
  {
    if index < current then Completed
    else if index == current then Current
    else Locked
  }

  /** One dot per step, coloured by the step's status. */
  function ProgressDots(stepCount: nat, current: nat): (dots: seq<StepStatus>)
    ensures |dots| == stepCount
    ensures forall i :: 0 <= i < stepCount ==> (dots[i] == Completed <==> i < current)
    ensures forall i :: 0 <= i < stepCount ==> (dots[i] == Locked <==> current < i)
    ensures Current in dots <==> current < stepCount
  {
    var dots := seq(stepCount, i requires 0 <= i < stepCount => Status(i, current));
    assert current < stepCount ==> dots[current] == Current;
    dots
  }

  function Count(dots: seq<StepStatus>, st: StepStatus): nat
  {
    if dots == [] then 0
    else Count(dots[..|dots| - 1], st) + (if dots[|dots| - 1] == st then 1 else 0)
  }

  /**
    There are `min(current, n)` green dots, one current dot while the index
    names a step, and the rest are locked.
   */
  lemma {:induction false} DotCounts(stepCount: nat, current: nat)
    ensures Count(ProgressDots(stepCount, current), Completed) == Min(current, stepCount)
    ensures Count(ProgressDots(stepCount, current), Current) == if current < stepCount then 1 else 0
    ensures Count(ProgressDots(stepCount, current), Locked) ==
      if current < stepCount then stepCount - current - 1 else 0
  {
    if stepCount > 0 {
      var dots := ProgressDots(stepCount, current);
      assert dots[..stepCount - 1] == ProgressDots(stepCount - 1, current);
      DotCounts(stepCount - 1, current);
    }
  }

  /** The label `{current + 1}/{steps.length}`. */
  function ProgressLabel(current: nat, stepCount: nat): (shown: string)
    ensures |shown| == |Show(current + 1)| + 1 + |Show(stepCount)|
    ensures shown[|Show(current + 1)|] == '/'
    ensures forall i :: 0 <= i < |shown| && i != |Show(current + 1)| ==> IsDigit(shown[i])
  {
    Show(current + 1) + "/" + Show(stepCount)
  }

  /** In `Show(x) + "/" + rest` the first slash sits right after the number. */
  lemma SlashAfterNumber(x: nat, rest: string)
    ensures var s := Show(x) + "/" + rest;
      && s[|Show(x)|] == '/'
      && forall i :: 0 <= i < |Show(x)| ==> s[i] != '/'
  {
    var s := Show(x) + "/" + rest;
    forall i | 0 <= i < |Show(x)|
      ensures s[i] != '/'
    {
      assert s[i] == Show(x)[i];
    }
  }

  /** The label determines both numbers: the slash separates two digit strings. */
  lemma ProgressLabelInjective(a: nat, n: nat, b: nat, m: nat)
    requires ProgressLabel(a, n) == ProgressLabel(b, m)
    ensures a == b && n == m
  {
    var sa, sb := Show(a + 1), Show(b + 1);
    var shown := ProgressLabel(a, n);
    SlashAfterNumber(a + 1, Show(n));
    SlashAfterNumber(b + 1, Show(m));
    assert |sa| == |sb|;
    assert sa == shown[..|sa|] == sb;
    ShowInjective(a + 1, b + 1);
    assert Show(n) == shown[|sa| + 1..] == Show(m);
    ShowInjective(n, m);
  }

  datatype CompleteButton = CompleteButton(enabled: bool, caption: string, payload: Option<int>)

  /**
    The button is disabled, and reads "Challenge Complete!", exactly when the
    index is past the last step; while enabled it carries the current step's id.
   */
  function CompleteButtonView(steps: seq<ChallengeStep>, current: nat): (b: CompleteButton)
    ensures b.enabled <==> current < |steps|
    ensures b.caption == "Challenge Complete!" <==> current >= |steps|
    ensures b.caption == "Mark Step Complete" <==> current < |steps|
    ensures b.payload.Some? <==> current < |steps|
    ensures b.payload.Some? ==> b.payload.value == steps[current].id
  {
    var done := current >= |steps|;
    CompleteButton(!done,
                   if done then "Challenge Complete!" else "Mark Step Complete",
                   if current < |steps| then Some(steps[current].id) else None)
  }

  /** A click reports the current step's id to the page, or nothing if the button is disabled. */
  function ClickCompleteButton(steps: seq<ChallengeStep>, current: nat): (reported: Option<int>)
    ensures reported.Some? <==> current < |steps|
    ensures reported.Some? ==> reported.value == steps[current].id
  {
    var b := CompleteButtonView(steps, current);
    if b.enabled then b.payload else None
  }

  /** The panel opens with the current step expanded. */
  function InitialExpanded(current: nat): Option<nat>
  {
    Some(current)
  }

  /**
    A click on step `index`: collapses it if it is the expanded one, otherwise
    expands it; the button of a locked step is disabled, so nothing changes.
   */
  function ClickStep(expanded: Option<nat>, index: nat, current: nat): (r: Option<nat>)
    ensures index > current ==> r == expanded
    ensures index <= current && expanded == Some(index) ==> r == None
    ensures index <= current && expanded != Some(index) ==> r == Some(index)
  {
    if Status(index, current) == Locked then expanded
    else if expanded == Some(index) then None
    else Some(index)
  }

  /** Whether step `index` shows its expanded content. */
  predicate ShowsContent(expanded: Option<nat>, index: nat, current: nat)
  {
    expanded == Some(index) && Status(index, current) != Locked
  }

  /** On mount the current step is expanded and shows its content, and every other step is folded. */
  lemma InitialExpansionShowsCurrent(current: nat, index: nat)
    ensures ShowsContent(InitialExpanded(current), index, current) <==> index == current
  {
  }

  /** At most one step is ever expanded, and a locked one never is. */
  lemma ExpandedContentOnlyUnlocked(expanded: Option<nat>, i: nat, j: nat, current: nat)
    requires ShowsContent(expanded, i, current) && ShowsContent(expanded, j, current)
    ensures i == j && i <= current
  {
  }

  /**
    Clicking the same unlocked step twice restores the previous expansion
    exactly when nothing, or that step, was expanded before; if another step was
    expanded, two clicks leave everything collapsed.
   */
  lemma ClickTwice(expanded: Option<nat>, index: nat, current: nat)
    requires index <= current
    ensures ClickStep(ClickStep(expanded, index, current), index, current) == expanded <==>
      expanded == None || expanded == Some(index)
    ensures expanded != None && expanded != Some(index) ==>
      ClickStep(ClickStep(expanded, index, current), index, current) == None
  {
  }
}
