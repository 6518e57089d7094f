/**
  One attempt at a challenge, with the page's React state lifted into the
  `Attempt` record and each handler written as a transition on it: resolving
  the challenge from the route, the reset on a challenge change, keyword
  validation of a run, the visualization a passing run triggers, the traversal
  animation, and the "Mark Step Complete" progression with its XP credit.
 */
module ChallengePage {
  import opened Wrappers
  import opened Text
  import opened Integers
  import opened MockData
  import opened LinkedListVisualization
  import InstructionsPanel
  import CodeEditor

  /** A created node's value, `Math.floor(Math.random() * 100)`: any integer in [0, 100). */
  type NodeValue = v: int | 0 <= v < 100

  /** The node the page seeds a data-structures challenge with, and the value a passing run shows when there are no nodes. */
  const DemoValue: int := 42

  /** The terminal text after a run: a pass showing one node's data, or the assertion failure. */
  datatype Output = Passed(shownData: int) | Failed

  datatype Attempt = Attempt(
    challenge: Challenge,
    code: string,
    stepIndex: nat,
    showHint: bool,
    nodes: seq<int>,
    visualStep: VisualStep,
    traverseIndex: int,
    showSuccess: bool,
    earnedXP: nat,
    output: Option<Output>,
    isOutputError: bool)

  // ---------------------------------------------------------------------------
  // Opening a challenge
  // ---------------------------------------------------------------------------

  /** The challenge the route names, falling back to the linked-list introduction. */
  function ResolveChallenge(catalogue: seq<Challenge>, id: Option<string>): (c: Challenge)
    ensures id.Some? && GetChallenge(catalogue, id.value).Some? ==> c.id == id.value && c in catalogue
    ensures id.None? || GetChallenge(catalogue, id.value).None? ==> c == LinkedListChallenge
    ensures id.Some? && GetChallenge(catalogue, id.value).Some? ==> c == GetChallenge(catalogue, id.value).value
    ensures id.Some? && c != LinkedListChallenge ==>
      exists k :: 0 <= k < |catalogue| && catalogue[k] == c && forall j :: 0 <= j < k ==> catalogue[j].id != id.value
  {
    if id.None? then LinkedListChallenge
    else match GetChallenge(catalogue, id.value)
      case Some(c) => c
      case None => LinkedListChallenge
  }

  /** In the generated catalogue every authored id resolves to its own challenge. */
  lemma ResolveAuthored(catalogue: seq<Challenge>, draw: nat -> ChallengeDraw, k: nat)
    requires GeneratedCatalogue(catalogue, draw)
    requires k < |AuthoredChallenges|
    ensures ResolveChallenge(catalogue, Some(AuthoredChallenges[k].id)) == AuthoredChallenges[k]
  {
    assert catalogue[..6] == FixedChallenges;
    assert catalogue[k] == AuthoredChallenges[k];
    var id := AuthoredChallenges[k].id;
    var found := GetChallenge(catalogue, id);
    var m :| 0 <= m < |catalogue| && catalogue[m] == found.value && forall j :: 0 <= j < m ==> catalogue[j].id != id;
    if m != k {
      GeneratedIdsDistinct(catalogue, draw, if m < k then m else k, if m < k then k else m);
    }
  }

  /** `getInitialCodeStr`: the JavaScript template for JavaScript challenges, otherwise the Python one. */
  function InitialCode(c: Challenge): (code: string)
    ensures c.category == "JavaScript" ==> code == CodeTemplate(JavaScript)
    ensures c.category != "JavaScript" ==> code == CodeTemplate(Python)
  {
    if c.category == "Python" then CodeTemplate(Python)
    else if c.category == "JavaScript" then CodeTemplate(JavaScript)
    else CodeTemplate(Python)
  }

  /**
    The state right after the page mounts: the initial `useState` values, then
    the reset effect, then the effect that seeds a data-structures challenge
    with one demo node.
   */
  function Open(c: Challenge): (s: Attempt)
    ensures s.challenge == c && s.code == InitialCode(c)
    ensures s.stepIndex == 0 && s.earnedXP == 0 && !s.showSuccess && !s.showHint
    ensures s.nodes == (if c.category == DataStructures then [DemoValue] else [])
    ensures s.visualStep == Idle && s.traverseIndex == -1
    ensures s.output.None? && !s.isOutputError
  {
    Attempt(c, InitialCode(c), 0, false,
            if c.category == DataStructures then [DemoValue] else [],
            Idle, -1, false, 0, None, false)
  }

  /**
    The route now names challenge `c`. If its id is unchanged the effects do not
    fire. Otherwise everything but the hint toggle is reset; the demo node is
    seeded again only when the category changed too and the nodes the page held
    before the reset were empty.
   */
  function ChangeChallenge(s: Attempt, c: Challenge): (r: Attempt)
    ensures r.challenge == c
    ensures c.id == s.challenge.id ==> r == s.(challenge := c)
    ensures c.id != s.challenge.id ==>
      && r.stepIndex == 0 && r.earnedXP == 0 && !r.showSuccess
      && r.visualStep == Idle && r.traverseIndex == -1
      && r.output.None? && !r.isOutputError
      && r.code == InitialCode(c) && r.showHint == s.showHint
      && (r.nodes == [DemoValue] <==>
            c.category == DataStructures && s.challenge.category != DataStructures && s.nodes == [])
      && (r.nodes != [DemoValue] ==> r.nodes == [])
  {
    if c.id == s.challenge.id then
      s.(challenge := c)
    else
      var seeded := c.category != s.challenge.category && |s.nodes| == 0 && c.category == DataStructures;
      Attempt(c, InitialCode(c), 0, s.showHint,
              if seeded then [DemoValue] else [],
              Idle, -1, false, 0, None, false)
  }

  /** `handleCodeChange`: only the page's copy of the code changes. */
  /**
    Switching to another challenge is opening it afresh, except that the hint
    panel stays as it was and the demo node is seeded only when the list is
    empty and the category changes to data structures. So the switch matches a
    fresh open exactly when the hint is hidden and no seeding is lost; in
    particular, moving between two data-structures challenges leaves no node.
   */
  lemma SwitchIsReopen(s: Attempt, c: Challenge)
    requires c.id != s.challenge.id
    ensures ChangeChallenge(s, c).(showHint := false, nodes := Open(c).nodes) == Open(c)
    ensures ChangeChallenge(s, c) == Open(c) <==>
      !s.showHint && (c.category == DataStructures ==> s.challenge.category != DataStructures && s.nodes == [])
    ensures c.category == DataStructures && s.challenge.category == DataStructures ==>
      ChangeChallenge(s, c).nodes == [] != Open(c).nodes
  {
  }

  function EditCode(s: Attempt, code: string): (r: Attempt)
    ensures r.code == code
    ensures r.(code := s.code) == s
  {
    s.(code := code)
  }

  // ---------------------------------------------------------------------------
  // Validation
  // ---------------------------------------------------------------------------

  /** `keywords.some(k => loweredCode.includes(k.toLowerCase()))`, front to back. */
  function AnyKeywordIn(loweredCode: string, keywords: seq<string>): bool
  {
    |keywords| > 0 &&
    (Contains(loweredCode, ToLower(keywords[0])) || AnyKeywordIn(loweredCode, keywords[1..]))
  }

  /** `validateCode`: an index past the steps never validates. */
  function Validate(c: Challenge, code: string, step: int): (valid: bool)
    ensures valid ==> 0 <= step < |c.steps| && |c.steps[step].expectedCode| > 0
  {
    if 0 <= step < |c.steps| then AnyKeywordIn(ToLower(code), c.steps[step].expectedCode)
    else false
  }

  lemma {:induction false} AnyKeywordInIff(loweredCode: string, keywords: seq<string>)
    ensures AnyKeywordIn(loweredCode, keywords) <==>
      exists k :: 0 <= k < |keywords| && Contains(loweredCode, ToLower(keywords[k]))
  {
    if |keywords| > 0 {
      AnyKeywordInIff(loweredCode, keywords[1..]);
      if AnyKeywordIn(loweredCode, keywords[1..]) {
        var k :| 0 <= k < |keywords| - 1 && Contains(loweredCode, ToLower(keywords[1..][k]));
        assert keywords[1..][k] == keywords[k + 1];
      }
      forall k | 0 < k < |keywords| && Contains(loweredCode, ToLower(keywords[k]))
        ensures AnyKeywordIn(loweredCode, keywords[1..])
      {
        assert keywords[1..][k - 1] == keywords[k];
      }
    }
  }

  /**
    A run validates exactly when the step index names a step and some keyword
    of that step, lower-cased, occurs in the lower-cased code.
   */
  lemma ValidateIffSomeKeyword(c: Challenge, code: string, step: int)
    ensures Validate(c, code, step) <==>
      && 0 <= step < |c.steps|
      && exists k :: 0 <= k < |c.steps[step].expectedCode| &&
           Occurs(ToLower(code), ToLower(c.steps[step].expectedCode[k]))
  {
    if 0 <= step < |c.steps| {
      var kws := c.steps[step].expectedCode;
      AnyKeywordInIff(ToLower(code), kws);
      forall k | 0 <= k < |kws|
        ensures Contains(ToLower(code), ToLower(kws[k])) <==> Occurs(ToLower(code), ToLower(kws[k]))
      {
        ContainsIffOccurs(ToLower(code), ToLower(kws[k]));
      }
    }
  }

  /** A step with no keywords never validates, whatever the code. */
  lemma EmptyKeywordsNeverValidate(c: Challenge, code: string, step: int)
    requires 0 <= step < |c.steps| && c.steps[step].expectedCode == []
    ensures !Validate(c, code, step)
  {
  }

  /** Only the letters' case is ignored: a run validates iff the same run in lower case does. */
  lemma ValidateIgnoresCase(c: Challenge, code: string, step: int)
    ensures Validate(c, code, step) == Validate(c, ToLower(code), step)
  {
    ToLowerIdempotent(code);
  }

  /** The empty program passes a step only if that step has an empty keyword. */
  lemma EmptyCodeNeedsEmptyKeyword(c: Challenge, step: int)
    requires Validate(c, "", step)
    ensures exists k :: 0 <= k < |c.steps[step].expectedCode| && c.steps[step].expectedCode[k] == ""
  {
    var kws := c.steps[step].expectedCode;
    AnyKeywordInIff(ToLower(""), kws);
    var k :| 0 <= k < |kws| && Contains(ToLower(""), ToLower(kws[k]));
    ContainsNotLonger(ToLower(""), ToLower(kws[k]));
  }

  const PythonTemplateLines: seq<string> := [
    "# Python - Linked List Node\n",
    "class Node:\n",
    "    def __init__(self, data):\n",
    "        self.data = data\n",
    "        self.next = None\n",
    "\n",
    "# Create your first node here\n"]

  lemma PythonTemplateIsItsLines()
    ensures Concat(PythonTemplateLines) == PythonTemplate
  {
    var lines := PythonTemplateLines;
    assert Concat(lines[..1]) == lines[0] by {
      assert Concat(lines[..1]) == Concat(lines[..0]) + lines[0];
    }
    assert Concat(lines[..2]) == lines[0] + lines[1] by { assert lines[..2][..1] == lines[..1]; }
    assert Concat(lines[..3]) == lines[0] + lines[1] + lines[2] by { assert lines[..3][..2] == lines[..2]; }
    assert Concat(lines[..4]) == lines[0] + lines[1] + lines[2] + lines[3] by { assert lines[..4][..3] == lines[..3]; }
    assert Concat(lines[..5]) == lines[0] + lines[1] + lines[2] + lines[3] + lines[4] by {
      assert lines[..5][..4] == lines[..4];
    }
    assert Concat(lines[..6]) == lines[0] + lines[1] + lines[2] + lines[3] + lines[4] + lines[5] by {
      assert lines[..6][..5] == lines[..5];
    }
  }

  /** Keyword `k` of `keywords` sits at column `at` of template line `line`, up to case. */
  lemma KeywordInPythonTemplate(keywords: seq<string>, k: nat, line: nat, at: nat)
    requires k < |keywords| && line < |PythonTemplateLines|
    requires at + |keywords[k]| <= |PythonTemplateLines[line]|
    requires ToLower(PythonTemplateLines[line][at..at + |keywords[k]|]) == ToLower(keywords[k])
    ensures AnyKeywordIn(ToLower(PythonTemplate), keywords)
  {
    var text := PythonTemplateLines[line];
    var key := ToLower(keywords[k]);
    assert ToLower(text)[at..at + |key|] == ToLower(text[at..at + |key|]);
    ContainsAt(ToLower(text), key, at);
    ContainsLoweredLine(PythonTemplateLines, line, key);
    PythonTemplateIsItsLines();
    AnyKeywordInIff(ToLower(PythonTemplate), keywords);
  }

  /**
    The starter code the linked-list challenge opens with already passes every
    one of its steps: the Python template mentions `data`, `data =`, `next =`
    and `None`.
   */
  lemma StarterCodePassesLinkedListSteps(step: nat)
    requires step < |LinkedListChallenge.steps|
    ensures Validate(LinkedListChallenge, InitialCode(LinkedListChallenge), step)
  {
    var kws := LinkedListChallenge.steps[step].expectedCode;
    var lines := PythonTemplateLines;
    if step == 0 {
      assert lines[2][23..27] == kws[2];
      KeywordInPythonTemplate(kws, 2, 2, 23);
    } else if step == 1 {
      assert lines[3][13..19] == kws[0];
      KeywordInPythonTemplate(kws, 0, 3, 13);
    } else if step == 2 {
      assert lines[4][13..19] == kws[0];
      KeywordInPythonTemplate(kws, 0, 4, 13);
    } else if step == 3 {
      assert lines[4][20..24] == kws[3];
      KeywordInPythonTemplate(kws, 3, 4, 20);
    } else if step == 4 {
      assert lines[4][13..17] == kws[1];
      KeywordInPythonTemplate(kws, 1, 4, 13);
    } else {
      assert lines[4][13..17] == kws[0];
      KeywordInPythonTemplate(kws, 0, 4, 13);
    }
  }

  // ---------------------------------------------------------------------------
  // Running code
  // ---------------------------------------------------------------------------

  /**
    The values `animateTraversal` gives `traverseIndex`, one per tick: it sets
    the index before testing it against the node count, so at least index 0 is
    shown, and it ends by clearing the index to -1.
   */
  function TraversalFrames(nodeCount: nat): (frames: seq<int>)
    ensures |frames| == Max(1, nodeCount) + 1
    ensures forall i :: 0 <= i < |frames| - 1 ==> frames[i] == i
    ensures frames[|frames| - 1] == -1
  {
    seq(Max(1, nodeCount), i requires 0 <= i < Max(1, nodeCount) => i) + [-1]
  }

  /** The interval loop of `animateTraversal`, one iteration per tick. */
  method AnimateTraversal(nodeCount: nat) returns (frames: seq<int>)
    ensures frames == TraversalFrames(nodeCount)
    ensures |frames| == Max(1, nodeCount) + 1
    ensures forall i :: 0 <= i < |frames| - 1 ==> frames[i] == i
    ensures frames[|frames| - 1] == -1
  {
    var index := 0;
    var running := true;
    frames := [];
    while running
      invariant |frames| == index
      invariant forall i :: 0 <= i < index ==> frames[i] == i
      invariant running ==> index < Max(1, nodeCount)
      invariant !running ==> index == Max(1, nodeCount)
      decreases Max(1, nodeCount) - index
    {
      frames := frames + [index];
      index := index + 1;
      if index >= nodeCount {
        running := false;
      }
    }
    frames := frames + [-1];
  }

  /** Every tick but the last highlights exactly one node when there is one; the last highlights none. */
  lemma TraversalHighlightsOneNodePerTick(nodes: seq<int>, t: nat)
    requires t < |TraversalFrames(|nodes|)|
    ensures var f := TraversalFrames(|nodes|)[t];
      TraversingIndices(Layout(nodes, Traverse, f)) ==
        if t < |nodes| then {t} else {}
  {
    AtMostOneTraversing(nodes, Traverse, TraversalFrames(|nodes|)[t]);
  }

  /** A run's effect: the settled state, and the traversal ticks it played (none unless it traversed). */
  datatype RunResult = RunResult(state: Attempt, frames: seq<int>)

  /**
    `handleRunCode`. The run is checked against the step the attempt is on; a
    pass drives the visualization by the step's type and shows the data of the
    last node held before the run (42 when there is none); a failure only shows
    the error.
   */
  function Run(s: Attempt, code: string, value: NodeValue): (r: RunResult)
    ensures r.state.challenge == s.challenge && r.state.code == s.code
    ensures r.state.stepIndex == s.stepIndex && r.state.earnedXP == s.earnedXP
    ensures r.state.showSuccess == s.showSuccess && r.state.showHint == s.showHint
    ensures r.state.output.Some?
    ensures r.state.isOutputError <==> !Validate(s.challenge, code, s.stepIndex)
    ensures !Validate(s.challenge, code, s.stepIndex) ==>
      && r.state.output == Some(Failed)
      && r.state.nodes == s.nodes && r.state.visualStep == s.visualStep
      && r.state.traverseIndex == s.traverseIndex && r.frames == []
    ensures Validate(s.challenge, code, s.stepIndex) ==>
      var kind := s.challenge.steps[s.stepIndex].visualizationType;
      && r.state.output == Some(Passed(if s.nodes == [] then DemoValue else s.nodes[|s.nodes| - 1]))
      && (kind == NodeCreate <==> |r.state.nodes| == |s.nodes| + 1)
      && (kind == NodeCreate ==> r.state.nodes == s.nodes + [value] && r.state.visualStep == Create)
      && (kind != NodeCreate ==> r.state.nodes == s.nodes)
      && (kind == NodeLink ==> r.state.visualStep == Link)
      && (kind == NodeTraverse <==> r.frames != [])
      && (kind == NodeTraverse ==>
            r.state.visualStep == Traverse && r.frames == TraversalFrames(|s.nodes|)
            && r.state.traverseIndex == r.frames[|r.frames| - 1])
      && (kind in {Complete, Console} ==>
            r.state.visualStep == s.visualStep && r.state.traverseIndex == s.traverseIndex)
  {
    if !Validate(s.challenge, code, s.stepIndex) then
      RunResult(s.(output := Some(Failed), isOutputError := true), [])
    else
      var shown := if |s.nodes| > 0 then s.nodes[|s.nodes| - 1] else DemoValue;
      var passed := s.(output := Some(Passed(shown)), isOutputError := false);
      match s.challenge.steps[s.stepIndex].visualizationType
      case NodeCreate =>
        RunResult(passed.(nodes := s.nodes + [value], visualStep := Create), [])
      case NodeLink =>
        RunResult(passed.(visualStep := Link), [])
      case NodeTraverse =>
        RunResult(passed.(visualStep := Traverse, traverseIndex := -1), TraversalFrames(|s.nodes|))
      case Complete =>
        RunResult(passed, [])
      case Console =>
        RunResult(passed, [])
  }

  // ---------------------------------------------------------------------------
  // Progression
  // ---------------------------------------------------------------------------

  /** The XP one completion credits: the reward divided by the step count, rounded down. */
  function StepXP(c: Challenge): (xp: nat)
    requires |c.steps| > 0
    ensures xp * |c.steps| <= c.xpReward < (xp + 1) * |c.steps|
  {
    c.xpReward / |c.steps|
  }

  /**
    `handleStepComplete`, reached only through the "Mark Step Complete" button,
    which is enabled while the index names a step. Every completion credits
    `StepXP`; below the last step the index advances and the hint closes, on the
    last step the index stays and the success dialog opens.
   */
  function MarkComplete(s: Attempt): (r: Attempt)
    requires s.stepIndex < |s.challenge.steps|
    ensures r.earnedXP == s.earnedXP + StepXP(s.challenge)
    ensures r.stepIndex < |s.challenge.steps|
    ensures s.stepIndex < |s.challenge.steps| - 1 ==>
      r.stepIndex == s.stepIndex + 1 && !r.showHint && r.showSuccess == s.showSuccess
    ensures s.stepIndex == |s.challenge.steps| - 1 ==>
      r.stepIndex == s.stepIndex && r.showSuccess && r.showHint == s.showHint
    ensures r.(earnedXP := s.earnedXP, stepIndex := s.stepIndex, showHint := s.showHint, showSuccess := s.showSuccess) == s
  {
    var credited := s.(earnedXP := s.earnedXP + StepXP(s.challenge));
    if s.stepIndex < |s.challenge.steps| - 1 then
      credited.(stepIndex := s.stepIndex + 1, showHint := false)
    else
      credited.(showSuccess := true)
  }

  // ---------------------------------------------------------------------------
  // Sessions
  // ---------------------------------------------------------------------------

  /**
    What the learner can do on the page once a challenge is open.
    `ClickComplete` is any activation of the complete button: a pointer click
    while no dialog is open, or the keyboard once the success dialog's
    backdrop covers the page.
   */
  datatype Event = RunCode(code: string, value: NodeValue) | TypeCode(code: string) | ClickComplete

  /**
    One event. A completion click goes through the instructions panel's button,
    which reports a step only while enabled; a click on the disabled button does
    nothing.
   */
  function Apply(s: Attempt, e: Event): Attempt
  {
    match e
    case RunCode(code, value) => Run(s, code, value).state
    case TypeCode(code) => EditCode(s, code)
    case ClickComplete =>
      if InstructionsPanel.ClickCompleteButton(s.challenge.steps, s.stepIndex).Some? then MarkComplete(s) else s
  }

  function Replay(s: Attempt, events: seq<Event>): Attempt
    decreases |events|
  {
    if events == [] then s else Replay(Apply(s, events[0]), events[1..])
  }

  function Clicks(events: seq<Event>): nat
  {
    if events == [] then 0
    else (if events[0].ClickComplete? then 1 else 0) + Clicks(events[1..])
  }

  /** One event's effect on progress: only a completion click changes it. */
  lemma ApplyProgress(s: Attempt, e: Event)
    requires s.stepIndex < |s.challenge.steps|
    ensures var r := Apply(s, e);
      var click := if e.ClickComplete? then 1 else 0;
      && r.challenge == s.challenge
      && r.earnedXP == s.earnedXP + click * StepXP(s.challenge)
      && r.stepIndex == Min(s.stepIndex + click, |s.challenge.steps| - 1)
      && (r.showSuccess <==> s.showSuccess || s.stepIndex + click >= |s.challenge.steps|)
  {
    match e
    case RunCode(code, value) =>
    case TypeCode(code) =>
    case ClickComplete =>
      assert InstructionsPanel.ClickCompleteButton(s.challenge.steps, s.stepIndex).Some?;
  }

  /** Each completion click credits `StepXP` once; nothing else earns XP. */
  lemma {:induction false} ReplayXP(s: Attempt, events: seq<Event>)
    requires |s.challenge.steps| > 0 && s.stepIndex < |s.challenge.steps|
    ensures Replay(s, events).challenge == s.challenge
    ensures Replay(s, events).earnedXP == s.earnedXP + Clicks(events) * StepXP(s.challenge)
    decreases |events|
  {
    if events != [] {
      var e, rest := events[0], events[1..];
      var click := if e.ClickComplete? then 1 else 0;
      ApplyProgress(s, e);
      ReplayXP(Apply(s, e), rest);
      assert (click + Clicks(rest)) * StepXP(s.challenge) == click * StepXP(s.challenge) + Clicks(rest) * StepXP(s.challenge);
    }
  }

  /** The index advances one step per completion click until it reaches the last step. */
  lemma {:induction false} ReplayIndex(s: Attempt, events: seq<Event>)
    requires |s.challenge.steps| > 0 && s.stepIndex < |s.challenge.steps|
    ensures Replay(s, events).stepIndex == Min(s.stepIndex + Clicks(events), |s.challenge.steps| - 1)
    decreases |events|
  {
    if events != [] {
      ApplyProgress(s, events[0]);
      ReplayIndex(Apply(s, events[0]), events[1..]);
    }
  }

  /** The success dialog opens once a completion click lands on the last step, and stays open. */
  lemma {:induction false} ReplaySuccess(s: Attempt, events: seq<Event>)
    requires |s.challenge.steps| > 0 && s.stepIndex < |s.challenge.steps|
    ensures Replay(s, events).showSuccess <==> s.showSuccess || s.stepIndex + Clicks(events) >= |s.challenge.steps|
    decreases |events|
  {
    if events != [] {
      ApplyProgress(s, events[0]);
      ReplaySuccess(Apply(s, events[0]), events[1..]);
    }
  }

  /**
    Across any session, progress depends only on the number of completion
    clicks: each credits `StepXP`, the index advances one step per click until
    the last step, and the success dialog opens once a click lands on the last
    step. Runs and edits never change progress.
   */
  lemma ReplayProgress(s: Attempt, events: seq<Event>)
    requires |s.challenge.steps| > 0 && s.stepIndex < |s.challenge.steps|
    ensures var r := Replay(s, events);
      && r.challenge == s.challenge
      && r.earnedXP == s.earnedXP + Clicks(events) * StepXP(s.challenge)
      && r.stepIndex == Min(s.stepIndex + Clicks(events), |s.challenge.steps| - 1)
      && (r.showSuccess <==> s.showSuccess || s.stepIndex + Clicks(events) >= |s.challenge.steps|)
  {
    ReplayXP(s, events);
    ReplayIndex(s, events);
    ReplaySuccess(s, events);
  }

  /** A challenge without steps can never be progressed: its complete button is disabled. */
  lemma {:induction false} ReplayWithoutSteps(s: Attempt, events: seq<Event>)
    requires |s.challenge.steps| == 0
    ensures Replay(s, events).earnedXP == s.earnedXP
    ensures Replay(s, events).stepIndex == s.stepIndex
    ensures Replay(s, events).showSuccess == s.showSuccess
    decreases |events|
  {
    if events != [] {
      ReplayWithoutSteps(Apply(s, events[0]), events[1..]);
    }
  }

  /**
    One completion per step, whether or not any run passed, finishes the
    challenge with `n * floor(X / n)` XP, which never exceeds the reward `X`.
   */
  lemma OneClickPerStep(c: Challenge, events: seq<Event>)
    requires |c.steps| > 0
    requires Clicks(events) == |c.steps|
    ensures var r := Replay(Open(c), events);
      && r.earnedXP == |c.steps| * (c.xpReward / |c.steps|)
      && r.earnedXP <= c.xpReward
      && r.stepIndex == |c.steps| - 1
      && r.showSuccess
  {
    ReplayProgress(Open(c), events);
  }

  /**
    The complete button stays enabled on the last step, so a further activation
    (by keyboard once the success dialog is open) credits the step XP again;
    enough activations push the earned XP past any bound.
   */
  lemma ExtraClicksKeepCrediting(c: Challenge, events: seq<Event>)
    requires |c.steps| > 0
    requires Clicks(events) >= |c.steps|
    ensures var r := Replay(Open(c), events);
      && r.stepIndex == |c.steps| - 1
      && r.earnedXP == Clicks(events) * (c.xpReward / |c.steps|)
  {
    ReplayProgress(Open(c), events);
  }

  function Clicking(n: nat): (events: seq<Event>)
    ensures Clicks(events) == n
  {
    if n == 0 then [] else [ClickComplete] + Clicking(n - 1)
  }

  /**
    The linked-list challenge (6 steps, 150 XP): six clicks and one further
    activation (by keyboard once the dialog is open) earn 175 XP.
   */
  lemma LinkedListOverCredit()
    ensures Replay(Open(LinkedListChallenge), Clicking(7)).earnedXP == 175
  {
    ExtraClicksKeepCrediting(LinkedListChallenge, Clicking(7));
  }

  /** The Python challenge (3 steps, 100 XP): finishing it earns 99 XP, as no remainder is credited. */
  lemma PythonIntroUnderCredit()
    ensures Replay(Open(PythonIntroChallenge), Clicking(3)).earnedXP == 99
  {
    OneClickPerStep(PythonIntroChallenge, Clicking(3));
  }

  /**
    Once a challenge with steps is open, the complete button never disables:
    the index stays on a step, the label never reads past `n/n`, and the
    button keeps reporting the current step.
   */
  lemma CompleteButtonStaysEnabled(c: Challenge, events: seq<Event>)
    requires |c.steps| > 0
    ensures var r := Replay(Open(c), events);
      && InstructionsPanel.CompleteButtonView(c.steps, r.stepIndex).enabled
      && InstructionsPanel.CompleteButtonView(c.steps, r.stepIndex).caption == "Mark Step Complete"
      && r.stepIndex + 1 <= |c.steps|
  {
    ReplayProgress(Open(c), events);
  }

  // ---------------------------------------------------------------------------
  // The editor beside the instructions
  // ---------------------------------------------------------------------------

  /** The language the page hands the editor: JavaScript for that category, Python otherwise. */
  function EditorLanguage(c: Challenge): (lang: Language)
    ensures lang == JavaScript <==> c.category == "JavaScript"
    ensures lang == Python <==> c.category != "JavaScript"
  {
    if c.category == "JavaScript" then JavaScript else Python
  }

  /**
    The editor mounted next to a freshly opened challenge shows the page's
    starter code, and that code is the template of the editor's own language.
   */
  lemma EditorMountsWithStarterCode(c: Challenge)
    ensures var e := CodeEditor.Mount(Some(Open(c).code), Some(EditorLanguage(c)));
      && e.language == EditorLanguage(c)
      && e.code == Open(c).code
      && e.code == CodeTemplate(e.language)
  {
  }

  /**
    A run started in the editor reaches the page as `Run` with the editor's
    buffer at the click, whatever the page's own copy of the code is.
   */
  lemma EditorRunReachesPage(s: Attempt, e: CodeEditor.Editor, value: NodeValue)
    requires !CodeEditor.IsRunning(e)
    ensures var delivered := CodeEditor.FinishRun(CodeEditor.ClickRun(e)).delivered;
      && delivered.Some?
      && Run(s, delivered.value.code, value) == Run(s, e.code, value)
  {
  }
}
