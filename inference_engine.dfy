/**
 * The question-generation engine: from an ordered mapping of dimension scores
 * and a context label, it produces an ordered list of clarifying questions.
 * It never produces a verdict.
 *
 * `Questions` is the specification of the result. `InferenceEngine.GenerateQuestions`
 * builds the same list step by step, as the engine does. What the list
 * contains and in what order is proved in module `InferenceProperties`.
 */
module Inference {
  import opened Wrappers
  import opened EthicsConfig

  /** A question, tagged with its cause and the names it interpolates. */
  datatype Question =
    | LowConfidence(net: Dimension)
    | Borderline(net: Dimension)
    | Conflict(maxNet: Dimension, minNet: Dimension)
    | Priority(context: string, top: Dimension)
    | Reflective
  {
    /** Raised by the confidence pass. */
    predicate IsConfidence() { LowConfidence? || Borderline? }
  }

  // ---------------------------------------------------------------------
  // Confidence pass
  // ---------------------------------------------------------------------

  /**
   * The question one dimension raises in the confidence pass: none, or one.
   * The warning test comes first, so a score under the warning threshold is
   * low-confidence even when the warning threshold exceeds the base threshold.
   */
  function ConfidenceQuestion(e: (Dimension, real), t: Thresholds): (qs: seq<Question>)
    ensures |qs| <= 1
    ensures forall k :: 0 <= k < |qs| ==> qs[k].IsConfidence() && qs[k].net == e.0
  {
    if e.1 < WarningThreshold(t) then [LowConfidence(e.0)]
    else if e.1 < BaseThreshold(t, e.0) then [Borderline(e.0)]
    else []
  }

  /** The three outcomes of the confidence test for one dimension, each with its exact condition. */
  lemma ConfidenceQuestionCases(e: (Dimension, real), t: Thresholds)
    ensures ConfidenceQuestion(e, t) == [LowConfidence(e.0)] <==> e.1 < WarningThreshold(t)
    ensures ConfidenceQuestion(e, t) == [Borderline(e.0)] <==> WarningThreshold(t) <= e.1 < BaseThreshold(t, e.0)
    ensures ConfidenceQuestion(e, t) == [] <==> WarningThreshold(t) <= e.1 && BaseThreshold(t, e.0) <= e.1
  {
  }

  /** The questions of the confidence pass over `s`, in the mapping's order. */
  function ConfidenceQuestions(s: Entries, t: Thresholds): (qs: seq<Question>)
    ensures |qs| <= |s|
    ensures forall k :: 0 <= k < |qs| ==> qs[k].IsConfidence()
  {
    if s == [] then []
    else ConfidenceQuestions(s[..|s| - 1], t) + ConfidenceQuestion(s[|s| - 1], t)
  }

  // ---------------------------------------------------------------------
  // Conflict pass
  // ---------------------------------------------------------------------

  /** The largest score of the mapping (EthiCore/InferenceEngine.py:44-45). */
  function MaxScore(s: Entries): (m: real)
    requires |s| > 0
    ensures forall i :: 0 <= i < |s| ==> s[i].1 <= m
    ensures exists i :: 0 <= i < |s| && s[i].1 == m
  {
    if |s| == 1 then s[0].1
    else
      var rest := MaxScore(s[1..]);
      if s[0].1 < rest then rest else s[0].1
  }

  /** The smallest score of the mapping (EthiCore/InferenceEngine.py:44, 46). */
  function MinScore(s: Entries): (m: real)
    requires |s| > 0
    ensures forall i :: 0 <= i < |s| ==> m <= s[i].1
    ensures exists i :: 0 <= i < |s| && s[i].1 == m
  {
    if |s| == 1 then s[0].1
    else
      var rest := MinScore(s[1..]);
      if rest < s[0].1 then rest else s[0].1
  }

  /** `n` is the first name in insertion order whose score is `v`. */
  ghost predicate FirstWithScore(s: Entries, n: Dimension, v: real) {
    exists k :: 0 <= k < |s| && s[k] == (n, v) && forall j :: 0 <= j < k ==> s[j].1 != v
  }

  /** The first name in insertion order whose score is `v` (EthiCore/InferenceEngine.py:51-52). */
  function FirstNameWith(s: Entries, v: real): (n: Dimension)
    requires exists i :: 0 <= i < |s| && s[i].1 == v
    ensures FirstWithScore(s, n, v)
  {
    if s[0].1 == v then s[0].0
    else
      var n := FirstNameWith(s[1..], v);
      ghost var k :| 0 <= k < |s| - 1 && s[1..][k] == (n, v) && forall j :: 0 <= j < k ==> s[1..][j].1 != v;
      assert s[k + 1] == (n, v);
      assert forall j :: 0 < j < k + 1 ==> s[j].1 == s[1..][j - 1].1;
      n
  }

  /**
   * The questions of the conflict pass: a conflict question when the spread of
   * the scores exceeds the conflict threshold, followed by a priority question
   * when the chosen priority list is non-empty.
   */
  function ConflictQuestions(s: Entries, context: string, t: Thresholds, rules: ConflictRules): (qs: seq<Question>)
    requires |s| > 0
    ensures |qs| <= 2
    ensures qs != [] <==> MaxScore(s) - MinScore(s) > ConflictDifference(t)
    ensures qs != [] ==> qs[0] == Conflict(FirstNameWith(s, MaxScore(s)), FirstNameWith(s, MinScore(s)))
    ensures |qs| == 2 <==> qs != [] && ChosenPriority(rules, context) != []
    ensures |qs| == 2 ==> qs[1] == Priority(context, ChosenPriority(rules, context)[0])
  {
    var maxScore := MaxScore(s);
    var minScore := MinScore(s);
    if maxScore - minScore > ConflictDifference(t) then
      var priorityList := ChosenPriority(rules, context);
      [Conflict(FirstNameWith(s, maxScore), FirstNameWith(s, minScore))]
        + (if priorityList != [] then [Priority(context, priorityList[0])] else [])
    else []
  }

  /** The result of `generate_questions`: both passes, or the single reflective question. */
  function Questions(s: Entries, context: string, t: Thresholds, rules: ConflictRules): (qs: seq<Question>)
    requires |s| > 0
    ensures 1 <= |qs| <= |s| + 2
    ensures Reflective in qs ==> qs == [Reflective]
  {
    var qs := ConfidenceQuestions(s, t) + ConflictQuestions(s, context, t, rules);
    if qs == [] then [Reflective] else qs
  }

  // ---------------------------------------------------------------------
  // The engine
  // ---------------------------------------------------------------------

  /** The engine holds its two configuration documents, loaded once and only read afterwards. */
  class InferenceEngine {
    const thresholds: Thresholds
    const conflictRules: ConflictRules

    /** Loads both documents; a missing file gives the empty document. */
    constructor (thresholdsFile: Option<Thresholds>, conflictRulesFile: Option<ConflictRules>)
      ensures thresholds == LoadThresholds(thresholdsFile)
      ensures conflictRules == LoadConflictRules(conflictRulesFile)
    {
      thresholds := LoadThresholds(thresholdsFile);
      conflictRules := LoadConflictRules(conflictRulesFile);
    }

    /**
     * `generate_questions`. The mapping must have at least one dimension:
     * the engine takes its maximum and minimum.
     */
    method GenerateQuestions(scores: Entries, scenarioContext: string) returns (questions: seq<Question>)
      requires |scores| > 0
      ensures questions == Questions(scores, scenarioContext, thresholds, conflictRules)
    {
      questions := [];
      var contextRules := ContextRulesFor(conflictRules, scenarioContext);

      for i := 0 to |scores|
        invariant questions == ConfidenceQuestions(scores[..i], thresholds)
      {
        var (net, score) := scores[i];
        var threshold := BaseThreshold(thresholds, net);
        assert scores[..i + 1][..i] == scores[..i];
        assert ConfidenceQuestions(scores[..i + 1], thresholds)
            == questions + ConfidenceQuestion((net, score), thresholds);
        if score < WarningThreshold(thresholds) {
          questions := questions + [LowConfidence(net)];
        } else if score < threshold {
          questions := questions + [Borderline(net)];
        }
      }
      assert scores[..|scores|] == scores;
      ghost var confidence := questions;

      var maxScore := MaxScore(scores);
      var minScore := MinScore(scores);
      if maxScore - minScore > ConflictDifference(thresholds) {
        var netMax := FirstNameWith(scores, maxScore);
        var netMin := FirstNameWith(scores, minScore);
        questions := questions + [Conflict(netMax, netMin)];

        var priorityList := contextRules.priority.GetOr(conflictRules.defaultPriority.GetOr([]));
        assert priorityList == ChosenPriority(conflictRules, scenarioContext);
        if priorityList != [] {
          questions := questions + [Priority(scenarioContext, priorityList[0])];
        }
      }
      assert questions == confidence + ConflictQuestions(scores, scenarioContext, thresholds, conflictRules);
      assert Questions(scores, scenarioContext, thresholds, conflictRules)
          == if questions == [] then [Reflective] else questions;

      if questions == [] {
        questions := questions + [Reflective];
      }
    }
  }
}
