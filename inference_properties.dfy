/**
 * What the question list of `generate_questions` contains and in what order.
 * The lemmas are about the specification functions of module `Inference`:
 * `ConfidenceQuestions` for the confidence pass, and `Questions` for the whole
 * list, which `InferenceEngine.GenerateQuestions` is proved to compute.
 */
module InferenceProperties {
  import opened Wrappers
  import opened EthicsConfig
  import opened Inference

  // ---------------------------------------------------------------------
  // Confidence pass
  // ---------------------------------------------------------------------

  /** Extending the mapping by one dimension appends exactly that dimension's question, if any. */
  lemma ConfidenceStep(s: Entries, t: Thresholds, i: nat)
    requires i < |s|
    ensures ConfidenceQuestions(s[..i + 1], t) == ConfidenceQuestions(s[..i], t) + ConfidenceQuestion(s[i], t)
  {
    assert s[..i + 1][..i] == s[..i];
  }

  /** The questions of the first `i` dimensions come first, in insertion order. */
  lemma {:induction false} ConfidenceInInsertionOrder(s: Entries, t: Thresholds, i: nat, j: nat)
    requires i <= j <= |s|
    ensures ConfidenceQuestions(s[..i], t) <= ConfidenceQuestions(s[..j], t)
    decreases j - i
  {
    if i < j {
      ConfidenceInInsertionOrder(s, t, i, j - 1);
      ConfidenceStep(s, t, j - 1);
    }
  }

  /**
   * A dimension is asked a low-confidence question iff its score is below the
   * warning threshold, and a borderline question iff its score is at least the
   * warning threshold but below its base threshold.
   */
  lemma {:induction false} ConfidenceMembership(s: Entries, t: Thresholds, n: Dimension)
    ensures LowConfidence(n) in ConfidenceQuestions(s, t) <==>
              exists i :: 0 <= i < |s| && s[i].0 == n && s[i].1 < WarningThreshold(t)
    ensures Borderline(n) in ConfidenceQuestions(s, t) <==>
              exists i :: 0 <= i < |s| && s[i].0 == n && WarningThreshold(t) <= s[i].1 < BaseThreshold(t, n)
  {
    if s != [] {
      var init := s[..|s| - 1];
      ConfidenceMembership(init, t, n);
      ConfidenceQuestionCases(s[|s| - 1], t);
      assert forall i :: 0 <= i < |init| ==> init[i] == s[i];
      var w := WarningThreshold(t);
      if exists i :: 0 <= i < |s| && s[i].0 == n && s[i].1 < w {
        var i :| 0 <= i < |s| && s[i].0 == n && s[i].1 < w;
        if i < |init| { assert init[i].0 == n && init[i].1 < w; }
      }
      if exists i :: 0 <= i < |s| && s[i].0 == n && w <= s[i].1 < BaseThreshold(t, n) {
        var i :| 0 <= i < |s| && s[i].0 == n && w <= s[i].1 < BaseThreshold(t, n);
        if i < |init| { assert init[i].0 == n && w <= init[i].1 < BaseThreshold(t, n); }
      }
    }
  }

  /** Every confidence question names a dimension of the mapping. */
  lemma {:induction false} ConfidenceNamesFromMapping(s: Entries, t: Thresholds)
    ensures forall q :: q in ConfidenceQuestions(s, t) ==> exists i :: 0 <= i < |s| && s[i].0 == q.net
  {
    if s != [] {
      var init := s[..|s| - 1];
      ConfidenceNamesFromMapping(init, t);
      assert forall i :: 0 <= i < |init| ==> init[i] == s[i];
    }
  }

  /** No two confidence questions of `qs` name the same dimension. */
  ghost predicate OneConfidenceQuestionPerNet(qs: seq<Question>) {
    forall i, j :: 0 <= i < j < |qs| && qs[i].IsConfidence() && qs[j].IsConfidence() ==> qs[i].net != qs[j].net
  }

  /** With distinct keys, no dimension is asked two confidence questions. */
  lemma {:induction false} AtMostOneConfidenceQuestionPerDimension(s: Entries, t: Thresholds)
    requires DistinctKeys(s)
    ensures OneConfidenceQuestionPerNet(ConfidenceQuestions(s, t))
  {
    if s != [] {
      var init := s[..|s| - 1];
      var last := s[|s| - 1];
      assert DistinctKeys(init);
      AtMostOneConfidenceQuestionPerDimension(init, t);
      ConfidenceNamesFromMapping(init, t);
      var front := ConfidenceQuestions(init, t);
      var qs := ConfidenceQuestions(s, t);
      assert qs == front + ConfidenceQuestion(last, t);
      forall i, j | 0 <= i < j < |qs| && qs[i].IsConfidence() && qs[j].IsConfidence()
        ensures qs[i].net != qs[j].net
      {
        if j < |front| {
          assert qs[i] == front[i] && qs[j] == front[j];
          assert front[i].net != front[j].net;
        } else {
          assert qs[j] == ConfidenceQuestion(last, t)[j - |front|];
          assert qs[i] == front[i];
          assert front[i] in front;
          var k :| 0 <= k < |init| && init[k].0 == front[i].net;
          assert init[k] == s[k];
          assert s[k].0 != s[|s| - 1].0;
          assert qs[j].net == last.0;
        }
      }
    }
  }

  /** The confidence pass is silent iff every score reaches both the warning and its base threshold. */
  lemma {:induction false} ConfidenceSilentIff(s: Entries, t: Thresholds)
    ensures ConfidenceQuestions(s, t) == [] <==>
              forall i :: 0 <= i < |s| ==> WarningThreshold(t) <= s[i].1 && BaseThreshold(t, s[i].0) <= s[i].1
  {
    if s != [] {
      var init := s[..|s| - 1];
      ConfidenceSilentIff(init, t);
      ConfidenceQuestionCases(s[|s| - 1], t);
      assert forall i :: 0 <= i < |init| ==> init[i] == s[i];
    }
  }

  // ---------------------------------------------------------------------
  // The whole list
  // ---------------------------------------------------------------------

  /** Once a non-confidence question appears, no confidence question follows. */
  lemma ConfidenceBeforeConflict(s: Entries, context: string, t: Thresholds, rules: ConflictRules)
    requires |s| > 0
    ensures var qs := Questions(s, context, t, rules);
      forall i, j :: 0 <= i < j < |qs| && qs[j].IsConfidence() ==> qs[i].IsConfidence()
  {
  }

  /**
   * A conflict question is asked iff the spread between the largest and the
   * smallest score exceeds the conflict threshold. It comes right after the
   * confidence questions and names the first dimension reaching the maximum
   * and the first reaching the minimum.
   */
  lemma ConflictQuestionExactly(s: Entries, context: string, t: Thresholds, rules: ConflictRules)
    requires |s| > 0
    ensures var qs := Questions(s, context, t, rules);
      (exists k :: 0 <= k < |qs| && qs[k].Conflict?) <==> MaxScore(s) - MinScore(s) > ConflictDifference(t)
    ensures var qs := Questions(s, context, t, rules);
      forall k :: 0 <= k < |qs| && qs[k].Conflict? ==>
        k == |ConfidenceQuestions(s, t)| &&
        FirstWithScore(s, qs[k].maxNet, MaxScore(s)) &&
        FirstWithScore(s, qs[k].minNet, MinScore(s))
  {
    var conf := ConfidenceQuestions(s, t);
    var cq := ConflictQuestions(s, context, t, rules);
    var qs := Questions(s, context, t, rules);
    if MaxScore(s) - MinScore(s) > ConflictDifference(t) {
      assert qs == conf + cq;
      assert qs[|conf|] == cq[0];
      forall k | 0 <= k < |qs| && k != |conf| ensures !qs[k].Conflict? {
        if k < |conf| { assert qs[k] == conf[k]; } else { assert qs[k] == cq[k - |conf|]; }
      }
    } else {
      assert cq == [];
    }
  }

  /**
   * A priority question is asked iff a conflict question is and the chosen
   * priority list is non-empty. It immediately follows the conflict question,
   * names the context, and names the head of the chosen list.
   */
  lemma PriorityFollowsConflict(s: Entries, context: string, t: Thresholds, rules: ConflictRules)
    requires |s| > 0
    ensures var qs := Questions(s, context, t, rules);
      (exists k :: 0 <= k < |qs| && qs[k].Priority?) <==>
        MaxScore(s) - MinScore(s) > ConflictDifference(t) && ChosenPriority(rules, context) != []
    ensures var qs := Questions(s, context, t, rules);
      forall k :: 0 <= k < |qs| && qs[k].Priority? ==>
        0 < k && qs[k - 1].Conflict? && k == |qs| - 1 &&
        ChosenPriority(rules, context) != [] &&
        qs[k] == Priority(context, ChosenPriority(rules, context)[0])
  {
    var conf := ConfidenceQuestions(s, t);
    var cq := ConflictQuestions(s, context, t, rules);
    var qs := Questions(s, context, t, rules);
    var p := ChosenPriority(rules, context);
    if MaxScore(s) - MinScore(s) > ConflictDifference(t) {
      assert qs == conf + cq;
      if p != [] {
        assert qs[|conf| + 1] == Priority(context, p[0]);
      }
      forall k | 0 <= k < |qs| && qs[k].Priority?
        ensures 0 < k && qs[k - 1].Conflict? && k == |qs| - 1 && p != [] && qs[k] == Priority(context, p[0])
      {
        assert k >= |conf|;
        assert qs[k] == cq[k - |conf|];
        assert qs[k - 1] == cq[0];
      }
    } else {
      assert cq == [];
    }
  }

  /**
   * The single reflective question is the whole answer iff every score reaches
   * both thresholds and the spread does not exceed the conflict threshold.
   */
  lemma ReflectiveFallbackExactly(s: Entries, context: string, t: Thresholds, rules: ConflictRules)
    requires |s| > 0
    ensures Questions(s, context, t, rules) == [Reflective] <==>
              (forall i :: 0 <= i < |s| ==> WarningThreshold(t) <= s[i].1 && BaseThreshold(t, s[i].0) <= s[i].1) &&
              MaxScore(s) - MinScore(s) <= ConflictDifference(t)
  {
    var conf := ConfidenceQuestions(s, t);
    var cq := ConflictQuestions(s, context, t, rules);
    ConfidenceSilentIff(s, t);
    if conf + cq != [] {
      assert Questions(s, context, t, rules) == conf + cq;
      if conf != [] { assert conf[0].IsConfidence(); }
      if cq != [] { assert cq[0].Conflict?; }
      assert Reflective !in conf + cq;
    }
  }

  // ---------------------------------------------------------------------
  // Defaults
  // ---------------------------------------------------------------------

  /**
   * The question list depends on the thresholds document only through the
   * resolved thresholds: the warning threshold, the conflict threshold and
   * the base threshold of each dimension present.
   */
  lemma {:induction false} ConfidenceDependsOnResolvedThresholds(s: Entries, t1: Thresholds, t2: Thresholds)
    requires WarningThreshold(t1) == WarningThreshold(t2)
    requires forall i :: 0 <= i < |s| ==> BaseThreshold(t1, s[i].0) == BaseThreshold(t2, s[i].0)
    ensures ConfidenceQuestions(s, t1) == ConfidenceQuestions(s, t2)
  {
    if s != [] {
      var init := s[..|s| - 1];
      assert forall i :: 0 <= i < |init| ==> init[i] == s[i];
      ConfidenceDependsOnResolvedThresholds(init, t1, t2);
    }
  }

  /** A missing thresholds file behaves exactly as a document spelling out 0.75, 0.5 and 0.35. */
  lemma MissingThresholdsAreExplicitDefaults(s: Entries, context: string, rules: ConflictRules)
    requires |s| > 0
    ensures Questions(s, context, NoThresholds, rules) ==
            Questions(s, context, Thresholds(Some(map n | n in Keys(s) :: 0.75), Some(0.5), Some(0.35)), rules)
  {
    var explicit := Thresholds(Some(map n | n in Keys(s) :: 0.75), Some(0.5), Some(0.35));
    forall i | 0 <= i < |s| ensures BaseThreshold(NoThresholds, s[i].0) == BaseThreshold(explicit, s[i].0) {
      assert s[i].0 in Keys(s);
    }
    ConfidenceDependsOnResolvedThresholds(s, NoThresholds, explicit);
  }
}
