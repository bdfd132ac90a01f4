/**
 * The contextual weighting stage: adds the boosts configured for a context to
 * the matching dimension scores, clamping each boosted score from above at 1.0.
 *
 * `Weighted` is the specification of the result, dimension by dimension.
 * `ContextualWeighting.ApplyWeighting` walks the boosts and updates a copy of
 * the scores in place, as the stage does, and is proved to produce `Weighted`.
 */
module Weighting {
  import opened Wrappers
  import opened EthicsConfig

  /** Upper bound of a boosted score. */
  const ScoreCeiling: real := 1.0

  /**
   * The boost configured for `net`, if any. When a key is repeated, the last
   * entry wins, as when a YAML mapping is loaded into a dict.
   */
  function BoostFor(boosts: Entries, net: Dimension): (b: Option<real>)
    ensures b.None? <==> forall j :: 0 <= j < |boosts| ==> boosts[j].0 != net
    ensures b.Some? ==> exists j :: 0 <= j < |boosts| && boosts[j] == (net, b.value)
  {
    if boosts == [] then None
    else if boosts[|boosts| - 1].0 == net then Some(boosts[|boosts| - 1].1)
    else BoostFor(boosts[..|boosts| - 1], net)
  }

  /** A score raised by a boost and clamped from above at 1.0 (EthiCore/ContextualWeighting.py:50-52). */
  function Boosted(score: real, boost: real): (r: real)
    ensures r <= ScoreCeiling
    ensures r <= score + boost
    ensures r == score + boost || r == ScoreCeiling
  {
    if score + boost <= ScoreCeiling then score + boost else ScoreCeiling
  }

  /** One entry of the output: boosted when a boost is configured for its name, unchanged otherwise. */
  function WeightedEntry(e: (Dimension, real), boosts: Entries): (r: (Dimension, real))
    ensures r.0 == e.0
    ensures BoostFor(boosts, e.0).None? ==> r == e
    ensures BoostFor(boosts, e.0).Some? ==> r.1 <= ScoreCeiling && r.1 <= e.1 + BoostFor(boosts, e.0).value
  {
    match BoostFor(boosts, e.0)
    case Some(b) => (e.0, Boosted(e.1, b))
    case None => e
  }

  /** The scores after weighting: the same names in the same order, each weighted on its own. */
  function Weighted(scores: Entries, boosts: Entries): (r: Entries)
    ensures |r| == |scores|
    ensures Keys(r) == Keys(scores)
  {
    seq(|scores|, k requires 0 <= k < |scores| => WeightedEntry(scores[k], boosts))
  }

  /** Whether `net` is a key of the scores, and at which position (EthiCore/ContextualWeighting.py:48). */
  function IndexOf(s: Entries, net: Dimension): (r: Option<nat>)
    ensures r.None? <==> forall k :: 0 <= k < |s| ==> s[k].0 != net
    ensures r.Some? ==> r.value < |s| && s[r.value].0 == net
  {
    if s == [] then None
    else if s[0].0 == net then Some(0)
    else match IndexOf(s[1..], net)
      case Some(k) => Some(k + 1)
      case None => None
  }

  /** The weighting stage holds the two configuration documents, loaded once and only read afterwards. */
  class ContextualWeighting {
    const thresholds: Thresholds
    const conflictRules: ConflictRules

    /** Loads both documents; a missing file gives the empty document. */
    constructor (thresholdsFile: Option<Thresholds>, conflictRulesFile: Option<ConflictRules>)
      ensures thresholds == LoadThresholds(thresholdsFile)
      ensures conflictRules == LoadConflictRules(conflictRulesFile)
    {
      thresholds := LoadThresholds(thresholdsFile);
      conflictRules := LoadConflictRules(conflictRulesFile);
    }

    /**
     * `apply_weighting`: copies the scores, then, for each configured boost
     * whose dimension is present, adds the boost and clamps at 1.0.
     */
    method ApplyWeighting(scores: Entries, context: string) returns (adjustedScores: Entries)
      requires DistinctKeys(scores)
      requires WellFormedRules(conflictRules)
      ensures adjustedScores == Weighted(scores, Boosts(conflictRules, context))
    {
      var contextOverrides := ContextRulesFor(conflictRules, context);
      var boosts := contextOverrides.thresholdBoost.GetOr([]);
      BoostsDistinct(conflictRules, context);

      adjustedScores := scores;

      for i := 0 to |boosts|
        invariant |adjustedScores| == |scores|
        invariant forall k :: 0 <= k < |scores| ==> adjustedScores[k] == WeightedEntry(scores[k], boosts[..i])
      {
        var (net, boostValue) := boosts[i];
        assert boosts[..i + 1][..i] == boosts[..i];
        assert BoostFor(boosts[..i], net).None? by {
          assert forall j :: 0 <= j < i ==> boosts[..i][j] == boosts[j];
        }
        var index := IndexOf(adjustedScores, net);
        if index.Some? {
          var k := index.value;
          assert scores[k].0 == net;
          var score := adjustedScores[k].1 + boostValue;
          score := if score <= ScoreCeiling then score else ScoreCeiling;
          adjustedScores := adjustedScores[k := (net, score)];
        }
      }
      assert boosts[..|boosts|] == boosts;
    }
  }

  // ---------------------------------------------------------------------
  // Properties of the weighting
  // ---------------------------------------------------------------------

  /** With distinct keys, the boost of a configured name is the one configured for it. */
  lemma BoostForFindsEntry(boosts: Entries, j: nat)
    requires DistinctKeys(boosts)
    requires j < |boosts|
    ensures BoostFor(boosts, boosts[j].0) == Some(boosts[j].1)
  {
  }

  /** A dimension present in both the scores and the boosts becomes `min(score + boost, 1.0)`. */
  lemma BoostedDimension(scores: Entries, boosts: Entries, k: nat, j: nat)
    requires DistinctKeys(boosts)
    requires k < |scores| && j < |boosts| && boosts[j].0 == scores[k].0
    ensures Weighted(scores, boosts)[k] == (scores[k].0, Boosted(scores[k].1, boosts[j].1))
  {
  }

  /** A dimension without a boost keeps its value exactly. */
  lemma BoostLocality(scores: Entries, boosts: Entries, k: nat)
    requires k < |scores|
    requires forall j :: 0 <= j < |boosts| ==> boosts[j].0 != scores[k].0
    ensures Weighted(scores, boosts)[k] == scores[k]
  {
  }

  /** A boost naming no dimension of the scores changes nothing: dropping it gives the same output. */
  lemma AbsentBoostIgnored(scores: Entries, boosts: Entries, j: nat)
    requires DistinctKeys(boosts)
    requires j < |boosts|
    requires forall k :: 0 <= k < |scores| ==> scores[k].0 != boosts[j].0
    ensures Weighted(scores, boosts) == Weighted(scores, boosts[..j] + boosts[j + 1..])
  {
    var rest := boosts[..j] + boosts[j + 1..];
    forall k | 0 <= k < |scores|
      ensures WeightedEntry(scores[k], boosts) == WeightedEntry(scores[k], rest)
    {
      var n := scores[k].0;
      if i :| 0 <= i < |boosts| && boosts[i].0 == n {
        assert i != j;
        var i' := if i < j then i else i - 1;
        assert rest[i'] == boosts[i];
        assert DistinctKeys(rest) by {
          assert forall a :: 0 <= a < |rest| ==> rest[a] == boosts[if a < j then a else a + 1];
        }
        BoostForFindsEntry(boosts, i);
        BoostForFindsEntry(rest, i');
      } else {
        assert forall a :: 0 <= a < |rest| ==> rest[a] == boosts[if a < j then a else a + 1];
      }
    }
  }

  /** Every boosted score is at most 1.0, so when no input exceeds 1.0 no output does. */
  lemma UpperClamp(scores: Entries, boosts: Entries)
    requires forall k :: 0 <= k < |scores| ==> scores[k].1 <= ScoreCeiling
    ensures forall k :: 0 <= k < |scores| ==> Weighted(scores, boosts)[k].1 <= ScoreCeiling
  {
  }

  /** There is no lower clamp: a negative boost takes a score below zero. */
  lemma NoLowerClamp()
    ensures Weighted([("UtiliNet", 0.2)], [("UtiliNet", -0.5)]) == [("UtiliNet", -0.3)]
  {
  }

  /** No boosts, as for an unknown context or one without `threshold_boost`: the identity. */
  lemma IdentityWithoutBoosts(scores: Entries, rules: ConflictRules, context: string)
    requires ContextRulesFor(rules, context).thresholdBoost.None?
    ensures Weighted(scores, Boosts(rules, context)) == scores
  {
  }
}
