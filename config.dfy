/**
 * The parsed configuration shared by the inference engine and the contextual
 * weighting stage: the thresholds document and the conflict-rules document.
 *
 * Every key of a document may be absent; an absent key is `None` and every
 * lookup falls back to a fixed default. A document whose file is missing is
 * loaded as the empty mapping, i.e. every key absent.
 */
module EthicsConfig {
  import opened Wrappers

  /** A dimension (network) name such as "UtiliNet". */
  type Dimension = string

  /** An ordered mapping from name to number: a Python dict, in insertion order. */
  type Entries = seq<(Dimension, real)>

  /** The keys of an ordered mapping are pairwise distinct, as in a dict. */
  predicate DistinctKeys(s: Entries) {
    forall i, j :: 0 <= i < j < |s| ==> s[i].0 != s[j].0
  }

  /** The keys of an ordered mapping, in order. */
  function Keys(s: Entries): (ks: seq<Dimension>)
    ensures |ks| == |s|
    ensures forall i :: 0 <= i < |s| ==> ks[i] == s[i].0
  {
    seq(|s|, i requires 0 <= i < |s| => s[i].0)
  }

  /** Default base threshold of a dimension with no `base_thresholds` entry. */
  const DefaultBaseThreshold: real := 0.75
  /** Default `warning_threshold`. */
  const DefaultWarningThreshold: real := 0.5
  /** Default `conflict_difference_threshold`. */
  const DefaultConflictDifference: real := 0.35

  /** The thresholds document. */
  datatype Thresholds = Thresholds(
    baseThresholds: Option<map<Dimension, real>>,
    warningThreshold: Option<real>,
    conflictDifferenceThreshold: Option<real>)

  /** One entry of `contextual_overrides`. */
  datatype ContextRules = ContextRules(
    thresholdBoost: Option<Entries>,
    priority: Option<seq<Dimension>>)

  /** The conflict-rules document. */
  datatype ConflictRules = ConflictRules(
    contextualOverrides: Option<map<string, ContextRules>>,
    defaultPriority: Option<seq<Dimension>>)

  /** The thresholds document as loaded from a missing file: `{}`. */
  const NoThresholds := Thresholds(None, None, None)
  /** The conflict-rules document as loaded from a missing file: `{}`. */
  const NoConflictRules := ConflictRules(None, None)
  /** A context with no overrides: `{}`. */
  const NoContextRules := ContextRules(None, None)

  /** Loading a thresholds document: a missing file yields the empty document. */
  function LoadThresholds(file: Option<Thresholds>): (t: Thresholds)
    ensures file.None? ==> t == NoThresholds
    ensures file.Some? ==> t == file.value
  {
    file.GetOr(NoThresholds)
  }

  /** Loading a conflict-rules document: a missing file yields the empty document. */
  function LoadConflictRules(file: Option<ConflictRules>): (c: ConflictRules)
    ensures file.None? ==> c == NoConflictRules
    ensures file.Some? ==> c == file.value
  {
    file.GetOr(NoConflictRules)
  }

  /**
   * The base threshold of `net`: its entry under `base_thresholds`, or 0.75
   * when the key or the entry is absent (EthiCore/InferenceEngine.py:36).
   */
  function BaseThreshold(t: Thresholds, net: Dimension): (r: real)
    ensures t.baseThresholds.None? ==> r == DefaultBaseThreshold
    ensures t.baseThresholds.Some? && net !in t.baseThresholds.value ==> r == DefaultBaseThreshold
    ensures t.baseThresholds.Some? && net in t.baseThresholds.value ==> r == t.baseThresholds.value[net]
  {
    var base := t.baseThresholds.GetOr(map[]);
    if net in base then base[net] else DefaultBaseThreshold
  }

  /** The warning threshold, or 0.5 when absent (EthiCore/InferenceEngine.py:38). */
  function WarningThreshold(t: Thresholds): (r: real)
    ensures t.warningThreshold.None? ==> r == DefaultWarningThreshold
    ensures t.warningThreshold.Some? ==> r == t.warningThreshold.value
  {
    t.warningThreshold.GetOr(DefaultWarningThreshold)
  }

  /** The conflict difference threshold, or 0.35 when absent (EthiCore/InferenceEngine.py:48). */
  function ConflictDifference(t: Thresholds): (r: real)
    ensures t.conflictDifferenceThreshold.None? ==> r == DefaultConflictDifference
    ensures t.conflictDifferenceThreshold.Some? ==> r == t.conflictDifferenceThreshold.value
  {
    t.conflictDifferenceThreshold.GetOr(DefaultConflictDifference)
  }

  /**
   * The overrides of `context`. An unknown context, or a document without
   * `contextual_overrides`, gives no overrides (EthiCore/InferenceEngine.py:32,
   * EthiCore/ContextualWeighting.py:39).
   */
  function ContextRulesFor(rules: ConflictRules, context: string): (cr: ContextRules)
    ensures rules.contextualOverrides.None? ==> cr == NoContextRules
    ensures rules.contextualOverrides.Some? && context !in rules.contextualOverrides.value ==> cr == NoContextRules
    ensures rules.contextualOverrides.Some? && context in rules.contextualOverrides.value ==>
              cr == rules.contextualOverrides.value[context]
  {
    var overrides := rules.contextualOverrides.GetOr(map[]);
    if context in overrides then overrides[context] else NoContextRules
  }

  /** The context's boost mapping, or the empty mapping when absent (EthiCore/ContextualWeighting.py:42). */
  function Boosts(rules: ConflictRules, context: string): (b: Entries)
    ensures ContextRulesFor(rules, context).thresholdBoost.None? ==> b == []
    ensures ContextRulesFor(rules, context).thresholdBoost.Some? ==> b == ContextRulesFor(rules, context).thresholdBoost.value
  {
    ContextRulesFor(rules, context).thresholdBoost.GetOr([])
  }

  /**
   * The priority list used after a conflict: the context's own list whenever
   * its `priority` key is present, even when that list is empty; otherwise
   * `default_priority`, or the empty list (EthiCore/InferenceEngine.py:59).
   */
  function ChosenPriority(rules: ConflictRules, context: string): (p: seq<Dimension>)
    ensures ContextRulesFor(rules, context).priority.Some? ==> p == ContextRulesFor(rules, context).priority.value
    ensures ContextRulesFor(rules, context).priority.None? && rules.defaultPriority.Some? ==> p == rules.defaultPriority.value
    ensures ContextRulesFor(rules, context).priority.None? && rules.defaultPriority.None? ==> p == []
  {
    ContextRulesFor(rules, context).priority.GetOr(rules.defaultPriority.GetOr([]))
  }

  /** Every boost mapping of the document is a dict: its keys are distinct. */
  predicate WellFormedRules(rules: ConflictRules) {
    rules.contextualOverrides.Some? ==>
      forall c :: c in rules.contextualOverrides.value && rules.contextualOverrides.value[c].thresholdBoost.Some? ==>
        DistinctKeys(rules.contextualOverrides.value[c].thresholdBoost.value)
  }

  /** An unknown context behaves as a context with no overrides: no boosts and the default priority. */
  lemma UnknownContextUsesDefaults(rules: ConflictRules, context: string)
    requires rules.contextualOverrides.None? || context !in rules.contextualOverrides.value
    ensures Boosts(rules, context) == []
    ensures ChosenPriority(rules, context) == rules.defaultPriority.GetOr([])
  {
  }

  /** A context whose `priority` key holds the empty list does not fall back to `default_priority`. */
  lemma EmptyContextPriorityIsKept(rules: ConflictRules, context: string)
    requires rules.contextualOverrides.Some? && context in rules.contextualOverrides.value
    requires rules.contextualOverrides.value[context].priority == Some([])
    ensures ChosenPriority(rules, context) == []
  {
  }

  /** Boosts looked up in a well-formed document form a dict. */
  lemma BoostsDistinct(rules: ConflictRules, context: string)
    requires WellFormedRules(rules)
    ensures DistinctKeys(Boosts(rules, context))
  {
  }
}
