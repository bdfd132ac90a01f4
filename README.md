# EthiCore inference engine, modelled in Dafny

The model covers the question-generation engine of EthiCore and the contextual-weighting stage meant to feed it.
The engine takes an ordered mapping from ethical dimension (network) names to scores and a context label.
It returns an ordered list of clarifying questions, never a verdict.
It works in three passes:

- a confidence pass, which raises a low-confidence or borderline question per dimension;
- a conflict pass, which raises a conflict question when the spread of the scores is too wide, and then possibly a priority question;
- a fallback, which returns the single reflective question when nothing else fired.

The weighting stage copies the scores and adds the boosts configured for the context.
Each boosted score is clamped from above at 1.0.

Files:

- `wrappers.dfy`: `Option`, for configuration keys that may be absent.
- `config.dfy` (module `EthicsConfig`): the parsed thresholds and conflict-rules documents and every defaulting lookup both classes perform. An absent key resolves to base threshold 0.75, warning threshold 0.5, conflict difference 0.35, default priority `[]`, and an unknown context to `{}`. A missing file is the empty document.
- `inference_engine.dfy` (module `Inference`): the `Question` datatype, the specification function `Questions`, and the class `InferenceEngine`. Its method `GenerateQuestions` builds the list with the engine's loop and appends, and is proved equal to `Questions`.
- `inference_properties.dfy` (module `InferenceProperties`): what the list contains and in what order.
- `contextual_weighting.dfy` (module `Weighting`): the specification function `Weighted`, defined dimension by dimension, and the class `ContextualWeighting`. Its method `ApplyWeighting` walks the boosts and updates a copy in place, and is proved equal to `Weighted`. The file also holds the weighting properties.

Scores are `seq<(string, real)>`: a dict in insertion order, with distinct keys where a property needs them.
Questions are datatype constructors carrying the names the source interpolates into its text: `LowConfidence(net)`, `Borderline(net)`, `Conflict(maxNet, minNet)`, `Priority(context, top)`, `Reflective`.

Behaviour of the code that is easy to misread:

- There is no "at least three dimensions" guard before conflict analysis. The only guard is the spread test at `EthiCore/InferenceEngine.py:48`.
- A context whose `priority` key holds an empty list keeps that empty list. It does not fall back to `default_priority` (`EthiCore/InferenceEngine.py:59`).
- The conflict question is always asked when the spread is too wide. The priority question is a second, separate question, asked only when the chosen list is non-empty.
- An empty score mapping makes `max()` raise, so `GenerateQuestions` requires at least one dimension. It does not fall back to the reflective question.
- The low-confidence question names only the dimension, not its score.
- The API handler passes raw scores to `generate_questions` without weighting (`API_Handler.py:62-63`), so the model does not compose the two stages.

## Model

| member | source | states |
|---|---|---|
| `EthicsConfig.LoadThresholds` | EthiCore/InferenceEngine.py:18-25 | a missing thresholds file is the empty document; a present one is used as parsed |
| `EthicsConfig.LoadConflictRules` | EthiCore/InferenceEngine.py:18-25 | a missing conflict-rules file is the empty document; a present one is used as parsed |
| `EthicsConfig.BaseThreshold` | EthiCore/InferenceEngine.py:36 | the configured base threshold of a dimension, or 0.75 when `base_thresholds` or the dimension's entry is absent |
| `EthicsConfig.WarningThreshold` | EthiCore/InferenceEngine.py:38 | the configured warning threshold, or 0.5 when absent |
| `EthicsConfig.ConflictDifference` | EthiCore/InferenceEngine.py:48 | the configured conflict difference threshold, or 0.35 when absent |
| `EthicsConfig.ContextRulesFor` | EthiCore/InferenceEngine.py:32 | the context's overrides; `{}` when the context is unknown or `contextual_overrides` is absent |
| `EthicsConfig.Boosts` | EthiCore/ContextualWeighting.py:39-42 | the context's `threshold_boost` mapping, or the empty mapping when absent |
| `EthicsConfig.ChosenPriority` | EthiCore/InferenceEngine.py:59 | the context's own `priority` list whenever the key exists; otherwise `default_priority`; otherwise `[]` |
| `EthicsConfig.UnknownContextUsesDefaults` | EthiCore/InferenceEngine.py:32-59 | an unknown context has no boosts and uses the default priority list |
| `EthicsConfig.EmptyContextPriorityIsKept` | EthiCore/InferenceEngine.py:59 | a context whose `priority` is `[]` gets `[]`, not the default list |
| `Inference.ConfidenceQuestion` | EthiCore/InferenceEngine.py:35-41 | one dimension raises at most one question, a confidence question naming that dimension |
| `Inference.ConfidenceQuestionCases` | EthiCore/InferenceEngine.py:35-41 | low-confidence iff score < warning; borderline iff warning <= score < base; nothing iff the score reaches both, so the warning test wins even when warning > base |
| `Inference.ConfidenceQuestions` | EthiCore/InferenceEngine.py:35-41 | the confidence pass yields at most one question per dimension, all of them confidence questions |
| `Inference.MaxScore` | EthiCore/InferenceEngine.py:44-45 | the result is a score of the mapping and no score exceeds it |
| `Inference.MinScore` | EthiCore/InferenceEngine.py:44-46 | the result is a score of the mapping and no score is below it |
| `Inference.FirstNameWith` | EthiCore/InferenceEngine.py:51-52 | the result is the first name in insertion order whose score equals the given value |
| `Inference.ConflictQuestions` | EthiCore/InferenceEngine.py:44-64 | at most two questions; non-empty iff max - min exceeds the conflict threshold, and then the first is the conflict question naming the first dimension at the maximum and the first at the minimum; a second question exists iff the chosen priority list is non-empty, and it is the priority question naming the context and the list's head |
| `Inference.Questions` | EthiCore/InferenceEngine.py:27-70 | the list has between 1 and (number of dimensions + 2) questions, and the reflective question appears only as the sole element |
| `Inference.InferenceEngine.constructor` | EthiCore/InferenceEngine.py:13-16 | the engine's two documents are the loaded files, with a missing file as the empty document |
| `Inference.InferenceEngine.GenerateQuestions` | EthiCore/InferenceEngine.py:27-70 | the list built by the loop and appends equals `Questions` for the engine's configuration |
| `InferenceProperties.ConfidenceStep` | EthiCore/InferenceEngine.py:35-41 | one more dimension appends exactly that dimension's confidence question, if any; this is the definition of `ConfidenceQuestions` unfolded at a prefix, a helper for `ConfidenceInInsertionOrder` |
| `InferenceProperties.ConfidenceInInsertionOrder` | EthiCore/InferenceEngine.py:35-41 | the questions of an earlier prefix of the mapping are a prefix of those of a longer one |
| `InferenceProperties.ConfidenceMembership` | EthiCore/InferenceEngine.py:35-41 | a low-confidence question names n iff some score of n is below the warning threshold; a borderline one iff some score of n is between warning and n's base threshold |
| `InferenceProperties.ConfidenceNamesFromMapping` | EthiCore/InferenceEngine.py:35-41 | every confidence question names a dimension of the mapping |
| `InferenceProperties.AtMostOneConfidenceQuestionPerDimension` | EthiCore/InferenceEngine.py:35-41 | with distinct keys, no two confidence questions name the same dimension |
| `InferenceProperties.ConfidenceSilentIff` | EthiCore/InferenceEngine.py:35-41 | the confidence pass is empty iff every score reaches both the warning and its base threshold |
| `InferenceProperties.ConfidenceBeforeConflict` | EthiCore/InferenceEngine.py:35-64 | every confidence question precedes every conflict and priority question |
| `InferenceProperties.ConflictQuestionExactly` | EthiCore/InferenceEngine.py:44-56 | a conflict question is asked iff max - min exceeds the conflict threshold; it follows the confidence questions and names the first dimension reaching the maximum and the first reaching the minimum |
| `InferenceProperties.PriorityFollowsConflict` | EthiCore/InferenceEngine.py:58-64 | a priority question is asked iff the conflict question is and the chosen list is non-empty; it is last, right after the conflict question, and names the context and the head of the chosen list |
| `InferenceProperties.ReflectiveFallbackExactly` | EthiCore/InferenceEngine.py:35-68 | the result is exactly the reflective question iff every score reaches both thresholds and max - min does not exceed the conflict threshold |
| `InferenceProperties.ConfidenceDependsOnResolvedThresholds` | EthiCore/InferenceEngine.py:35-41 | two thresholds documents resolving to the same warning and per-dimension base thresholds give the same confidence questions |
| `InferenceProperties.MissingThresholdsAreExplicitDefaults` | EthiCore/InferenceEngine.py:36-48 | a missing thresholds document gives the same questions as one spelling out base 0.75, warning 0.5 and conflict difference 0.35 |
| `Weighting.BoostFor` | EthiCore/ContextualWeighting.py:46 | a boost is found for a name iff the boost mapping has an entry for it, and it is that entry's value |
| `Weighting.Boosted` | EthiCore/ContextualWeighting.py:50-52 | the boosted score is at most 1.0 and at most score + boost, and equals one of the two |
| `Weighting.WeightedEntry` | EthiCore/ContextualWeighting.py:46-52 | one dimension keeps its name; without a boost it is unchanged; with a boost its value is at most 1.0 and at most score + boost |
| `Weighting.Weighted` | EthiCore/ContextualWeighting.py:44-57 | the output has exactly the input's keys, in the same order |
| `Weighting.IndexOf` | EthiCore/ContextualWeighting.py:48 | finds a position holding the name iff the name is a key of the scores |
| `Weighting.ContextualWeighting.constructor` | EthiCore/ContextualWeighting.py:12-15 | the stage's two documents are the loaded files, with a missing file as the empty document |
| `Weighting.ContextualWeighting.ApplyWeighting` | EthiCore/ContextualWeighting.py:27-57 | updating a copy of the scores in place, boost by boost, gives `Weighted` of the scores and the context's boosts; the input is not changed |
| `Weighting.BoostForFindsEntry` | EthiCore/ContextualWeighting.py:46 | with distinct boost keys, the boost found for a configured name is its configured value |
| `Weighting.BoostedDimension` | EthiCore/ContextualWeighting.py:46-52 | a dimension present in both the scores and the boosts becomes min(score + boost, 1.0) |
| `Weighting.BoostLocality` | EthiCore/ContextualWeighting.py:46-48 | a dimension with no boost entry keeps its value exactly |
| `Weighting.AbsentBoostIgnored` | EthiCore/ContextualWeighting.py:48 | a boost naming no dimension of the scores can be dropped without changing the output |
| `Weighting.UpperClamp` | EthiCore/ContextualWeighting.py:50-52 | when no input score exceeds 1.0, no output score does |
| `Weighting.NoLowerClamp` | EthiCore/ContextualWeighting.py:50-52 | a negative boost takes 0.2 to -0.3: there is no lower clamp |
| `Weighting.IdentityWithoutBoosts` | EthiCore/ContextualWeighting.py:39-42 | an unknown context, or one without `threshold_boost`, leaves the scores unchanged |

## Left out

- Reading the YAML files and printing the warning in `_load_config` (`EthiCore/InferenceEngine.py:18-25`, `EthiCore/ContextualWeighting.py:17-25`) are file I/O. The model takes each document as parsed, with a missing file as the empty document.
- A document that parses to something other than a mapping is left out, for example an empty file, which loads as `None`, or a key holding `null`. The model assumes well-typed documents.
- The log line at `EthiCore/ContextualWeighting.py:56` is output only.
- The exact wording of the questions is left out. Each question is a constructor carrying the names it interpolates.
- Scores and thresholds are Python floats. They are modelled as exact reals, so rounding and NaN comparisons are not captured.
- `Inference.InferenceEngine.GenerateQuestions`: an empty score mapping raises in `max()` in the source. The model excludes it with a precondition instead of modelling the exception.
- `Weighting.ContextualWeighting.ApplyWeighting` requires distinct keys in the scores and in each boost mapping of the loaded document; the constructor accepts any document. Python dicts guarantee this, and a repeated YAML key keeps its last value, which is what `Weighting.BoostFor` looks up.
- The input mapping is left unchanged because Dafny sequences are values. Aliasing of the Python dict is not modelled.
- Determinism holds because every member is a function of its inputs. It needs no separate lemma.
- The FastAPI endpoints in `API_Handler.py` are HTTP plumbing and are not part of this model.
- The scoring networks in `EthiCore/EthicalNetsModel.py` use PyTorch floating point. Scores are inputs here.
- The context classifier in `EthiCore/ContextualClassifier.py` wraps sklearn. The context label is an arbitrary string here.
- The demo drivers `EthicalDecisionAssistant.py` and `Ethical-AI-Assistant/EthicalDecisionAssistant.py` are not part of this model. The first calls methods the classes do not have.
- Composing weighting with question generation is left out, because the API handler never composes them.
