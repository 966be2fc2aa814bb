# Stress-detection API: advice rules and decision gate

This project models the rule-based part of the stress-detection HTTP API
(`api.py`). It covers two pieces.

- **The advice generator** (`generate_advice`). It compares five window
  summary features against fixed thresholds: mean heart rate, mean EDA, mean
  skin temperature, mean acceleration magnitude and HRV SDNN. Each rule that
  fires appends one fixed sentence. The sentences keep the order heart rate,
  EDA, temperature, movement, HRV, and are joined with single spaces. When no
  rule fires, the fallback sentence "Everything looks stable. Keep up the good
  balance!" is the whole advice.
- **The decision gate of `/predict`** (`predict_stress`). A reading whose
  temperature lies in [36.0, 37.5], whose EDA is at most 3.0 and whose three
  acceleration axes are each strictly inside (-50, 50) is answered at once.
  The answer is `NOT STRESSED` with probability 0.0 and a fixed "vital signs
  appear normal" advice. Any other reading is labelled `STRESSED` exactly when
  the classifier's stress probability is at least 0.70. Its advice comes from
  the advice generator.

Modules:

- `Wrappers` (`wrappers.dfy`): `Option`.
- `Sentences` (`sentences.dfy`): Python's `str.join`, rendering a word list as
  space-joined sentences, and a decoder that reads such a text back over any
  prefix-free vocabulary.
- `Advice` (`advice.dfy`): features, thresholds, the `Message` enumeration
  with the exact sentences, the five rules, the message list, the advice
  string, and the lemmas about them.
- `Predict` (`predict.dfy`): the sensor input, the override predicate, the
  0.70 threshold and the endpoint's answer.

All values are Dafny `real`s. api.py compares them against constants only,
with no arithmetic. The model reads each Python float as its shortest decimal
(its `repr`), so a probability of 0.7 or a temperature of 37.7 equals the
threshold exactly. Read as exact binary values, a float that prints as a
threshold can lie just below or above it. Feature
extraction and the classifier are parameters of `Predict.PredictStress`: the
`features` record and the probability `proba`.

Each operation has a partner:

- The rules are checked against `Fires`. It states each message's trigger
  directly, without the if/elif chains.
- The message list is the unique rank-ordered list of the warranted messages.
- The advice string decodes back to its message list.
- The prediction's label is consistent with its probability on both branches.

## Model

| member | source | states |
|---|---|---|
| Advice.Text | api.py:79-125 | The sentence appended for each message and the fallback, character for character. Every sentence is longer than 20 characters. The rule sentences end with a full stop and the fallback ends with '!'. |
| Advice.HeartRateRule | api.py:77-86 | No heart-rate message exactly when 55 <= hr <= 100, so both boundary values are silent. The "elevated" message appears exactly when hr > 100. The "low" message appears exactly when hr < 55: the elif never hides it. The rule speaks only for the heart-rate slot. |
| Advice.EdaRule | api.py:88-96 | No EDA message exactly when 0.5 <= eda <= 5. The "high" message appears exactly when eda > 5 and the "very low" message exactly when eda < 0.5. |
| Advice.TemperatureRule | api.py:98-106 | No temperature message exactly when 35.5 <= temp <= 37.7. The "elevated" message appears exactly when temp > 37.7 and the "low" message exactly when temp < 35.5. |
| Advice.MovementRule | api.py:108-116 | No movement message exactly when 15 <= acc <= 120. The "high" message appears exactly when acc > 120 and the "very low" message exactly when acc < 15. |
| Advice.HrvRule | api.py:118-122 | The HRV message appears exactly when hrv < 0.03. There is no high-side message. |
| Advice.RuleOutcomes | api.py:77-122 | Five rule outcomes, in the order heart rate, EDA, temperature, movement, HRV. Slot i only ever carries a message of signal i. A rule message is among the outcomes exactly when its threshold condition holds. The fallback never is. |
| Advice.Collect | api.py:75-122 | The appended list holds exactly the messages of the rules that fired. It has exactly one entry per rule that fired. The order comes from CollectAppend and CollectSorted. |
| Advice.CollectAppend | api.py:75-122 | Collecting distributes over concatenation: the messages of two rule lists in sequence are the first list's messages followed by the second's. So each append keeps rule order. |
| Advice.CollectSorted | api.py:77-122 | Appending the rule outcomes in source order gives a list whose signal ranks strictly increase: heart rate, EDA, temperature, movement, HRV. |
| Advice.RuleMessages | api.py:75-122 | `advice_messages` before the fallback holds exactly the warranted rule messages. It is in strictly increasing signal order, so no signal speaks twice. |
| Advice.AdviceMessages | api.py:75-125 | The final list has between 1 and 5 messages and is in strictly increasing signal order. If it contains the fallback, the fallback is its only entry. |
| Advice.AdviceMatchesFires | api.py:77-125 | A message is in the advice exactly when its own threshold condition holds. The fallback is in it exactly when every feature is inside its band. |
| Advice.AdviceCharacterised | api.py:75-125 | Any rank-ordered list holding exactly the warranted messages is the advice list, so the list is fully determined. |
| Advice.RuleMessagesEmpty | api.py:124-125 | No rule fires exactly when every feature is inside its closed band. |
| Advice.GenerateAdvice | api.py:65-127 | The advice is never empty. It starts with the sentence of its first message. |
| Advice.FallbackExactly | api.py:124-127 | The whole advice equals the fallback sentence exactly when no rule fires. So the fallback is never combined with other sentences. |
| Advice.AdviceRoundTrip | api.py:75-127 | Splitting the advice string back into sentences gives exactly the message list it was built from. |
| Advice.AdviceDetermined | api.py:75-127 | Any string that reads back as the advice's message list is the generated advice itself. So the message list fixes the advice text. |
| Advice.DecodeRendered | api.py:127 | Any list of advice messages, joined with single spaces, decodes back to itself. |
| Advice.TextPrefixFree | api.py:79-125 | No advice sentence is a prefix of a different one, so the joined text is unambiguous. |
| Advice.AdviceFifthChar | api.py:65-127 | Every generated advice has at least six characters, and its character 5 is not 'v'. The override sentence has 'v' there ("Your vital…"). This is a helper for NormalAdviceNotGenerated, not a promise of `generate_advice` itself. |
| Sentences.Join | api.py:127 | `" ".join` of a non-empty list starts with the first part. Its length is the sum of the parts plus one separator between each pair. The join of an empty list is empty. |
| Sentences.Render | api.py:127 | Joining the sentences of a list with single spaces gives the empty string for an empty list. Otherwise the text starts with the first sentence and its length is the sentences' total plus one space between each pair. |
| Sentences.DecodeSound | api.py:127 | Decoding is sound: a text that decodes to a word list is exactly that list joined with single spaces. Together with DecodeRender, decoding and rendering are inverse. |
| Sentences.DecodeRender | api.py:127 | Over a prefix-free vocabulary of non-empty sentences, decoding a space-joined rendering returns the original word list. |
| Predict.Abs | api.py:232-234 | `abs` is non-negative and equals x or -x. |
| Predict.Classify | api.py:283-286 | The label is STRESSED exactly when the probability is >= 0.70. |
| Predict.PredictStress | api.py:227-295 | The answer is STRESSED exactly when the override does not apply and the probability is >= 0.70. On both branches the reported probability is >= 0.70 exactly when the label is STRESSED. A probability in [0, 1] yields a reported probability in [0, 1]. The advice is never empty. |
| Predict.Override | api.py:229-235 | The override holds exactly when 36.0 <= TEMP <= 37.5, EDA <= 3.0 and each acceleration axis lies strictly between -50 and 50. It never reads the BVP. |
| Predict.LabelName | api.py:286 | The `prediction` field reads "STRESSED" exactly for the stressed label and "NOT STRESSED" exactly for the other. |
| Predict.PredictionField | api.py:229-292 | The returned `prediction` text is "STRESSED" exactly when the override fails and the probability is at least 0.70. Otherwise it is "NOT STRESSED". |
| Predict.OverrideIgnoresModel | api.py:229-240 | Under the override the answer is NOT STRESSED with probability 0.0 and the fixed normal-signs advice. This holds whatever the BVP, the extracted features and the classifier's probability. |
| Predict.ThresholdMonotone | api.py:284-286 | Raising the classifier's probability never turns a STRESSED answer into NOT STRESSED. |
| Predict.ModelPathAdvice | api.py:288-295 | Without the override, the answer carries the classifier's probability unchanged. Its advice is exactly `generate_advice` of the features, and it decodes to the messages those features warrant. |
| Predict.NormalAdviceNotGenerated | api.py:236-240 | The override's fixed advice is never produced by the advice generator. |
| Predict.OverrideVisibleInAdvice | api.py:229-295 | The answer's advice equals the override's fixed sentence exactly when the override applied. |

## Left out

- Loading the CatBoost model from disk, the FastAPI app, the CORS middleware and the pydantic `SensorInput` schema (api.py:19-48): I/O and framework plumbing.
- `bandpower` and `extract_features_window` (api.py:54-59, 133-218): floating-point signal processing through scipy and numpy (Welch PSD, peak finding, skew, kurtosis, interpolation). Their result is the `features` parameter.
- The synthetic 6-second window built with `np.random.randn` (api.py:243-250): nondeterministic. The features it leads to are a parameter.
- `CatBoostClassifier.predict_proba`, the DataFrame construction and the column reordering (api.py:255-282): library calls. The probability is the `proba` parameter.
- The `except Exception` branch that returns `{"error": ...}` (api.py:227, 297-298): it only catches failures of the library calls above.
- Floating-point behaviour: rounding and NaN are not modelled. api.py works on Python floats; the model uses exact reals, so no value is NaN. Under NaN every comparison is false, which gives these cases:
  - A NaN TEMP, EDA or acceleration axis fails the override.
  - A NaN BVP does not touch the override, which never reads the BVP (api.py:229-235). Such a reading in range still takes it.
  - On the model path, what a NaN BVP does to the features is part of the unmodelled feature extraction. For example, fewer than two detected peaks set HR_mean = HRV_SDNN = 0.0 (api.py:214-216), which fires the low heart-rate and HRV messages.
  - A NaN feature keeps its own rule silent. When every other feature is in its band, api.py then gives the fallback although the NaN feature is not inside its band. FallbackExactly, RuleMessagesEmpty and AdviceMatchesFires (for the fallback) do not describe that case.
- Activity-level encoding, normalisation of free-text inference results, the per-subject detection history and the chart projection do not appear in `api.py`. They are not part of this model.
