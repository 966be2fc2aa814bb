/**
  The decision gate of the `/predict` endpoint (`predict_stress` in api.py).

  A reading whose temperature, EDA and acceleration look like rest is
  answered at once as not stressed, with probability 0.0 and a fixed advice
  sentence. Any other reading goes through feature extraction and the
  classifier; the classifier's stress probability is labelled with a 0.70
  threshold and the advice is generated from the extracted features.

  Feature extraction and the classifier are not modelled: their results are
  the parameters `features` and `proba` of PredictStress.
 */
module Predict {

  import opened Wrappers
  import Advice

  /** The sensor reading posted to the endpoint. */
  datatype SensorInput = SensorInput(
    bvp: real,
    eda: real,
    temp: real,
    accX: real,
    accY: real,
    accZ: real
  )

  datatype Label = Stressed | NotStressed

  /** The endpoint's answer: its `prediction`, `probability` and `advice` fields. */
  datatype Prediction = Prediction(status: Label, probability: real, advice: string)

  // Override band: temperature in [36.0, 37.5], EDA at most 3.0, every
  // acceleration axis strictly inside (-50, 50).
  const OverrideTempLow: real := 36.0
  const OverrideTempHigh: real := 37.5
  const OverrideEdaMax: real := 3.0
  const OverrideAccLimit: real := 50.0

  /** Probability from which the classifier's answer is labelled stressed. */
  const Threshold: real := 0.70

  /** The advice returned when the override applies. */
  const NormalAdvice: string :=
    "Your vital signs appear normal."
    + " Everything looks stable."

  /** The text of the answer's `prediction` field; the two labels read differently. */
  function LabelName(l: Label): (name: string)
    ensures name == "STRESSED" <==> l == Stressed
    ensures name == "NOT STRESSED" <==> l == NotStressed
  {
    match l
    case Stressed => "STRESSED"
    case NotStressed => "NOT STRESSED"
  }

  /** Python's `abs` on a real. */
  function Abs(x: real): (r: real)
    ensures r >= 0.0
    ensures r == x || r == -x
  {
    if x < 0.0 then -x else x
  }

  /**
    The physiological override: readings that look like rest skip the
    classifier. It is a box in (temperature, EDA, acceleration) and does not
    read the BVP.
   */
  function Override(input: SensorInput): (b: bool)
    ensures b <==>
      && 36.0 <= input.temp <= 37.5
      && input.eda <= 3.0
      && -50.0 < input.accX < 50.0
      && -50.0 < input.accY < 50.0
      && -50.0 < input.accZ < 50.0
  {
    && OverrideTempLow <= input.temp <= OverrideTempHigh
    && input.eda <= OverrideEdaMax
    && Abs(input.accX) < OverrideAccLimit
    && Abs(input.accY) < OverrideAccLimit
    && Abs(input.accZ) < OverrideAccLimit
  }

  /** The label the threshold gives a classifier probability. */
  function Classify(proba: real): (l: Label)
    ensures l == Stressed <==> proba >= Threshold
  {
    if proba >= Threshold then Stressed else NotStressed
  }

  /**
    `predict_stress`, given the features extracted from the reading's window
    and the classifier's stress probability for them.
   */
  function PredictStress(input: SensorInput, features: Advice.Features, proba: real): (p: Prediction)
    ensures p.status == Stressed <==> !Override(input) && proba >= Threshold
    ensures p.status == Stressed <==> p.probability >= Threshold
    ensures 0.0 <= proba <= 1.0 ==> 0.0 <= p.probability <= 1.0
    ensures |p.advice| > 0
  {
    if Override(input) then
      Prediction(NotStressed, 0.0, NormalAdvice)
    else
      Prediction(Classify(proba), proba, Advice.GenerateAdvice(features))
  }

  // ---------------------------------------------------------------------------
  // Lemmas
  // ---------------------------------------------------------------------------

  /**
    When the override applies, the answer is the fixed not-stressed answer
    whatever the BVP, the extracted features and the classifier's output.
   */
  lemma OverrideIgnoresModel(
    a: SensorInput, fa: Advice.Features, pa: real,
    b: SensorInput, fb: Advice.Features, pb: real)
    requires Override(a)
    requires a.temp == b.temp && a.eda == b.eda
    requires a.accX == b.accX && a.accY == b.accY && a.accZ == b.accZ
    ensures PredictStress(a, fa, pa) == PredictStress(b, fb, pb)
    ensures PredictStress(a, fa, pa) == Prediction(NotStressed, 0.0, NormalAdvice)
  {
  }

  /** The `prediction` field reads "STRESSED" exactly when the override fails and the probability reaches 0.70. */
  lemma PredictionField(input: SensorInput, features: Advice.Features, proba: real)
    ensures LabelName(PredictStress(input, features, proba).status) ==
      (if !Override(input) && proba >= Threshold then "STRESSED" else "NOT STRESSED")
  {
  }

  /** A higher classifier probability never turns a stressed answer into a not-stressed one. */
  lemma ThresholdMonotone(input: SensorInput, features: Advice.Features, p: real, q: real)
    requires p <= q
    ensures PredictStress(input, features, p).status == Stressed ==>
      PredictStress(input, features, q).status == Stressed
  {
  }

  /** Without the override the advice is the generated one and reads back as the warranted messages. */
  lemma ModelPathAdvice(input: SensorInput, features: Advice.Features, proba: real)
    requires !Override(input)
    ensures Advice.Decode(PredictStress(input, features, proba).advice)
      == Some(Advice.AdviceMessages(features))
    ensures PredictStress(input, features, proba).probability == proba
    ensures PredictStress(input, features, proba).advice == Advice.GenerateAdvice(features)
  {
    Advice.AdviceRoundTrip(features);
  }

  lemma NormalAdviceShape()
    ensures |NormalAdvice| > 5 && NormalAdvice[5] == 'v'
  {
  }

  /** Generated advice never equals the override's sentence. */
  lemma NormalAdviceNotGenerated(features: Advice.Features)
    ensures Advice.GenerateAdvice(features) != NormalAdvice
  {
    Advice.AdviceFifthChar(features);
    NormalAdviceShape();
  }

  /** The answer's advice shows whether the override applied. */
  lemma OverrideVisibleInAdvice(input: SensorInput, features: Advice.Features, proba: real)
    ensures PredictStress(input, features, proba).advice == NormalAdvice <==> Override(input)
  {
    NormalAdviceNotGenerated(features);
  }
}
