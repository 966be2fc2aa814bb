/**
  The advice generator of the stress-detection API (`generate_advice` in
  api.py). Five window summary features are compared against fixed
  thresholds; every rule that fires contributes one fixed message, the
  messages keep the order heart rate, EDA, temperature, movement, HRV, and
  they are joined with single spaces. When no rule fires a fixed fallback
  message is the whole advice.

  The advice is modelled as a sequence of `Message` values; `Text` gives the
  exact sentence `generate_advice` appends for each one.
 */
module Advice {

  import opened Wrappers
  import Sentences

  /** The summary features `generate_advice` reads from the feature row. */
  datatype Features = Features(
    hrMean: real,      // HR_mean, beats per minute
    edaMean: real,     // EDA_mean
    tempMean: real,    // TEMP_mean, degrees Celsius
    accMagMean: real,  // ACC_mag_mean
    hrvSdnn: real      // HRV_SDNN, seconds
  )

  // Rule thresholds. Every comparison against them is strict.
  const HrHigh: real := 100.0
  const HrLow: real := 55.0
  const EdaHigh: real := 5.0
  const EdaLow: real := 0.5
  const TempHigh: real := 37.7
  const TempLow: real := 35.5
  const AccHigh: real := 120.0
  const AccLow: real := 15.0
  const HrvLow: real := 0.03

  /** One advice sentence. `Stable` is the fallback used when no rule fires. */
  datatype Message =
    | HeartRateElevated | HeartRateLow
    | EdaElevated | EdaVeryLow
    | TemperatureElevated | TemperatureLow
    | MovementHigh | MovementLow
    | HrvReduced
    | Stable

  /** Position of a message's signal in the output order; the fallback comes last. */
  function Rank(m: Message): nat
  {
    match m
    case HeartRateElevated | HeartRateLow => 0
    case EdaElevated | EdaVeryLow => 1
    case TemperatureElevated | TemperatureLow => 2
    case MovementHigh | MovementLow => 3
    case HrvReduced => 4
    case Stable => 5
  }

  /**
    The sentence appended for each message. Each sentence is written as a
    concatenation of pieces of at most 28 characters, which keeps proofs
    about single characters of it small; the concatenation is the sentence.
    Every rule sentence ends with a full stop and the fallback with '!'.
   */
  function Text(m: Message): (t: string)
    ensures |t| > 20
    ensures t[|t| - 1] == (if m == Stable then '!' else '.')
  {
    match m
    case HeartRateElevated =>
      "Your heart rate is elevated."
      + " Try taking slow, deep"
      + " breaths or pausing for a"
      + " short rest."
    case HeartRateLow =>
      "Your heart rate seems low."
      + " If you feel sluggish, a"
      + " brief walk or stretch may"
      + " help."
    case EdaElevated =>
      "Skin conductance is high,"
      + " which may indicate stress."
      + " A quick break or hydration"
      + " may help."
    case EdaVeryLow =>
      "Your EDA is very low,"
      + " suggesting a calm state."
    case TemperatureElevated =>
      "Your temperature is slightly"
      + " elevated. Cooling down or"
      + " drinking water may help."
    case TemperatureLow =>
      "Your temperature is low."
      + " Consider warming up or"
      + " moving gently."
    case MovementHigh =>
      "Movement level is high,"
      + " which can reflect physical"
      + " agitation. Try slowing your"
      + " pace or sitting"
      + " comfortably."
    case MovementLow =>
      "Very low movement detected."
      + " If you're tense or sitting"
      + " still for long, consider"
      + " stretching."
    case HrvReduced =>
      "Your HRV is low, which may"
      + " reflect reduced stress"
      + " tolerance. A short"
      + " relaxation exercise could"
      + " help."
    case Stable =>
      "Everything looks stable."
      + " Keep up the good balance!"
  }

  // ---------------------------------------------------------------------------
  // Declarative reading of the rule table
  // ---------------------------------------------------------------------------

  /** Some feature lies outside its normal band (the closed bands bounded by the thresholds). */
  predicate OutOfBand(f: Features)
  {
    || !(HrLow <= f.hrMean <= HrHigh)
    || !(EdaLow <= f.edaMean <= EdaHigh)
    || !(TempLow <= f.tempMean <= TempHigh)
    || !(AccLow <= f.accMagMean <= AccHigh)
    || f.hrvSdnn < HrvLow
  }

  /** Message `m` is warranted by the features `f`, stated per message without the if/elif chains. */
  predicate Fires(m: Message, f: Features)
  {
    match m
    case HeartRateElevated => f.hrMean > HrHigh
    case HeartRateLow => f.hrMean < HrLow
    case EdaElevated => f.edaMean > EdaHigh
    case EdaVeryLow => f.edaMean < EdaLow
    case TemperatureElevated => f.tempMean > TempHigh
    case TemperatureLow => f.tempMean < TempLow
    case MovementHigh => f.accMagMean > AccHigh
    case MovementLow => f.accMagMean < AccLow
    case HrvReduced => f.hrvSdnn < HrvLow
    case Stable => !OutOfBand(f)
  }

  /** Messages appear in strictly increasing signal order, so no signal speaks twice. */
  predicate RankSorted(ms: seq<Message>)
  {
    forall i, j :: 0 <= i < j < |ms| ==> Rank(ms[i]) < Rank(ms[j])
  }

  /** An outcome that is a message has rank `r`. */
  predicate RankIs(o: Option<Message>, r: nat)
  {
    o.Some? ==> Rank(o.value) == r
  }

  // ---------------------------------------------------------------------------
  // The rule table as `generate_advice` evaluates it
  // ---------------------------------------------------------------------------

  /** Heart-rate rule: the high branch is tested first, the low branch only as an elif. */
  function HeartRateRule(hr: real): (m: Option<Message>)
    ensures RankIs(m, 0)
    ensures m.None? <==> HrLow <= hr <= HrHigh
    ensures m == Some(HeartRateElevated) <==> hr > HrHigh
    ensures m == Some(HeartRateLow) <==> hr < HrLow
  {
    if hr > HrHigh then Some(HeartRateElevated)
    else if hr < HrLow then Some(HeartRateLow)
    else None
  }

  /** EDA rule. */
  function EdaRule(eda: real): (m: Option<Message>)
    ensures RankIs(m, 1)
    ensures m.None? <==> EdaLow <= eda <= EdaHigh
    ensures m == Some(EdaElevated) <==> eda > EdaHigh
    ensures m == Some(EdaVeryLow) <==> eda < EdaLow
  {
    if eda > EdaHigh then Some(EdaElevated)
    else if eda < EdaLow then Some(EdaVeryLow)
    else None
  }

  /** Temperature rule. */
  function TemperatureRule(temp: real): (m: Option<Message>)
    ensures RankIs(m, 2)
    ensures m.None? <==> TempLow <= temp <= TempHigh
    ensures m == Some(TemperatureElevated) <==> temp > TempHigh
    ensures m == Some(TemperatureLow) <==> temp < TempLow
  {
    if temp > TempHigh then Some(TemperatureElevated)
    else if temp < TempLow then Some(TemperatureLow)
    else None
  }

  /** Movement rule on the mean acceleration magnitude. */
  function MovementRule(acc: real): (m: Option<Message>)
    ensures RankIs(m, 3)
    ensures m.None? <==> AccLow <= acc <= AccHigh
    ensures m == Some(MovementHigh) <==> acc > AccHigh
    ensures m == Some(MovementLow) <==> acc < AccLow
  {
    if acc > AccHigh then Some(MovementHigh)
    else if acc < AccLow then Some(MovementLow)
    else None
  }

  /** HRV rule: a low side only. */
  function HrvRule(hrv: real): (m: Option<Message>)
    ensures RankIs(m, 4)
    ensures m == Some(HrvReduced) <==> hrv < HrvLow
    ensures m.None? <==> hrv >= HrvLow
  {
    if hrv < HrvLow then Some(HrvReduced) else None
  }

  /**
    The outcomes of the five rules, in the order `generate_advice` evaluates
    them: slot i speaks only for signal i, and a rule message is among the
    outcomes exactly when it is warranted.
   */
  function RuleOutcomes(f: Features): (os: seq<Option<Message>>)
    ensures |os| == 5
    ensures forall i :: 0 <= i < |os| ==> RankIs(os[i], i)
    ensures forall m :: m != Stable ==> (Some(m) in os <==> Fires(m, f))
    ensures Some(Stable) !in os
  {
    [ HeartRateRule(f.hrMean),
      EdaRule(f.edaMean),
      TemperatureRule(f.tempMean),
      MovementRule(f.accMagMean),
      HrvRule(f.hrvSdnn) ]
  }

  /** Number of outcomes that are messages. */
  function FiredCount(os: seq<Option<Message>>): (n: nat)
    ensures n <= |os|
  {
    if os == [] then 0 else (if os[0].Some? then 1 else 0) + FiredCount(os[1..])
  }

  /** The messages of the rules that fired, in rule order: one entry per fired rule. */
  function Collect(os: seq<Option<Message>>): (ms: seq<Message>)
    ensures |ms| == FiredCount(os)
    ensures forall m :: m in ms <==> Some(m) in os
  {
    if os == [] then []
    else
      match os[0]
      case None => Collect(os[1..])
      case Some(m) => [m] + Collect(os[1..])
  }

  /** The list `advice_messages` before the fallback is considered. */
  function RuleMessages(f: Features): (ms: seq<Message>)
    ensures RankSorted(ms)
    ensures forall m :: m in ms <==> m != Stable && Fires(m, f)
  {
    CollectSorted(RuleOutcomes(f), 0);
    Collect(RuleOutcomes(f))
  }

  /** The final list of messages: the rule messages, or the fallback alone. */
  function AdviceMessages(f: Features): (ms: seq<Message>)
    ensures 1 <= |ms| <= 5
    ensures RankSorted(ms)
    ensures Stable in ms ==> ms == [Stable]
  {
    var rules := RuleMessages(f);
    if rules == [] then [Stable] else rules
  }

  /** `generate_advice`: the advice sentences joined by single spaces. */
  function GenerateAdvice(f: Features): (advice: string)
    ensures |advice| > 0
    ensures Text(AdviceMessages(f)[0]) <= advice
  {
    var ms := AdviceMessages(f);
    TextShape(ms[0]);
    Sentences.Render(Text, ms)
  }

  /** Every message, the vocabulary the advice is written in. */
  const AllMessages: seq<Message> := [
    HeartRateElevated, HeartRateLow, EdaElevated, EdaVeryLow,
    TemperatureElevated, TemperatureLow, MovementHigh, MovementLow,
    HrvReduced, Stable
  ]

  /** Reads an advice string back into its messages, or None if it is not one. */
  function Decode(advice: string): Option<seq<Message>>
  {
    TextsNonEmpty();
    Sentences.Decode(Text, AllMessages, advice)
  }

  // ---------------------------------------------------------------------------
  // Proof helpers: characters that tell the sentences apart
  //
  // Characters 5 and 20 differ between any two sentences. These facts are not
  // promises of api.py; they serve TextPrefixFree and AdviceFifthChar.
  // ---------------------------------------------------------------------------

  /** Character 5 of each sentence; none of them has a 'v' there. */
  function Char5(m: Message): (c: char)
    ensures c != 'v'
  {
    match m
    case HeartRateElevated => 'h'
    case HeartRateLow => 'h'
    case EdaElevated => 'c'
    case EdaVeryLow => 'E'
    case TemperatureElevated => 't'
    case TemperatureLow => 't'
    case MovementHigh => 'e'
    case MovementLow => 'l'
    case HrvReduced => 'H'
    case Stable => 't'
  }

  /** Character 20 of each sentence. */
  function Char20(m: Message): char
  {
    match m
    case HeartRateElevated => 'l'
    case HeartRateLow => 's'
    case EdaElevated => 'h'
    case EdaVeryLow => ','
    case TemperatureElevated => 's'
    case TemperatureLow => 'l'
    case MovementHigh => 'g'
    case MovementLow => 't'
    case HrvReduced => 'c'
    case Stable => 'b'
  }

  // One lemma per sentence keeps each proof about a string literal small.
  lemma ShapeHeartRateElevated()
    ensures |Text(HeartRateElevated)| > 20
    ensures Text(HeartRateElevated)[5] == Char5(HeartRateElevated) && Text(HeartRateElevated)[20] == Char20(HeartRateElevated)
  {
  }

  lemma ShapeHeartRateLow()
    ensures |Text(HeartRateLow)| > 20
    ensures Text(HeartRateLow)[5] == Char5(HeartRateLow) && Text(HeartRateLow)[20] == Char20(HeartRateLow)
  {
  }

  lemma ShapeEdaElevated()
    ensures |Text(EdaElevated)| > 20
    ensures Text(EdaElevated)[5] == Char5(EdaElevated) && Text(EdaElevated)[20] == Char20(EdaElevated)
  {
  }

  lemma ShapeEdaVeryLow()
    ensures |Text(EdaVeryLow)| > 20
    ensures Text(EdaVeryLow)[5] == Char5(EdaVeryLow) && Text(EdaVeryLow)[20] == Char20(EdaVeryLow)
  {
  }

  lemma ShapeTemperatureElevated()
    ensures |Text(TemperatureElevated)| > 20
    ensures Text(TemperatureElevated)[5] == Char5(TemperatureElevated) && Text(TemperatureElevated)[20] == Char20(TemperatureElevated)
  {
  }

  lemma ShapeTemperatureLow()
    ensures |Text(TemperatureLow)| > 20
    ensures Text(TemperatureLow)[5] == Char5(TemperatureLow) && Text(TemperatureLow)[20] == Char20(TemperatureLow)
  {
  }

  lemma ShapeMovementHigh()
    ensures |Text(MovementHigh)| > 20
    ensures Text(MovementHigh)[5] == Char5(MovementHigh) && Text(MovementHigh)[20] == Char20(MovementHigh)
  {
  }

  lemma ShapeMovementLow()
    ensures |Text(MovementLow)| > 20
    ensures Text(MovementLow)[5] == Char5(MovementLow) && Text(MovementLow)[20] == Char20(MovementLow)
  {
  }

  lemma ShapeHrvReduced()
    ensures |Text(HrvReduced)| > 20
    ensures Text(HrvReduced)[5] == Char5(HrvReduced) && Text(HrvReduced)[20] == Char20(HrvReduced)
  {
  }

  lemma ShapeStable()
    ensures |Text(Stable)| > 20
    ensures Text(Stable)[5] == Char5(Stable) && Text(Stable)[20] == Char20(Stable)
  {
  }

  /** Characters 5 and 20 of the sentences; together they tell the sentences apart. */
  lemma TextShape(m: Message)
    ensures |Text(m)| > 20
    ensures Text(m)[5] == Char5(m) && Text(m)[20] == Char20(m)
  {
    match m
    case HeartRateElevated => ShapeHeartRateElevated();
    case HeartRateLow => ShapeHeartRateLow();
    case EdaElevated => ShapeEdaElevated();
    case EdaVeryLow => ShapeEdaVeryLow();
    case TemperatureElevated => ShapeTemperatureElevated();
    case TemperatureLow => ShapeTemperatureLow();
    case MovementHigh => ShapeMovementHigh();
    case MovementLow => ShapeMovementLow();
    case HrvReduced => ShapeHrvReduced();
    case Stable => ShapeStable();
  }

  // ---------------------------------------------------------------------------
  // Lemmas
  // ---------------------------------------------------------------------------

  /** No sentence is a prefix of a different one. */
  lemma TextPrefixFree(a: Message, b: Message)
    requires a != b
    ensures !(Text(a) <= Text(b))
  {
    TextShape(a);
    TextShape(b);
    if Text(a) <= Text(b) {
      assert false;
    }
  }

  lemma InVocabulary(m: Message)
    ensures m in AllMessages
  {
  }

  lemma TextsNonEmpty()
    ensures Sentences.NonEmpty(Text, AllMessages)
  {
  }

  /** The advice sentences form a prefix-free vocabulary. */
  lemma TextsPrefixFree()
    ensures Sentences.PrefixFree(Text, AllMessages)
  {
    forall i, j | 0 <= i < |AllMessages| && 0 <= j < |AllMessages| && AllMessages[i] != AllMessages[j]
      ensures !(Text(AllMessages[i]) <= Text(AllMessages[j]))
    {
      TextPrefixFree(AllMessages[i], AllMessages[j]);
    }
  }

  /** Any list of messages, rendered as `generate_advice` renders advice, decodes back to itself. */
  lemma DecodeRendered(ms: seq<Message>)
    ensures Decode(Sentences.Render(Text, ms)) == Some(ms)
  {
    TextsNonEmpty();
    TextsPrefixFree();
    forall i | 0 <= i < |ms|
      ensures ms[i] in AllMessages
    {
      InVocabulary(ms[i]);
    }
    Sentences.DecodeRender(Text, AllMessages, ms);
  }

  /**
    Character 5 of any advice is that of its first sentence, never a 'v'.
    A helper for telling generated advice from the override's sentence.
   */
  lemma AdviceFifthChar(f: Features)
    ensures |GenerateAdvice(f)| > 5 && GenerateAdvice(f)[5] != 'v'
  {
    var first := AdviceMessages(f)[0];
    TextShape(first);
    assert Text(first) <= GenerateAdvice(f);
    assert GenerateAdvice(f)[5] == Text(first)[5];
  }

  /** The advice string decodes to exactly the message list it was built from. */
  lemma AdviceRoundTrip(f: Features)
    ensures Decode(GenerateAdvice(f)) == Some(AdviceMessages(f))
  {
    DecodeRendered(AdviceMessages(f));
  }

  /** A string that decodes to the advice's message list is the generated advice. */
  lemma AdviceDetermined(f: Features, s: string)
    requires Decode(s) == Some(AdviceMessages(f))
    ensures s == GenerateAdvice(f)
  {
    TextsNonEmpty();
    Sentences.DecodeSound(Text, AllMessages, s, AdviceMessages(f));
  }

  /** A message ranked below everything in a sorted list can head it. */
  lemma SortedCons(m: Message, ms: seq<Message>)
    requires RankSorted(ms)
    requires forall x :: x in ms ==> Rank(m) < Rank(x)
    ensures RankSorted([m] + ms)
  {
  }

  /** Collecting outcomes whose ranks follow their positions gives a rank-sorted list. */
  lemma {:induction false} CollectSorted(os: seq<Option<Message>>, k: nat)
    requires forall i :: 0 <= i < |os| ==> RankIs(os[i], k + i)
    ensures RankSorted(Collect(os))
    ensures forall m :: m in Collect(os) ==> k <= Rank(m) < k + |os|
  {
    if os != [] {
      var tail := os[1..];
      forall i | 0 <= i < |tail|
        ensures RankIs(tail[i], (k + 1) + i)
      {
        assert tail[i] == os[i + 1];
      }
      CollectSorted(tail, k + 1);
      assert RankIs(os[0], k);
      match os[0]
      case None =>
      case Some(m) =>
        SortedCons(m, Collect(tail));
    }
  }

  /**
    Collecting distributes over concatenation: the messages of a longer rule
    list are those of its first part followed by those of the rest, so the
    appends keep rule order.
   */
  lemma {:induction false} CollectAppend(a: seq<Option<Message>>, b: seq<Option<Message>>)
    ensures Collect(a + b) == Collect(a) + Collect(b)
  {
    if a != [] {
      assert (a + b)[0] == a[0];
      assert (a + b)[1..] == a[1..] + b;
      CollectAppend(a[1..], b);
    } else {
      assert a + b == b;
    }
  }

  /** Rule messages exist exactly when some feature is outside its band. */
  lemma RuleMessagesEmpty(f: Features)
    ensures RuleMessages(f) == [] <==> !OutOfBand(f)
  {
    var os := RuleOutcomes(f);
    if RuleMessages(f) == [] {
      forall i | 0 <= i < 5
        ensures os[i].None?
      {
      }
    } else {
      var m := RuleMessages(f)[0];
      assert Some(m) in os;
    }
  }

  /** A message is in the advice exactly when it is warranted by the features. */
  lemma AdviceMatchesFires(f: Features)
    ensures forall m :: m in AdviceMessages(f) <==> Fires(m, f)
  {
    RuleMessagesEmpty(f);
  }

  /** The head of a sorted list ranks below everything after it. */
  lemma SortedSplit(xs: seq<Message>)
    requires RankSorted(xs) && xs != []
    ensures xs == [xs[0]] + xs[1..]
    ensures RankSorted(xs[1..])
    ensures forall m :: m in xs[1..] ==> Rank(xs[0]) < Rank(m)
  {
  }

  /** Two rank-sorted lists with the same members are the same list. */
  lemma {:induction false} SortedUnique(xs: seq<Message>, ys: seq<Message>)
    requires RankSorted(xs) && RankSorted(ys)
    requires forall m :: m in xs <==> m in ys
    ensures xs == ys
  {
    if xs != [] {
      assert xs[0] in ys;
    }
    if ys != [] {
      assert ys[0] in xs;
    }
    if xs != [] && ys != [] {
      SortedSplit(xs);
      SortedSplit(ys);
      var x, y := xs[0], ys[0];
      assert x == y by {
        assert y in xs && x in ys;
      }
      forall m
        ensures m in xs[1..] <==> m in ys[1..]
      {
        if m in xs[1..] || m in ys[1..] {
          assert m != x;
          assert m in xs && m in ys;
        }
      }
      SortedUnique(xs[1..], ys[1..]);
    }
  }

  /** The advice list is the one rank-ordered list of the warranted messages. */
  lemma AdviceCharacterised(f: Features, ms: seq<Message>)
    requires RankSorted(ms)
    requires forall m :: m in ms <==> Fires(m, f)
    ensures ms == AdviceMessages(f)
  {
    AdviceMatchesFires(f);
    SortedUnique(ms, AdviceMessages(f));
  }

  /** The fallback sentence is the whole advice exactly when every feature is within its band. */
  lemma FallbackExactly(f: Features)
    ensures GenerateAdvice(f) == Text(Stable) <==> !OutOfBand(f)
  {
    RuleMessagesEmpty(f);
    AdviceRoundTrip(f);
    var ms := AdviceMessages(f);
    if GenerateAdvice(f) == Text(Stable) {
      assert Sentences.Spell(Text, [Stable]) == [Text(Stable)];
      assert Sentences.Render(Text, [Stable]) == Text(Stable);
      DecodeRendered([Stable]);
      assert ms == [Stable];
    }
  }
}
