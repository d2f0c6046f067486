/** The verdict rule of the palm-oil ripeness detector: the classifier's
    probability vector (one score per class, in the order of Labels) is
    turned into exactly one status with its display card, and a detail
    view lists the per-class scores. Scores are exact reals. */
module Decision {

  /** Class names in the order of the classifier's output. */
  const Labels: seq<string> :=
    ["Mentah (Unripe)", "Matang (Ripe)", "Lewat Matang (Overripe)", "⛔ Bukan Sawit"]

  /** The reserved "not a palm fruit" class. */
  const NotPalmIndex: nat := 3

  /** Below this peak probability a palm-fruit prediction is not trusted. */
  const Threshold: real := 0.65

  datatype Status = Unrecognized | Doubtful | Unripe | Ripe | Overripe

  /** The ripeness statuses, indexed by their class number. */
  const RipenessClasses: seq<Status> := [Unripe, Ripe, Overripe]

  /** The five display values every branch of the rule binds. */
  datatype Card = Card(background: string, textColor: string, title: string,
                       description: string, icon: string)

  /** The static display table keyed by status. */
  function CardOf(s: Status): Card
  {
    match s
    case Unrecognized =>
      Card("#37474F", "#ECEFF1", "TIDAK DIKENALI",
           "Objek tidak teridentifikasi sebagai buah sawit.", "🚫")
    case Doubtful =>
      Card("#FF6F00", "#FFFFFF", "MERAGUKAN",
           "Mirip sawit, namun AI kurang yakin. Coba foto ulang.", "⚠️")
    case Unripe =>
      Card("#D50000", "#FFFFFF", "MENTAH (UNRIPE)",
           "Buah berwarna hitam/ungu. Belum siap panen.", "❌")
    case Ripe =>
      Card("#00C853", "#FFFFFF", "MATANG (RIPE)",
           "Warna oranye kemerahan. Kualitas optimal.", "✅")
    case Overripe =>
      Card("#FFD600", "#212121", "LEWAT MATANG",
           "Buah mulai membrondol. Segera angkut.", "⚠️")
  }

  /** Every status has its own title, so the card's heading identifies the verdict. */
  lemma TitlesDistinct(s: Status, t: Status)
    requires s != t
    ensures CardOf(s).title != CardOf(t).title
  {
  }

  /** Every status has its own background colour. */
  lemma BackgroundsDistinct(s: Status, t: Status)
    requires s != t
    ensures CardOf(s).background != CardOf(t).background
  {
  }

  /** The icon alone does not identify the status: MERAGUKAN and LEWAT MATANG share one. */
  lemma IconsShared(s: Status, t: Status)
    ensures CardOf(s).icon == CardOf(t).icon <==>
              s == t || (s == Doubtful && t == Overripe) || (s == Overripe && t == Doubtful)
  {
  }

  // ---------------------------------------------------------------- arg-max

  /** k is the first position holding the largest score of p. */
  ghost predicate IsFirstMax(p: seq<real>, k: nat)
  {
    && k < |p|
    && (forall j :: 0 <= j < |p| ==> p[j] <= p[k])
    && (forall j :: 0 <= j < k ==> p[j] < p[k])
  }

  /** The arg-max as a left-to-right scan that only moves on a strictly
      larger score, so ties go to the lowest index. */
  function Argmax(p: seq<real>): (k: nat)
    requires |p| > 0
    ensures k < |p|
    ensures forall j :: 0 <= j < |p| ==> p[j] <= p[k]
    ensures forall j :: 0 <= j < k ==> p[j] < p[k]
  {
    if |p| == 1 then 0
    else
      var best := Argmax(p[..|p| - 1]);
      if p[|p| - 1] > p[best] then |p| - 1 else best
  }

  /** The first maximum is unique, so Argmax is the only index it could be. */
  lemma ArgmaxIsFirstMax(p: seq<real>, k: nat)
    requires |p| > 0
    ensures IsFirstMax(p, k) <==> k == Argmax(p)
  {
  }

  // ---------------------------------------------------------------- verdict

  datatype Verdict = Verdict(index: nat, confidence: real, status: Status)

  /** Ways the rule can fail to produce a card (the surrounding code then
      shows a generic error instead). */
  datatype Failure =
    | EmptyPrediction           // the arg-max of an empty vector is undefined
    | NoCardBound(index: nat)   // a confident index beyond the table binds no display value

  datatype Result = Ok(value: Verdict) | Err(error: Failure)

  /** The first-match-wins rule stated declaratively: v is a verdict for p
      when its index is the first maximum, its confidence is that score, and
      its status follows the three rules in order of precedence. */
  ghost predicate IsVerdictFor(p: seq<real>, v: Verdict)
  {
    && IsFirstMax(p, v.index)
    && v.confidence == p[v.index]
    && (v.index == NotPalmIndex ==> v.status == Unrecognized)
    && (v.index != NotPalmIndex && v.confidence < Threshold ==> v.status == Doubtful)
    && (v.index != NotPalmIndex && v.confidence >= Threshold ==>
          v.index < |RipenessClasses| && v.status == RipenessClasses[v.index])
  }

  /** The decision chain: negative class first, then the low-confidence
      guard, then the ripeness lookup. */
  function Decide(p: seq<real>): (r: Result)
    ensures r == Err(EmptyPrediction) <==> |p| == 0
    ensures |p| == |Labels| ==> r.Ok?
    ensures r.Ok? ==> IsFirstMax(p, r.value.index) && r.value.confidence == p[r.value.index]
    ensures r.Err? && |p| > 0 ==>
              r.error.NoCardBound? && IsFirstMax(p, r.error.index)
              && r.error.index >= |Labels| && p[r.error.index] >= Threshold
  {
    if |p| == 0 then Err(EmptyPrediction)
    else
      var index := Argmax(p);
      var confidence := p[index];
      if index == NotPalmIndex then Ok(Verdict(index, confidence, Unrecognized))
      else if confidence < Threshold then Ok(Verdict(index, confidence, Doubtful))
      else if index == 0 then Ok(Verdict(index, confidence, Unripe))
      else if index == 1 then Ok(Verdict(index, confidence, Ripe))
      else if index == 2 then Ok(Verdict(index, confidence, Overripe))
      else Err(NoCardBound(index))
  }

  /** Decide yields exactly the verdicts the declarative rule admits, and
      nothing when the rule admits none. */
  lemma DecideMatchesRule(p: seq<real>, v: Verdict)
    ensures Decide(p) == Ok(v) <==> IsVerdictFor(p, v)
  {
    if IsVerdictFor(p, v) {
      ArgmaxIsFirstMax(p, v.index);
    }
  }

  /** Every four-class vector gets exactly one verdict. */
  lemma {:induction false} VerdictExistsAndIsUnique(p: seq<real>, v: Verdict, w: Verdict)
    requires |p| == |Labels|
    ensures exists u :: IsVerdictFor(p, u)
    ensures IsVerdictFor(p, v) && IsVerdictFor(p, w) ==> v == w
  {
    DecideMatchesRule(p, Decide(p).value);
    DecideMatchesRule(p, v);
    DecideMatchesRule(p, w);
  }

  /** Negative class first: when "Bukan Sawit" is the arg-max the object is
      not recognised, whatever its confidence. */
  lemma NotPalmTakesPrecedence(p: seq<real>)
    requires |p| == |Labels|
    requires forall j :: 0 <= j < NotPalmIndex ==> p[j] < p[NotPalmIndex]
    ensures Decide(p) == Ok(Verdict(NotPalmIndex, p[NotPalmIndex], Unrecognized))
    ensures CardOf(Decide(p).value.status).title == "TIDAK DIKENALI"
    ensures CardOf(Decide(p).value.status).icon == "🚫"
  {
    ArgmaxIsFirstMax(p, NotPalmIndex);
  }

  /** A tie between the negative class and a palm class goes to the palm class. */
  lemma NotPalmLosesTies(p: seq<real>, j: nat)
    requires |p| == |Labels| && j < NotPalmIndex
    requires p[j] == p[NotPalmIndex]
    ensures Decide(p).value.status != Unrecognized
    ensures Decide(p).value.index < NotPalmIndex
  {
  }

  /** Low-confidence guard: a palm class below the threshold is doubtful. */
  lemma LowConfidenceIsDoubtful(p: seq<real>)
    requires |p| == |Labels|
    ensures Decide(p).value.index != NotPalmIndex && Decide(p).value.confidence < Threshold
            <==> Decide(p).value.status == Doubtful
    ensures Decide(p).value.status == Doubtful ==>
              CardOf(Doubtful).title == "MERAGUKAN" && CardOf(Doubtful).icon == "⚠️"
              && CardOf(Doubtful).background == "#FF6F00"
  {
  }

  /** The threshold is strict: a palm class at exactly 0.65 is classified. */
  lemma ThresholdIsStrict(p: seq<real>)
    requires |p| == |Labels|
    requires Argmax(p) < NotPalmIndex && p[Argmax(p)] == Threshold
    ensures Decide(p).value.status == RipenessClasses[Argmax(p)]
    ensures Decide(p).value.status != Doubtful
  {
  }

  /** The confident verdicts are the fixed ripeness entries. */
  lemma ConfidentRipeness(p: seq<real>)
    requires |p| == |Labels|
    requires Argmax(p) < NotPalmIndex && p[Argmax(p)] >= Threshold
    ensures Argmax(p) == 0 ==>
              (Decide(p).value.status == Unripe && CardOf(Unripe).title == "MENTAH (UNRIPE)"
               && CardOf(Unripe).background == "#D50000")
    ensures Argmax(p) == 1 ==>
              (Decide(p).value.status == Ripe && CardOf(Ripe).title == "MATANG (RIPE)"
               && CardOf(Ripe).background == "#00C853")
    ensures Argmax(p) == 2 ==>
              (Decide(p).value.status == Overripe && CardOf(Overripe).title == "LEWAT MATANG"
               && CardOf(Overripe).background == "#FFD600" && CardOf(Overripe).textColor == "#212121")
  {
  }

  // ---------------------------------------------------------------- examples

  lemma ExampleRipe()
    ensures Decide([0.05, 0.90, 0.03, 0.02]) == Ok(Verdict(1, 0.90, Ripe))
  {
    ArgmaxIsFirstMax([0.05, 0.90, 0.03, 0.02], 1);
  }

  lemma ExampleDoubtful()
    ensures Decide([0.20, 0.30, 0.25, 0.25]) == Ok(Verdict(1, 0.30, Doubtful))
  {
    ArgmaxIsFirstMax([0.20, 0.30, 0.25, 0.25], 1);
  }

  lemma ExampleNotPalm()
    ensures Decide([0.1, 0.1, 0.1, 0.7]) == Ok(Verdict(3, 0.7, Unrecognized))
  {
    NotPalmTakesPrecedence([0.1, 0.1, 0.1, 0.7]);
  }

  // ---------------------------------------------------------------- detail view

  /** One bar of the detail view: a class, its label and its score. */
  datatype Bar = Bar(classIndex: nat, name: string, score: real)

  datatype Bars = Shown(bars: seq<Bar>) | OutOfRange

  /** How many classes the detail view covers for a given verdict index:
      the negative class only when it is the verdict. */
  function ShownCount(index: nat): nat
  {
    if index == NotPalmIndex then |Labels| else NotPalmIndex
  }

  /** The filtering loop over the labels, from position i on. A listed class
      whose score the vector does not have aborts the view. */
  function BarsFrom(p: seq<real>, index: nat, i: nat): (r: Bars)
    requires i <= |Labels|
    ensures r.Shown? <==> i >= ShownCount(index) || ShownCount(index) <= |p|
    ensures r.Shown? ==> |r.bars| == (if i < ShownCount(index) then ShownCount(index) - i else 0)
    ensures r.Shown? ==> forall k :: 0 <= k < |r.bars| ==>
              i + k < |Labels| && i + k < |p| && r.bars[k] == Bar(i + k, Labels[i + k], p[i + k])
    decreases |Labels| - i
  {
    if i == |Labels| then Shown([])
    else if i < NotPalmIndex || index == NotPalmIndex then
      if i < |p| then
        match BarsFrom(p, index, i + 1)
        case Shown(rest) => Shown([Bar(i, Labels[i], p[i])] + rest)
        case OutOfRange => OutOfRange
      else OutOfRange
    else BarsFrom(p, index, i + 1)
  }

  /** The detail view for a prediction whose arg-max is index. */
  function ShownBars(p: seq<real>, index: nat): (r: Bars)
    ensures r.Shown? <==> ShownCount(index) <= |p|
    ensures r.Shown? ==> |r.bars| == ShownCount(index)
    ensures r.Shown? ==> forall k :: 0 <= k < |r.bars| ==>
              k < |p| && r.bars[k] == Bar(k, Labels[k], p[k])
  {
    BarsFrom(p, index, 0)
  }

  /** For a decided four-class vector the detail view lists classes 0, 1, 2
      in order, adds the negative class exactly when it is the verdict, and
      shows every score unchanged. */
  lemma DetailViewOfVerdict(p: seq<real>)
    requires |p| == |Labels|
    ensures ShownBars(p, Decide(p).value.index).Shown?
    ensures var bars := ShownBars(p, Decide(p).value.index).bars;
            && |bars| >= NotPalmIndex
            && (forall k :: 0 <= k < |bars| ==> bars[k].classIndex == k && bars[k].score == p[k])
            && ((exists k :: 0 <= k < |bars| && bars[k].classIndex == NotPalmIndex)
                <==> Decide(p).value.status == Unrecognized)
  {
  }
}
