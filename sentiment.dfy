/** Sentiment aggregation over the feedback table: the rule that turns a
    polarity into a label, and the batch analysis that counts labels,
    computes percentages and averages, and lists one result per item.
    TextBlob's scores are an input function from text to scores. */
module Sentiment {

  /** The polarity (-1 to 1) and subjectivity (0 to 1) TextBlob reports. */
  datatype Score = Score(polarity: real, subjectivity: real)

  /** The three values of `overall_sentiment`, which are also the keys of
      the count and percentage dictionaries. */
  datatype Label = Positive | Negative | Neutral

  /** The string a label is reported as. */
  function Name(kind: Label): string
  {
    match kind
    case Positive => "positive"
    case Negative => "negative"
    case Neutral => "neutral"
  }

  /** The three labels are reported as three different strings, so the
      dictionaries keyed by them have three entries. */
  lemma NameInjective(a: Label, b: Label)
    ensures Name(a) == Name(b) <==> a == b
  {
    if a != b {
      assert Name(a)[2] != Name(b)[2];
    }
  }

  /** The dictionary `analyze_sentiment` returns. */
  datatype Analysis = Analysis(polarity: real, subjectivity: real, overallSentiment: Label)

  /** A feedback row as `get_feedback` hands it over. */
  datatype FeedbackItem = FeedbackItem(id: int, message: string)

  /** An entry of `individual_sentiments`. */
  datatype Individual = Individual(id: int, sentiment: Analysis)

  /** The `aggregate_stats` part of a batch result. */
  datatype AggregateStats = AggregateStats(totalFeedback: nat, averagePolarity: real, averageSubjectivity: real,
                                           sentimentCounts: map<Label, nat>, percentages: map<Label, real>)

  /** The dictionary `analyze_feedback_batch` returns. */
  datatype BatchResult = BatchResult(aggregateStats: AggregateStats, individualSentiments: seq<Individual>)

  /** The label of a polarity: exactly one of the three, by its sign. */
  function OverallSentiment(polarity: real): (kind: Label)
    ensures kind == Positive <==> polarity > 0.0
    ensures kind == Negative <==> polarity < 0.0
    ensures kind == Neutral <==> polarity == 0.0
  {
    if polarity > 0.0 then Positive
    else if polarity < 0.0 then Negative
    else Neutral
  }

  /** `analyze_sentiment(text)`, with TextBlob given as `blob`. */
  function AnalyzeSentiment(text: string, blob: string -> Score): (a: Analysis)
    ensures a.polarity == blob(text).polarity && a.subjectivity == blob(text).subjectivity
    ensures a.overallSentiment == OverallSentiment(a.polarity)
  {
    var score := blob(text);
    Analysis(score.polarity, score.subjectivity, OverallSentiment(score.polarity))
  }

  /** How many of `items` get `kind`. */
  function CountLabel(items: seq<FeedbackItem>, blob: string -> Score, kind: Label): nat
    decreases |items|
  {
    if items == [] then 0
    else CountLabel(items[..|items| - 1], blob, kind)
         + (if AnalyzeSentiment(items[|items| - 1].message, blob).overallSentiment == kind then 1 else 0)
  }

  /** The `sentiment_counts` dictionary for `items`. */
  function Counts(items: seq<FeedbackItem>, blob: string -> Score): (m: map<Label, nat>)
    ensures m.Keys == {Positive, Negative, Neutral}
  {
    map[Positive := CountLabel(items, blob, Positive),
        Negative := CountLabel(items, blob, Negative),
        Neutral := CountLabel(items, blob, Neutral)]
  }

  /** Every item is counted under exactly one label, so the three counts add
      up to the number of items. */
  lemma {:induction false} CountsSumToTotal(items: seq<FeedbackItem>, blob: string -> Score)
    ensures CountLabel(items, blob, Positive) + CountLabel(items, blob, Negative)
            + CountLabel(items, blob, Neutral) == |items|
    decreases |items|
  {
    if items != [] {
      CountsSumToTotal(items[..|items| - 1], blob);
    }
  }

  /** `(count / total) * 100`. */
  function Percent(count: nat, total: nat): real
    requires total > 0
  {
    count as real / total as real * 100.0
  }

  /** The `percentages` dictionary: each count as a share of the total. */
  function Percentages(counts: map<Label, nat>, total: nat): (m: map<Label, real>)
    requires total > 0
    ensures m.Keys == counts.Keys
  {
    map kind | kind in counts :: Percent(counts[kind], total)
  }

  /** In exact arithmetic the three percentages of a non-empty batch add up
      to one hundred. */
  lemma PercentagesSumTo100(items: seq<FeedbackItem>, blob: string -> Score)
    requires |items| > 0
    ensures var pct := Percentages(Counts(items, blob), |items|);
            pct[Positive] + pct[Negative] + pct[Neutral] == 100.0
  {
    CountsSumToTotal(items, blob);
    PercentsOfPartition(CountLabel(items, blob, Positive), CountLabel(items, blob, Negative),
                        CountLabel(items, blob, Neutral), |items|);
  }

  /** Three counts that partition a positive total have percentages adding
      up to one hundred. */
  lemma PercentsOfPartition(p: nat, n: nat, z: nat, total: nat)
    requires total > 0 && p + n + z == total
    ensures Percent(p, total) + Percent(n, total) + Percent(z, total) == 100.0
  {
    var t := total as real;
    var inv := 1.0 / t;
    assert inv * t == 1.0;
    assert Percent(p, total) == p as real * inv * 100.0;
    assert Percent(n, total) == n as real * inv * 100.0;
    assert Percent(z, total) == z as real * inv * 100.0;
    assert (p as real + n as real + z as real) * inv == 1.0;
  }

  /** The id and analysis of every item, in input order. */
  function Individuals(items: seq<FeedbackItem>, blob: string -> Score): (ind: seq<Individual>)
    ensures |ind| == |items|
    ensures forall i :: 0 <= i < |items| ==>
              ind[i].id == items[i].id && ind[i].sentiment == AnalyzeSentiment(items[i].message, blob)
  {
    seq(|items|, i requires 0 <= i < |items| => Individual(items[i].id, AnalyzeSentiment(items[i].message, blob)))
  }

  /** The polarities of `items`, in order. */
  function Polarities(items: seq<FeedbackItem>, blob: string -> Score): (ps: seq<real>)
    ensures |ps| == |items|
  {
    seq(|items|, i requires 0 <= i < |items| => blob(items[i].message).polarity)
  }

  /** The subjectivities of `items`, in order. */
  function Subjectivities(items: seq<FeedbackItem>, blob: string -> Score): (ss: seq<real>)
    ensures |ss| == |items|
  {
    seq(|items|, i requires 0 <= i < |items| => blob(items[i].message).subjectivity)
  }

  function Sum(xs: seq<real>): real
    decreases |xs|
  {
    if xs == [] then 0.0 else Sum(xs[..|xs| - 1]) + xs[|xs| - 1]
  }

  /** `statistics.mean(xs)` in exact arithmetic. */
  function Mean(xs: seq<real>): real
    requires xs != []
  {
    Sum(xs) / |xs| as real
  }

  /** The mean of values that all lie in a range lies in that range, so the
      average polarity stays within -1 to 1 and the average subjectivity
      within 0 to 1. */
  lemma MeanBounded(xs: seq<real>, lo: real, hi: real)
    requires xs != []
    requires forall i :: 0 <= i < |xs| ==> lo <= xs[i] <= hi
    ensures lo <= Mean(xs) <= hi
  {
    SumBounded(xs, lo, hi);
    DivideBounds(Sum(xs), |xs| as real, lo, hi);
  }

  lemma DivideBounds(s: real, n: real, lo: real, hi: real)
    requires n > 0.0 && lo * n <= s <= hi * n
    ensures lo <= s / n <= hi
  {
    assert s / n * n == s;
  }

  lemma {:induction false} SumBounded(xs: seq<real>, lo: real, hi: real)
    requires forall i :: 0 <= i < |xs| ==> lo <= xs[i] <= hi
    ensures lo * |xs| as real <= Sum(xs) <= hi * |xs| as real
    decreases |xs|
  {
    if xs != [] {
      SumBounded(xs[..|xs| - 1], lo, hi);
    }
  }

  /** The result for an empty batch: everything zero, no individual
      results. */
  const EmptyBatch: BatchResult :=
    BatchResult(AggregateStats(0, 0.0, 0.0, map[Positive := 0, Negative := 0, Neutral := 0],
                               map[Positive := 0.0, Negative := 0.0, Neutral := 0.0]), [])

  /** `analyze_feedback_batch`: one pass over the items that analyses each,
      records its id and analysis in order, collects its scores and
      increments the count of its label; then totals, averages and
      percentages. */
  method AnalyzeFeedbackBatch(feedbackList: seq<FeedbackItem>, blob: string -> Score) returns (r: BatchResult)
    ensures feedbackList == [] ==> r == EmptyBatch
    ensures r.individualSentiments == Individuals(feedbackList, blob)
    ensures var stats := r.aggregateStats;
            && stats.totalFeedback == |feedbackList|
            && stats.sentimentCounts == Counts(feedbackList, blob)
            && stats.percentages.Keys == {Positive, Negative, Neutral}
            && (feedbackList != [] ==>
                  && stats.percentages == Percentages(stats.sentimentCounts, |feedbackList|)
                  && stats.averagePolarity == Mean(Polarities(feedbackList, blob))
                  && stats.averageSubjectivity == Mean(Subjectivities(feedbackList, blob)))
  {
    if feedbackList == [] {
      return EmptyBatch;
    }
    var individualSentiments: seq<Individual> := [];
    var polarities: seq<real> := [];
    var subjectivities: seq<real> := [];
    var sentimentCounts: map<Label, nat> := map[Positive := 0, Negative := 0, Neutral := 0];
    for i := 0 to |feedbackList|
      invariant individualSentiments == Individuals(feedbackList[..i], blob)
      invariant polarities == Polarities(feedbackList[..i], blob)
      invariant subjectivities == Subjectivities(feedbackList[..i], blob)
      invariant sentimentCounts == Counts(feedbackList[..i], blob)
    {
      var feedback := feedbackList[i];
      var sentiment := AnalyzeSentiment(feedback.message, blob);
      individualSentiments := individualSentiments + [Individual(feedback.id, sentiment)];
      ScoresStep(feedbackList, i, blob);
      polarities := polarities + [sentiment.polarity];
      subjectivities := subjectivities + [sentiment.subjectivity];
      CountsStep(feedbackList, i, blob);
      sentimentCounts := sentimentCounts[sentiment.overallSentiment := sentimentCounts[sentiment.overallSentiment] + 1];
    }
    assert feedbackList[..|feedbackList|] == feedbackList;
    assert individualSentiments == Individuals(feedbackList, blob);
    assert sentimentCounts == Counts(feedbackList, blob);
    assert polarities == Polarities(feedbackList, blob);
    assert subjectivities == Subjectivities(feedbackList, blob);
    var totalFeedback := |feedbackList|;
    var averagePolarity := Mean(polarities);
    var averageSubjectivity := Mean(subjectivities);
    var percentages := Percentages(sentimentCounts, totalFeedback);
    r := BatchResult(AggregateStats(totalFeedback, averagePolarity, averageSubjectivity, sentimentCounts, percentages),
                     individualSentiments);
  }

  /** Analysing one more item increments the count of its label and leaves
      the other two alone. */
  lemma CountsStep(items: seq<FeedbackItem>, i: nat, blob: string -> Score)
    requires i < |items|
    ensures var kind := AnalyzeSentiment(items[i].message, blob).overallSentiment;
            Counts(items[..i + 1], blob) == Counts(items[..i], blob)[kind := Counts(items[..i], blob)[kind] + 1]
  {
    assert items[..i + 1][..i] == items[..i];
  }

  /** Analysing one more item appends its result and its scores to the
      lists built so far. */
  lemma ScoresStep(items: seq<FeedbackItem>, i: nat, blob: string -> Score)
    requires i < |items|
    ensures Individuals(items[..i + 1], blob)
            == Individuals(items[..i], blob) + [Individual(items[i].id, AnalyzeSentiment(items[i].message, blob))]
    ensures Polarities(items[..i + 1], blob) == Polarities(items[..i], blob) + [blob(items[i].message).polarity]
    ensures Subjectivities(items[..i + 1], blob) == Subjectivities(items[..i], blob) + [blob(items[i].message).subjectivity]
  {
  }
}
