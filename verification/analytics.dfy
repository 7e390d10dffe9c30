/**
 * The metric, score and band computation of `get_hub_health`, as a pure
 * function of the normalised train records and the severities of the
 * incident reports of the last hour. Scores are exact rationals.
 */
module Analytics {
  import opened Wrappers
  import opened RailService

  datatype Band = Green | Amber | Red {
    /** Position in the order GREEN < AMBER < RED. */
    function Rank(): nat {
      match this
      case Green => 0
      case Amber => 1
      case Red => 2
    }
  }

  /** The hub-health report, without its timestamp. */
  datatype HubHealth = HubHealth(
    hubStatus: Band,
    stressIndex: real,
    cancellations: nat,
    avgDelay: real,
    reportsLastHour: nat)

  const RedThreshold: real := 0.7
  const AmberThreshold: real := 0.35
  const DelayClamp: real := 60.0
  const MaxSeverity: real := 5.0
  const SeverityShareWeight: real := 0.4
  const DelayShareWeight: real := 0.6

  /** More than this many cancellations force RED. */
  const CancellationOverride: nat := 3

  /** Number of cancelled records. */
  function CountCancelled(ts: seq<TrainStatus>): (n: nat)
    ensures n <= |ts|
    ensures n == 0 <==> forall i :: 0 <= i < |ts| ==> ts[i].status != Cancelled
    ensures n == |ts| <==> forall i :: 0 <= i < |ts| ==> ts[i].status == Cancelled
  {
    if ts == [] then 0
    else (if ts[0].status == Cancelled then 1 else 0) + CountCancelled(ts[1..])
  }

  /**
   * The count adds up over concatenation and a single record counts 1 exactly
   * when it is cancelled: together these determine the count.
   */
  lemma {:induction false} CountCancelledAppend(a: seq<TrainStatus>, b: seq<TrainStatus>)
    ensures CountCancelled(a + b) == CountCancelled(a) + CountCancelled(b)
    ensures forall t :: CountCancelled([t]) == if t.status == Cancelled then 1 else 0
  {
    if a != [] {
      assert (a + b)[1..] == a[1..] + b;
      CountCancelledAppend(a[1..], b);
    } else {
      assert a + b == b;
    }
    forall t
      ensures CountCancelled([t]) == if t.status == Cancelled then 1 else 0
    {
      assert [t][1..] == [];
    }
  }

  /** The records that are not cancelled, in their original order. */
  function Active(ts: seq<TrainStatus>): (a: seq<TrainStatus>)
    ensures |a| + CountCancelled(ts) == |ts|
    ensures forall t :: t in a <==> t in ts && t.status != Cancelled
  {
    if ts == [] then []
    else if ts[0].status == Cancelled then Active(ts[1..])
    else [ts[0]] + Active(ts[1..])
  }

  /** A single record is kept exactly when it is not cancelled. */
  lemma ActiveSingle(t: TrainStatus)
    ensures Active([t]) == if t.status == Cancelled then [] else [t]
  {
    assert [t][1..] == [];
  }

  /** Concatenation is associative. */
  lemma AppendAssoc<T>(x: seq<T>, y: seq<T>, z: seq<T>)
    ensures x + (y + z) == (x + y) + z
  {
  }

  /** Head and tail of a concatenation with a non-empty left part. */
  lemma AppendSplit<T>(x: seq<T>, y: seq<T>)
    requires x != []
    ensures (x + y)[0] == x[0] && (x + y)[1..] == x[1..] + y
  {
  }

  /** One step of the filter: the head is kept exactly when it is not cancelled. */
  lemma ActiveUnfold(ts: seq<TrainStatus>)
    requires ts != []
    ensures Active(ts) == if ts[0].status == Cancelled then Active(ts[1..]) else [ts[0]] + Active(ts[1..])
  {
  }

  /** The inductive step of `ActiveAppend`: filtering the head goes in front. */
  lemma ActiveStep(a: seq<TrainStatus>, b: seq<TrainStatus>)
    requires a != []
    requires Active(a[1..] + b) == Active(a[1..]) + Active(b)
    ensures Active(a + b) == Active(a) + Active(b)
  {
    AppendSplit(a, b);
    ActiveUnfold(a);
    ActiveUnfold(a + b);
    AppendAssoc([a[0]], Active(a[1..]), Active(b));
  }

  /**
   * Filtering distributes over concatenation and keeps a single record
   * exactly when it is not cancelled: together these determine `Active` as
   * the order-preserving filter, with each running train kept once.
   */
  lemma {:induction false} ActiveAppend(a: seq<TrainStatus>, b: seq<TrainStatus>)
    ensures Active(a + b) == Active(a) + Active(b)
    ensures forall t :: Active([t]) == if t.status == Cancelled then [] else [t]
  {
    if a == [] {
      assert a + b == b;
    } else {
      ActiveAppend(a[1..], b);
      ActiveStep(a, b);
    }
    forall t
      ensures Active([t]) == if t.status == Cancelled then [] else [t]
    {
      ActiveSingle(t);
    }
  }

  function DelaysOf(ts: seq<TrainStatus>): (ds: seq<int>)
    ensures |ds| == |ts|
    ensures forall i :: 0 <= i < |ts| ==> ds[i] == ts[i].delayWeight
  {
    if ts == [] then [] else [ts[0].delayWeight] + DelaysOf(ts[1..])
  }

  function Sum(xs: seq<int>): int {
    if xs == [] then 0 else xs[0] + Sum(xs[1..])
  }

  /** Arithmetic mean, 0 for an empty sequence. */
  function Mean(xs: seq<int>): (m: real)
    ensures xs == [] ==> m == 0.0
    ensures xs != [] ==> m * (|xs| as real) == Sum(xs) as real
  {
    if xs == [] then 0.0 else Sum(xs) as real / |xs| as real
  }

  function Min(a: real, b: real): real {
    if a <= b then a else b
  }

  /** The stress score: severity weighted 0.4, delay clamped at 60 minutes weighted 0.6. */
  function StressIndex(avgSeverity: real, avgDelay: real): (s: real)
    ensures 0.0 <= avgSeverity <= MaxSeverity && 0.0 <= avgDelay ==> 0.0 <= s <= 1.0
  {
    (avgSeverity / MaxSeverity) * SeverityShareWeight + (Min(avgDelay, DelayClamp) / DelayClamp) * DelayShareWeight
  }

  /** The band of a score, before the cancellation override. */
  function BandOf(score: real): (b: Band)
    ensures b == Red <==> score > RedThreshold
    ensures b == Green <==> score <= AmberThreshold
  {
    if score > RedThreshold then Red
    else if score > AmberThreshold then Amber
    else Green
  }

  /** `get_hub_health` after its two queries. */
  function HubHealthOf(trains: seq<TrainStatus>, severities: seq<int>): (h: HubHealth)
    ensures h.reportsLastHour == |severities|
    ensures h.cancellations == |trains| - |Active(trains)|
    ensures h.avgDelay == Mean(DelaysOf(Active(trains)))
    ensures h.stressIndex == StressIndex(Mean(severities), h.avgDelay)
    ensures h.cancellations > CancellationOverride ==> h.hubStatus == Red
    ensures h.cancellations <= CancellationOverride ==> h.hubStatus == BandOf(h.stressIndex)
  {
    var cancelled := CountCancelled(trains);
    var avgDelay := Mean(DelaysOf(Active(trains)));
    var avgSeverity := Mean(severities);
    var score := StressIndex(avgSeverity, avgDelay);
    var status := if cancelled > CancellationOverride then Red else BandOf(score);
    HubHealth(status, score, cancelled, avgDelay, |severities|)
  }

  // ---- Means ----

  lemma {:induction false} SumAtLeast(xs: seq<int>, lo: int)
    requires forall i :: 0 <= i < |xs| ==> lo <= xs[i]
    ensures |xs| * lo <= Sum(xs)
  {
    if xs != [] {
      SumAtLeast(xs[1..], lo);
    }
  }

  lemma {:induction false} SumAtMost(xs: seq<int>, hi: int)
    requires forall i :: 0 <= i < |xs| ==> xs[i] <= hi
    ensures Sum(xs) <= |xs| * hi
  {
    if xs != [] {
      SumAtMost(xs[1..], hi);
    }
  }

  /** Dividing both sides of `m * n <= b * n` by a positive `n`. */
  lemma CancelPositive(m: real, n: real, b: real)
    requires n > 0.0
    ensures m * n <= b * n ==> m <= b
    ensures b * n <= m * n ==> b <= m
  {
    if m > b {
      assert (m - b) * n > 0.0;
    }
    if b > m {
      assert (b - m) * n > 0.0;
    }
  }

  /** Casting a product of integers to a real. */
  lemma RealOfProduct(k: nat, c: int)
    ensures (k * c) as real == c as real * k as real
  {
  }

  /** A non-empty mean is at least the least element bound. */
  lemma MeanAtLeast(xs: seq<int>, lo: int)
    requires forall i :: 0 <= i < |xs| ==> lo <= xs[i]
    requires xs == [] ==> lo <= 0
    ensures lo as real <= Mean(xs)
  {
    if xs != [] {
      SumAtLeast(xs, lo);
      var n := |xs| as real;
      RealOfProduct(|xs|, lo);
      assert lo as real * n <= Mean(xs) * n;
      CancelPositive(Mean(xs), n, lo as real);
    }
  }

  /** A non-empty mean is at most the greatest element bound. */
  lemma MeanAtMost(xs: seq<int>, hi: int)
    requires forall i :: 0 <= i < |xs| ==> xs[i] <= hi
    requires xs == [] ==> 0 <= hi
    ensures Mean(xs) <= hi as real
  {
    if xs != [] {
      SumAtMost(xs, hi);
      var n := |xs| as real;
      RealOfProduct(|xs|, hi);
      assert Mean(xs) * n <= hi as real * n;
      CancelPositive(Mean(xs), n, hi as real);
    }
  }

  lemma {:induction false} SumConstant(xs: seq<int>, c: int)
    requires forall i :: 0 <= i < |xs| ==> xs[i] == c
    ensures Sum(xs) == |xs| * c
  {
    if xs != [] {
      SumConstant(xs[1..], c);
    }
  }

  /** The mean of a non-empty constant sequence is that constant. */
  lemma MeanConstant(xs: seq<int>, c: int)
    requires xs != []
    requires forall i :: 0 <= i < |xs| ==> xs[i] == c
    ensures Mean(xs) == c as real
  {
    SumConstant(xs, c);
    var n := |xs| as real;
    RealOfProduct(|xs|, c);
    assert Mean(xs) * n == c as real * n;
    CancelPositive(Mean(xs), n, c as real);
  }

  // ---- Properties of the report ----

  /** With severities in 1..5 (0..5 allowed) and no negative delay, the score is in [0, 1]. */
  lemma StressIndexBounded(trains: seq<TrainStatus>, severities: seq<int>)
    requires forall i :: 0 <= i < |severities| ==> 0 <= severities[i] <= 5
    requires forall i :: 0 <= i < |trains| ==> trains[i].delayWeight >= 0
    ensures 0.0 <= HubHealthOf(trains, severities).stressIndex <= 1.0
    ensures HubHealthOf(trains, severities).avgDelay >= 0.0
  {
    MeanAtLeast(severities, 0);
    MeanAtMost(severities, 5);
    var ds := DelaysOf(Active(trains));
    forall i | 0 <= i < |ds|
      ensures 0 <= ds[i]
    {
      assert Active(trains)[i] in trains;
    }
    MeanAtLeast(ds, 0);
  }

  /** Every feed the normaliser produces yields a score in [0, 1] for in-range severities. */
  lemma FeedStressIndexBounded(feed: Option<seq<RawService>>, severities: seq<int>)
    requires forall i :: 0 <= i < |severities| ==> 0 <= severities[i] <= 5
    ensures 0.0 <= HubHealthOf(NormaliseFeed(feed), severities).stressIndex <= 1.0
  {
    var ts := NormaliseFeed(feed);
    FeedWellFormed(feed);
    forall i | 0 <= i < |ts|
      ensures ts[i].delayWeight >= 0
    {
      assert WellFormed(ts[i]);
    }
    StressIndexBounded(ts, severities);
  }

  /** No trains and no reports: score 0, GREEN, all metrics 0. */
  lemma EmptyInputs()
    ensures HubHealthOf([], []) == HubHealth(Green, 0.0, 0, 0.0, 0)
  {
  }

  /**
   * Severity is an unchecked integer: a single report of severity 20 and no
   * trains give a score of 1.6, outside [0, 1], and RED.
   */
  lemma UncheckedSeverityLeavesRange()
    ensures HubHealthOf([], [20]).stressIndex == 1.6
    ensures HubHealthOf([], [20]).hubStatus == Red
  {
  }

  /** 0.35 is still GREEN and 0.7 is still AMBER: both thresholds are strict. */
  lemma BandBoundaries()
    ensures BandOf(AmberThreshold) == Green
    ensures BandOf(RedThreshold) == Amber
  {
  }

  /** A higher score never gives a milder band. */
  lemma BandMonotone(s1: real, s2: real)
    requires s1 <= s2
    ensures BandOf(s1).Rank() <= BandOf(s2).Rank()
  {
  }

  /** Four or more cancellations give RED however low the score. */
  lemma OverrideForcesRed(trains: seq<TrainStatus>, severities: seq<int>)
    requires CountCancelled(trains) > CancellationOverride
    ensures HubHealthOf(trains, severities).hubStatus == Red
  {
  }

  /**
   * No reports and every running train 60 minutes late: the score is
   * exactly 0.6, which is AMBER unless the cancellation override applies.
   */
  lemma NoReportsFullDelayIsAmber(trains: seq<TrainStatus>)
    requires Active(trains) != []
    requires forall i :: 0 <= i < |Active(trains)| ==> Active(trains)[i].delayWeight == 60
    requires CountCancelled(trains) <= CancellationOverride
    ensures HubHealthOf(trains, []).stressIndex == 0.6
    ensures HubHealthOf(trains, []).hubStatus == Amber
  {
    MeanConstant(DelaysOf(Active(trains)), 60);
    assert StressIndex(0.0, 60.0) == 0.6;
  }

  /**
   * Delay alone never makes a hub RED: without reports the score is at
   * most 0.6, so only the cancellation override can give RED.
   */
  lemma DelaysAloneNeverRed(trains: seq<TrainStatus>)
    requires CountCancelled(trains) <= CancellationOverride
    ensures HubHealthOf(trains, []).stressIndex <= DelayShareWeight
    ensures HubHealthOf(trains, []).hubStatus != Red
  {
  }

  /**
   * For severities of at most 5, reports alone never make a hub RED: when
   * no running train is late the score is at most 0.4.
   */
  lemma ReportsAloneNeverRed(trains: seq<TrainStatus>, severities: seq<int>)
    requires forall i :: 0 <= i < |severities| ==> severities[i] <= 5
    requires forall i :: 0 <= i < |Active(trains)| ==> Active(trains)[i].delayWeight == 0
    requires CountCancelled(trains) <= CancellationOverride
    ensures HubHealthOf(trains, severities).stressIndex <= SeverityShareWeight
    ensures HubHealthOf(trains, severities).hubStatus != Red
  {
    MeanAtMost(severities, 5);
    var ds := DelaysOf(Active(trains));
    if ds != [] {
      MeanConstant(ds, 0);
    }
    var m := Mean(severities);
    assert StressIndex(m, 0.0) == m / 5.0 * 0.4;
  }
}
