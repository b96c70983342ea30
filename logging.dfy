/**
 * The Logging concept: daily symptom/mood/flow logs and activity logs of a
 * user, and the statistics derived from them (menstrual cycle statistics
 * and the activity streak).
 *
 * Dates of logs are whole day numbers, so the day differences the source
 * computes with Math.ceil / Math.floor over milliseconds are plain integer
 * subtractions here.
 */
module Logging {
  import opened Common

  datatype Symptom =
    | AbdominalCramps | Headache | Acne | Fatigue | Constipation | Diarrhea
    | Nausea | Bloating | Chills | MoodSwings | DrySkin

  datatype Mood = Angry | Happy | Calm | Sad | Confused

  datatype FlowIntensity = Light | Medium | Heavy

  datatype Activity =
    | Walking | Running | Biking | Weightlifting | Yoga | Meditation | Dance | HIIT | Other

  /** The four fields that `create` writes and `update` overwrites together. */
  datatype DailyFields = DailyFields(
    symptoms: seq<Symptom>,
    mood: Option<Mood>,
    flow: Option<FlowIntensity>,
    notes: string)

  /**
   * One stored log document. `create` writes the daily fields and no
   * activities, `createActivityLog` the activities and no daily fields, and
   * a partial update adds the fields it sets. A field the document lacks,
   * which reads as `undefined`, is `None`.
   */
  datatype LogDoc = LogDoc(
    id: DocId,
    author: UserId,
    dateOfLog: int,
    daily: Option<DailyFields>,
    activities: Option<seq<Activity>>)

  datatype CycleStats = CycleStats(
    averageCycleLength: Option<int>,
    averagePeriodLength: Option<int>,
    commonSymptoms: seq<(Symptom, nat)>,
    commonMoods: seq<(Mood, nat)>,
    regularityScore: int,
    lastPeriodStart: Option<int>,
    predictedNextPeriod: Option<int>)

  /** The newest log's date and its activities, `None` when it has none (`undefined`). */
  datatype LastActivity = LastActivity(date: int, activities: Option<seq<Activity>>)

  datatype ActivityStats = ActivityStats(activityStreak: nat, lastLoggedActivity: Option<LastActivity>)

  /** The order the statistics queries return logs in: ascending by date. */
  ghost predicate SortedByDate(logs: seq<LogDoc>)
  {
    forall i, j :: 0 <= i < j < |logs| ==> logs[i].dateOfLog <= logs[j].dateOfLog
  }

  predicate HasDailyFields(log: LogDoc)
  {
    log.daily.Some?
  }

  /** Whether every log has the daily fields, the logs the cycle statistics can read. */
  predicate AllDaily(logs: seq<LogDoc>)
  {
    forall i :: 0 <= i < |logs| ==> HasDailyFields(logs[i])
  }

  /*
   * The daily fields of a log as the cycle statistics read them. These are
   * applied only to logs that have them: the written statistics fail on any
   * other log, and the intended ones drop such logs first.
   */

  predicate HasFlow(log: LogDoc)
  {
    log.daily.Some? && log.daily.value.flow.Some?
  }

  function SymptomsOf(log: LogDoc): seq<Symptom>
  {
    if log.daily.Some? then log.daily.value.symptoms else []
  }

  function MoodOf(log: LogDoc): Option<Mood>
  {
    if log.daily.Some? then log.daily.value.mood else None
  }

  // ---------------------------------------------------------------------
  // Period segmentation: the two-state tracker of calculateCycleStats
  // ---------------------------------------------------------------------

  /** Whether a period is open, and if so its first and latest flow day. */
  datatype Period = NoOpenPeriod | OpenPeriod(start: int, end: int)

  datatype Tracker = Tracker(period: Period, starts: seq<int>, lengths: seq<int>)

  /** One step of the tracker on the next log. */
  function Track(t: Tracker, log: LogDoc): (r: Tracker)
    ensures r.period.OpenPeriod? <==> HasFlow(log)
    ensures HasFlow(log) ==> r.period.end == log.dateOfLog && r.lengths == t.lengths
    ensures HasFlow(log) && t.period.OpenPeriod? ==> r.period.start == t.period.start
    ensures r.starts == t.starts + (if HasFlow(log) && t.period.NoOpenPeriod? then [log.dateOfLog] else [])
    ensures !HasFlow(log) ==>
              r.lengths == t.lengths + (if t.period.OpenPeriod? then [t.period.end - t.period.start] else [])
  {
    var d := log.dateOfLog;
    if HasFlow(log) then
      match t.period
      case NoOpenPeriod => Tracker(OpenPeriod(d, d), t.starts + [d], t.lengths)
      case OpenPeriod(s, _) => Tracker(OpenPeriod(s, d), t.starts, t.lengths)
    else
      match t.period
      case NoOpenPeriod => t
      case OpenPeriod(s, e) => Tracker(NoOpenPeriod, t.starts, t.lengths + [e - s])
  }

  /** The tracker after the logs have been fed to it in order. */
  function Segment(logs: seq<LogDoc>): (r: Tracker)
    ensures r.period.OpenPeriod? <==> logs != [] && HasFlow(logs[|logs| - 1])
    ensures |r.starts| <= |logs| && |r.lengths| <= |logs|
  {
    if logs == [] then Tracker(NoOpenPeriod, [], [])
    else Track(Segment(logs[..|logs| - 1]), logs[|logs| - 1])
  }

  /** The date of the first log of the run of flow-bearing logs that ends the sequence. */
  function RunStartDate(logs: seq<LogDoc>): int
    requires logs != [] && HasFlow(logs[|logs| - 1])
  {
    if |logs| == 1 || !HasFlow(logs[|logs| - 2]) then logs[|logs| - 1].dateOfLog
    else RunStartDate(logs[..|logs| - 1])
  }

  /** A period starts at every flow-bearing log whose predecessor carries no flow. */
  function PeriodStartsOf(logs: seq<LogDoc>): seq<int>
  {
    if logs == [] then []
    else
      var n := |logs|;
      PeriodStartsOf(logs[..n - 1])
        + (if HasFlow(logs[n - 1]) && (n == 1 || !HasFlow(logs[n - 2])) then [logs[n - 1].dateOfLog] else [])
  }

  /**
   * A period's length is recorded at every flow-less log whose predecessor
   * carries flow: the last flow day of the run minus its first.
   */
  function PeriodLengthsOf(logs: seq<LogDoc>): seq<int>
  {
    if logs == [] then []
    else
      var n := |logs|;
      PeriodLengthsOf(logs[..n - 1])
        + (if !HasFlow(logs[n - 1]) && n >= 2 && HasFlow(logs[n - 2])
           then [logs[n - 2].dateOfLog - RunStartDate(logs[..n - 1])] else [])
  }

  /**
   * The tracker agrees with the description by runs: a period is open
   * exactly when the last log carries flow, starts are the first days of
   * the runs of flow-bearing logs, and a length is recorded only for a run
   * that a flow-less log closes.
   */
  lemma {:induction false} SegmentByRuns(logs: seq<LogDoc>)
    ensures Segment(logs).starts == PeriodStartsOf(logs)
    ensures Segment(logs).lengths == PeriodLengthsOf(logs)
    ensures Segment(logs).period ==
              if logs != [] && HasFlow(logs[|logs| - 1])
              then OpenPeriod(RunStartDate(logs), logs[|logs| - 1].dateOfLog)
              else NoOpenPeriod
  {
    if logs != [] {
      SegmentByRuns(logs[..|logs| - 1]);
    }
  }

  /**
   * Every start but an open one is matched by one length: at most as many
   * lengths as starts, and a period still open at the end has no length.
   */
  lemma {:induction false} PeriodCounts(logs: seq<LogDoc>)
    ensures |Segment(logs).starts| == |Segment(logs).lengths| + (if Segment(logs).period.OpenPeriod? then 1 else 0)
    ensures |Segment(logs).lengths| <= |Segment(logs).starts|
  {
    if logs != [] {
      PeriodCounts(logs[..|logs| - 1]);
    }
  }

  /** Without a flow-bearing log there are no periods at all. */
  lemma {:induction false} NoFlowNoPeriods(logs: seq<LogDoc>)
    requires forall i :: 0 <= i < |logs| ==> !HasFlow(logs[i])
    ensures Segment(logs) == Tracker(NoOpenPeriod, [], [])
  {
    if logs != [] {
      NoFlowNoPeriods(logs[..|logs| - 1]);
    }
  }

  /**
   * On date-sorted logs, period starts are in date order and never after
   * the last log, an open period began no later than it ends, and every
   * recorded period length is non-negative.
   */
  lemma {:induction false} SegmentOrdered(logs: seq<LogDoc>)
    requires SortedByDate(logs)
    ensures forall i, j :: 0 <= i < j < |Segment(logs).starts| ==> Segment(logs).starts[i] <= Segment(logs).starts[j]
    ensures logs != [] ==> forall i :: 0 <= i < |Segment(logs).starts| ==> Segment(logs).starts[i] <= logs[|logs| - 1].dateOfLog
    ensures forall i :: 0 <= i < |Segment(logs).lengths| ==> Segment(logs).lengths[i] >= 0
    ensures Segment(logs).period.OpenPeriod? ==>
              Segment(logs).period.start <= Segment(logs).period.end && logs != [] &&
              Segment(logs).period.end == logs[|logs| - 1].dateOfLog
  {
    if logs != [] {
      var init := logs[..|logs| - 1];
      assert SortedByDate(init);
      SegmentOrdered(init);
      if init != [] {
        assert init[|init| - 1].dateOfLog <= logs[|logs| - 1].dateOfLog;
      }
    }
  }

  // ---------------------------------------------------------------------
  // Cycle lengths, averages, regularity
  // ---------------------------------------------------------------------

  /** The day differences of consecutive period starts. */
  function CycleLengths(starts: seq<int>): seq<int>
  {
    if |starts| < 2 then []
    else CycleLengths(starts[..|starts| - 1]) + [starts[|starts| - 1] - starts[|starts| - 2]]
  }

  lemma {:induction false} CycleLengthsAt(starts: seq<int>)
    ensures |CycleLengths(starts)| == if |starts| == 0 then 0 else |starts| - 1
    ensures forall i :: 0 <= i < |CycleLengths(starts)| ==> CycleLengths(starts)[i] == starts[i + 1] - starts[i]
  {
    if |starts| >= 2 {
      CycleLengthsAt(starts[..|starts| - 1]);
    }
  }

  function Sum(xs: seq<int>): int
  {
    if xs == [] then 0 else Sum(xs[..|xs| - 1]) + xs[|xs| - 1]
  }

  function SumOfSquares(xs: seq<int>): int
  {
    if xs == [] then 0 else SumOfSquares(xs[..|xs| - 1]) + xs[|xs| - 1] * xs[|xs| - 1]
  }

  /**
   * `Math.round(sum / n)` of a non-empty list, null for an empty one: the
   * integer nearest to the mean, halves rounded up.
   */
  function RoundedMean(xs: seq<int>): (r: Option<int>)
    ensures r.None? <==> xs == []
    ensures r.Some? ==> |xs| * (2 * r.value - 1) <= 2 * Sum(xs) < |xs| * (2 * r.value + 1)
  {
    if xs == [] then None
    else
      var n, s := |xs|, Sum(xs);
      var q := (2 * s + n) / (2 * n);
      assert 2 * s + n == 2 * n * q + (2 * s + n) % (2 * n);
      Some(q)
  }

  /** n^2 times the population variance of xs. */
  function Dispersion(xs: seq<int>): int
  {
    |xs| * SumOfSquares(xs) - Sum(xs) * Sum(xs)
  }

  /**
   * The least k in from..100 with k + 1/2 >= 5 * stddev(xs), or 100 if
   * there is none; squared out: (2k+1)^2 * n^2 >= 100 * n^2 * variance.
   */
  function Penalty(xs: seq<int>, from: nat): (k: nat)
    requires from <= 100
    decreases 100 - from
    ensures from <= k <= 100
    ensures k < 100 ==> (2 * k + 1) * (2 * k + 1) * (|xs| * |xs|) >= 100 * Dispersion(xs)
    ensures forall j :: from <= j < k ==> (2 * j + 1) * (2 * j + 1) * (|xs| * |xs|) < 100 * Dispersion(xs)
  {
    if from == 100 || (2 * from + 1) * (2 * from + 1) * (|xs| * |xs|) >= 100 * Dispersion(xs) then from
    else Penalty(xs, from + 1)
  }

  /**
   * `Math.round(Math.max(0, 100 - 5 * stddev))` on exact reals: it is
   * 100 - k for the least k >= 0 with 100 - 5 * stddev >= 100 - k - 1/2,
   * floored at 0.
   */
  function RegularityScore(cycleLengths: seq<int>): (score: int)
    requires |cycleLengths| > 0
    ensures 0 <= score <= 100
    ensures score > 0 ==>
              (2 * (100 - score) + 1) * (2 * (100 - score) + 1) * (|cycleLengths| * |cycleLengths|)
                >= 100 * Dispersion(cycleLengths)
    ensures forall j :: 0 <= j < 100 - score ==>
              (2 * j + 1) * (2 * j + 1) * (|cycleLengths| * |cycleLengths|) < 100 * Dispersion(cycleLengths)
  {
    100 - Penalty(cycleLengths, 0)
  }

  lemma {:induction false} ConstantSums(xs: seq<int>, c: int)
    requires forall i :: 0 <= i < |xs| ==> xs[i] == c
    ensures Sum(xs) == |xs| * c
    ensures SumOfSquares(xs) == |xs| * (c * c)
  {
    if xs != [] {
      ConstantSums(xs[..|xs| - 1], c);
    }
  }

  /** Perfectly regular cycles score 100. */
  lemma EqualCyclesScoreFull(cycleLengths: seq<int>)
    requires |cycleLengths| > 0
    requires forall i :: 0 <= i < |cycleLengths| ==> cycleLengths[i] == cycleLengths[0]
    ensures RegularityScore(cycleLengths) == 100
  {
    var n, c := |cycleLengths|, cycleLengths[0];
    ConstantSums(cycleLengths, c);
    assert Sum(cycleLengths) * Sum(cycleLengths) == n * (n * (c * c));
    assert Dispersion(cycleLengths) == 0;
  }

  // ---------------------------------------------------------------------
  // Symptom and mood frequencies
  // ---------------------------------------------------------------------

  /** Every symptom occurrence, log by log. */
  function AllSymptoms(logs: seq<LogDoc>): seq<Symptom>
  {
    if logs == [] then [] else AllSymptoms(logs[..|logs| - 1]) + SymptomsOf(logs[|logs| - 1])
  }

  /** The non-null moods, log by log. */
  function AllMoods(logs: seq<LogDoc>): seq<Mood>
  {
    if logs == [] then []
    else AllMoods(logs[..|logs| - 1]) + (match MoodOf(logs[|logs| - 1]) case Some(m) => [m] case None => [])
  }

  /** `sortByFrequency`: the entries of a frequency table, most frequent first, stably. */
  function SortByFrequency<T>(table: seq<(T, nat)>): (r: seq<(T, nat)>)
    ensures SortedDescBy(r, Frequency)
    ensures multiset(r) == multiset(table)
    ensures forall f :: WithKey(r, Frequency, f) == WithKey(table, Frequency, f)
  {
    SortDescByCorrect(table, Frequency);
    SortDescBy(table, Frequency)
  }

  /**
   * The ranking of a tally counts each item exactly as often as it occurs,
   * its frequencies add up to the number of occurrences, it is ordered by
   * frequency, most frequent first, and items of equal frequency keep their
   * order of first occurrence.
   */
  lemma RankingCorrect<T>(items: seq<T>)
    ensures forall e :: e in SortByFrequency(Tally(items)) <==> e in Tally(items)
    ensures forall y :: Get(Tally(items), y) == multiset(items)[y]
    ensures Total(Tally(items)) == |items|
    ensures Keys(Tally(items)) == NewInOrder({}, items)
    ensures SortedDescBy(SortByFrequency(Tally(items)), Frequency)
    ensures forall f :: WithKey(SortByFrequency(Tally(items)), Frequency, f) == WithKey(Tally(items), Frequency, f)
  {
    TallyCorrect(items);
    SortDescByCorrect(Tally(items), Frequency);
    var r, t := SortByFrequency(Tally(items)), Tally(items);
    forall e ensures e in r <==> e in t {
      assert e in r <==> e in multiset(r);
      assert e in t <==> e in multiset(t);
    }
  }

  /** Bumps each item in turn: the table after a `forEach` of `set(x, get(x) + 1)`. */
  function BumpAll<T(==)>(table: seq<(T, nat)>, items: seq<T>): seq<(T, nat)>
  {
    if items == [] then table else Bump(BumpAll(table, items[..|items| - 1]), items[|items| - 1])
  }

  lemma {:induction false} TallyAppend<T>(xs: seq<T>, ys: seq<T>)
    ensures Tally(xs + ys) == BumpAll(Tally(xs), ys)
  {
    if ys == [] {
      assert xs + ys == xs;
    } else {
      var init := ys[..|ys| - 1];
      assert (xs + ys)[..|xs + ys| - 1] == xs + init;
      TallyAppend(xs, init);
    }
  }

  /** `items.forEach(x => table.set(x, (table.get(x) || 0) + 1))`. */
  method BumpEach<T(==)>(table: seq<(T, nat)>, items: seq<T>) returns (t: seq<(T, nat)>)
    ensures t == BumpAll(table, items)
  {
    t := table;
    var j := 0;
    while j < |items|
      invariant 0 <= j <= |items|
      invariant t == BumpAll(table, items[..j])
    {
      assert items[..j + 1][..j] == items[..j];
      t := Bump(t, items[j]);
      j := j + 1;
    }
    assert items[..j] == items;
  }

  /** The loop of `calculateCycleStats` that collects the differences of consecutive starts. */
  method ConsecutiveDifferences(periodStarts: seq<int>) returns (cycleLengths: seq<int>)
    ensures cycleLengths == CycleLengths(periodStarts)
    ensures |cycleLengths| == if |periodStarts| == 0 then 0 else |periodStarts| - 1
    ensures forall i :: 0 <= i < |cycleLengths| ==> cycleLengths[i] == periodStarts[i + 1] - periodStarts[i]
  {
    cycleLengths := [];
    var k := 1;
    while k < |periodStarts|
      invariant 1 <= k <= if |periodStarts| == 0 then 1 else |periodStarts|
      invariant |cycleLengths| == k - 1
      invariant forall i :: 0 <= i < k - 1 ==> cycleLengths[i] == periodStarts[i + 1] - periodStarts[i]
    {
      cycleLengths := cycleLengths + [periodStarts[k] - periodStarts[k - 1]];
      k := k + 1;
    }
    CycleLengthsAt(periodStarts);
    assert |cycleLengths| == |CycleLengths(periodStarts)|;
    forall i | 0 <= i < |cycleLengths| ensures cycleLengths[i] == CycleLengths(periodStarts)[i] {
      assert i < k - 1;
      assert cycleLengths[i] == periodStarts[i + 1] - periodStarts[i];
      assert CycleLengths(periodStarts)[i] == periodStarts[i + 1] - periodStarts[i];
    }
  }

  // ---------------------------------------------------------------------
  // calculateCycleStats
  // ---------------------------------------------------------------------

  /**
   * The statistics `calculateCycleStats` assembles once its loops are done:
   * the averages, the score, the last start and the prediction.
   */
  function CycleStatsFrom(periodStarts: seq<int>, cycleLengths: seq<int>, periodLengths: seq<int>,
                          symptomFrequency: seq<(Symptom, nat)>, moodFrequency: seq<(Mood, nat)>): CycleStats
  {
    var avgCycleLength := RoundedMean(cycleLengths);
    var lastPeriodStart := if periodStarts == [] then None else Some(periodStarts[|periodStarts| - 1]);
    CycleStats(
      avgCycleLength,
      RoundedMean(periodLengths),
      SortByFrequency(symptomFrequency),
      SortByFrequency(moodFrequency),
      if |cycleLengths| > 1 then RegularityScore(cycleLengths) else 0,
      lastPeriodStart,
      if lastPeriodStart.Some? && avgCycleLength.Some? && avgCycleLength.value != 0
      then Some(lastPeriodStart.value + avgCycleLength.value) else None)
  }

  /** The cycle statistics of one user's logs, given in the order the query returns them. */
  function CycleStatsOf(logs: seq<LogDoc>): (r: CycleStats)
    ensures 0 <= r.regularityScore <= 100
    ensures r.lastPeriodStart.Some? <==> exists i :: 0 <= i < |logs| && HasFlow(logs[i])
    ensures r.predictedNextPeriod.Some? ==>
              && r.lastPeriodStart.Some? && r.averageCycleLength.Some?
              && r.predictedNextPeriod.value == r.lastPeriodStart.value + r.averageCycleLength.value
  {
    var seg := Segment(logs);
    FlowStartsPeriod(logs);
    CycleStatsFrom(seg.starts, CycleLengths(seg.starts), seg.lengths, Tally(AllSymptoms(logs)), Tally(AllMoods(logs)))
  }

  /** Some period has started exactly when some log carries flow. */
  lemma {:induction false} FlowStartsPeriod(logs: seq<LogDoc>)
    ensures Segment(logs).starts != [] <==> exists i :: 0 <= i < |logs| && HasFlow(logs[i])
  {
    if logs != [] {
      var init := logs[..|logs| - 1];
      FlowStartsPeriod(init);
      PeriodCounts(init);
      if exists i :: 0 <= i < |init| && HasFlow(init[i]) {
        var i :| 0 <= i < |init| && HasFlow(init[i]);
        assert logs[i] == init[i];
      }
      if exists i :: 0 <= i < |logs| && HasFlow(logs[i]) {
        var i :| 0 <= i < |logs| && HasFlow(logs[i]);
        if i < |init| {
          assert init[i] == logs[i];
        }
      }
    }
  }

  /** The accumulators after one more log. */
  lemma {:induction false} ScanStep(logs: seq<LogDoc>, i: nat)
    requires i < |logs|
    ensures Segment(logs[..i + 1]) == Track(Segment(logs[..i]), logs[i])
    ensures AllSymptoms(logs[..i + 1]) == AllSymptoms(logs[..i]) + SymptomsOf(logs[i])
    ensures MoodOf(logs[i]).Some? ==> Tally(AllMoods(logs[..i + 1])) == Bump(Tally(AllMoods(logs[..i])), MoodOf(logs[i]).value)
    ensures MoodOf(logs[i]).None? ==> AllMoods(logs[..i + 1]) == AllMoods(logs[..i])
  {
    assert logs[..i + 1][..i] == logs[..i];
    if MoodOf(logs[i]).Some? {
      var moods := AllMoods(logs[..i]);
      assert AllMoods(logs[..i + 1]) == moods + [MoodOf(logs[i]).value];
      assert (moods + [MoodOf(logs[i]).value])[..|moods|] == moods;
    }
  }

  lemma AllDailyStep(logs: seq<LogDoc>, i: nat)
    requires i < |logs| && AllDaily(logs[..i]) && HasDailyFields(logs[i])
    ensures AllDaily(logs[..i + 1])
  {
    assert logs[..i + 1] == logs[..i] + [logs[i]];
  }

  /** The loop variables of `calculateCycleStats` hold the tracker `t`. */
  ghost predicate Mirrors(t: Tracker, periodStarts: seq<int>, periodLengths: seq<int>,
                          currentPeriodStart: Option<int>, lastPeriodEnd: Option<int>)
  {
    && periodStarts == t.starts
    && periodLengths == t.lengths
    && (t.period.NoOpenPeriod? <==> currentPeriodStart.None?)
    && (t.period.OpenPeriod? ==>
          currentPeriodStart == Some(t.period.start) && lastPeriodEnd == Some(t.period.end))
  }

  /** The period-tracking statements of the loop body, on one log. */
  method TrackPeriod(log: LogDoc, ghost t: Tracker, periodStarts: seq<int>, periodLengths: seq<int>,
                     currentPeriodStart: Option<int>, lastPeriodEnd: Option<int>)
    returns (periodStarts': seq<int>, periodLengths': seq<int>,
             currentPeriodStart': Option<int>, lastPeriodEnd': Option<int>)
    requires HasDailyFields(log)
    requires Mirrors(t, periodStarts, periodLengths, currentPeriodStart, lastPeriodEnd)
    ensures Mirrors(Track(t, log), periodStarts', periodLengths', currentPeriodStart', lastPeriodEnd')
  {
    periodStarts', periodLengths', currentPeriodStart', lastPeriodEnd' :=
      periodStarts, periodLengths, currentPeriodStart, lastPeriodEnd;
    if log.daily.value.flow.Some? {
      if currentPeriodStart'.None? {
        currentPeriodStart' := Some(log.dateOfLog);
        periodStarts' := periodStarts' + [log.dateOfLog];
      }
      lastPeriodEnd' := Some(log.dateOfLog);
    } else if currentPeriodStart'.Some? && lastPeriodEnd'.Some? {
      periodLengths' := periodLengths' + [lastPeriodEnd'.value - currentPeriodStart'.value];
      currentPeriodStart' := None;
    }
  }

  /** The frequency statements of the loop body, on one log with daily fields. */
  method CountLog(logs: seq<LogDoc>, i: nat, symptomFrequency: seq<(Symptom, nat)>, moodFrequency: seq<(Mood, nat)>)
    returns (symptomFrequency': seq<(Symptom, nat)>, moodFrequency': seq<(Mood, nat)>)
    requires i < |logs| && HasDailyFields(logs[i])
    requires symptomFrequency == Tally(AllSymptoms(logs[..i])) && moodFrequency == Tally(AllMoods(logs[..i]))
    ensures symptomFrequency' == Tally(AllSymptoms(logs[..i + 1])) && moodFrequency' == Tally(AllMoods(logs[..i + 1]))
  {
    var daily := logs[i].daily.value;
    assert SymptomsOf(logs[i]) == daily.symptoms && MoodOf(logs[i]) == daily.mood;
    ScanStep(logs, i);
    TallyAppend(AllSymptoms(logs[..i]), daily.symptoms);
    symptomFrequency' := BumpEach(symptomFrequency, daily.symptoms);
    moodFrequency' := moodFrequency;
    if daily.mood.Some? {
      moodFrequency' := Bump(moodFrequency, daily.mood.value);
    }
  }

  /**
   * The first loop of `calculateCycleStats`: the period tracker and the two
   * frequency tables, run over the logs in order. `read` is false when the
   * loop stops at a log without daily fields, where `log.symptoms.forEach`
   * throws.
   */
  method ScanLogs(logs: seq<LogDoc>)
    returns (read: bool, periodStarts: seq<int>, periodLengths: seq<int>,
             symptomFrequency: seq<(Symptom, nat)>, moodFrequency: seq<(Mood, nat)>)
    ensures read <==> AllDaily(logs)
    ensures read ==> periodStarts == Segment(logs).starts && periodLengths == Segment(logs).lengths
    ensures read ==> symptomFrequency == Tally(AllSymptoms(logs)) && moodFrequency == Tally(AllMoods(logs))
  {
    periodStarts, periodLengths, symptomFrequency, moodFrequency := [], [], [], [];
    var currentPeriodStart: Option<int> := None;
    var lastPeriodEnd: Option<int> := None;

    var i := 0;
    while i < |logs|
      invariant 0 <= i <= |logs|
      invariant AllDaily(logs[..i])
      invariant Mirrors(Segment(logs[..i]), periodStarts, periodLengths, currentPeriodStart, lastPeriodEnd)
      invariant symptomFrequency == Tally(AllSymptoms(logs[..i]))
      invariant moodFrequency == Tally(AllMoods(logs[..i]))
    {
      var log := logs[i];
      if log.daily.None? {
        assert !HasDailyFields(logs[i]);
        return false, periodStarts, periodLengths, symptomFrequency, moodFrequency;
      }
      AllDailyStep(logs, i);
      ScanStep(logs, i);
      symptomFrequency, moodFrequency := CountLog(logs, i, symptomFrequency, moodFrequency);
      periodStarts, periodLengths, currentPeriodStart, lastPeriodEnd :=
        TrackPeriod(log, Segment(logs[..i]), periodStarts, periodLengths, currentPeriodStart, lastPeriodEnd);
      i := i + 1;
    }
    assert logs[..i] == logs;
    read := true;
  }

  /** The message of the TypeError thrown by `forEach` on the missing symptoms of an activity log. */
  const UndefinedSymptomsError: string := "Cannot read properties of undefined (reading 'forEach')"

  /**
   * `calculateCycleStats`: one pass over the logs runs the period tracker
   * and the two frequency tables, a second pass derives the cycle lengths.
   * The author's activity logs are among the logs, and the first of them
   * makes the first pass throw.
   */
  method CalculateCycleStats(logs: seq<LogDoc>) returns (r: Result<CycleStats>)
    ensures r.Err? <==> exists i :: 0 <= i < |logs| && !HasDailyFields(logs[i])
    ensures r.Err? ==> r.error == Failure(UndefinedSymptomsError)
    ensures r.Ok? ==> r.value == CycleStatsOf(logs)
  {
    var read, periodStarts, periodLengths, symptomFrequency, moodFrequency := ScanLogs(logs);
    if !read {
      return Err(Failure(UndefinedSymptomsError));
    }
    var cycleLengths := ConsecutiveDifferences(periodStarts);
    r := Ok(CycleStatsFrom(periodStarts, cycleLengths, periodLengths, symptomFrequency, moodFrequency));
  }

  /** The logs that have daily fields, in their order. */
  function DailyLogs(logs: seq<LogDoc>): (r: seq<LogDoc>)
    ensures AllDaily(r)
    ensures |r| <= |logs|
    ensures forall x :: x in r ==> x in logs
    ensures AllDaily(logs) ==> r == logs
  {
    if logs == [] then []
    else
      var init, last := logs[..|logs| - 1], logs[|logs| - 1];
      assert logs == init + [last];
      DailyLogs(init) + (if HasDailyFields(last) then [last] else [])
  }

  /** Dropping the logs without daily fields keeps the date order. */
  lemma {:induction false} DailyLogsSorted(logs: seq<LogDoc>)
    requires SortedByDate(logs)
    ensures SortedByDate(DailyLogs(logs))
  {
    if logs != [] {
      var init, last := logs[..|logs| - 1], logs[|logs| - 1];
      DailyLogsSorted(init);
      var d := DailyLogs(init);
      forall x | x in d ensures x.dateOfLog <= last.dateOfLog {
        var k :| 0 <= k < |init| && init[k] == x;
        assert logs[k] == x;
      }
      var r := DailyLogs(logs);
      forall i, j | 0 <= i < j < |r| ensures r[i].dateOfLog <= r[j].dateOfLog {
        if j == |d| {
          assert r[i] in d;
        } else {
          assert r[i] == d[i] && r[j] == d[j];
        }
      }
    }
  }

  /**
   * The cycle statistics as evidently intended: computed over the author's
   * daily logs only, activity logs left out.
   */
  method CalculateCycleStatsAsIntended(logs: seq<LogDoc>) returns (stats: CycleStats)
    ensures stats == CycleStatsOf(DailyLogs(logs))
    ensures AllDaily(logs) ==> stats == CycleStatsOf(logs)
  {
    var r := CalculateCycleStats(DailyLogs(logs));
    stats := r.value;
  }

  /**
   * As written, one activity log makes the cycle statistics fail, where
   * the intended statistics are those of the other logs.
   */
  lemma ActivityLogFailsCycleStats(logs: seq<LogDoc>, activityLog: LogDoc)
    requires !HasDailyFields(activityLog)
    ensures exists i :: 0 <= i < |logs + [activityLog]| && !HasDailyFields((logs + [activityLog])[i])
    ensures DailyLogs(logs + [activityLog]) == DailyLogs(logs)
  {
    var all := logs + [activityLog];
    assert !HasDailyFields(all[|logs|]);
    assert all[..|all| - 1] == logs;
  }

  /** With no flow-bearing log every period statistic is null and the score is 0. */
  lemma NoFlowStats(logs: seq<LogDoc>)
    requires forall i :: 0 <= i < |logs| ==> !HasFlow(logs[i])
    ensures CycleStatsOf(logs).averageCycleLength == None
    ensures CycleStatsOf(logs).averagePeriodLength == None
    ensures CycleStatsOf(logs).regularityScore == 0
    ensures CycleStatsOf(logs).lastPeriodStart == None
    ensures CycleStatsOf(logs).predictedNextPeriod == None
  {
    NoFlowNoPeriods(logs);
  }

  /** An empty log list gives the all-null, all-empty statistics. */
  lemma EmptyStats()
    ensures CycleStatsOf([]) == CycleStats(None, None, [], [], 0, None, None)
  {
  }

  /**
   * One cycle length per pair of consecutive period starts, each the day
   * difference of the pair, and none negative when the logs are date-sorted.
   */
  lemma CycleLengthsOfLogs(logs: seq<LogDoc>)
    ensures var starts := Segment(logs).starts;
            var cycles := CycleLengths(starts);
            && |cycles| == (if |starts| == 0 then 0 else |starts| - 1)
            && (forall i :: 0 <= i < |cycles| ==> cycles[i] == starts[i + 1] - starts[i])
            && (SortedByDate(logs) ==> forall i :: 0 <= i < |cycles| ==> cycles[i] >= 0)
  {
    var starts := Segment(logs).starts;
    var cycles := CycleLengths(starts);
    CycleLengthsAt(starts);
    if SortedByDate(logs) {
      SegmentOrdered(logs);
      forall i | 0 <= i < |cycles| ensures cycles[i] >= 0 {
        assert starts[i] <= starts[i + 1];
      }
    }
  }

  /**
   * The averages are null exactly when their list is empty (fewer than two
   * period starts for the cycle length, no closed period for the period
   * length), and the score is 0 below two cycle lengths and never outside 0..100.
   */
  lemma AveragesAndScore(logs: seq<LogDoc>)
    ensures var starts := Segment(logs).starts;
            var s := CycleStatsOf(logs);
            && (s.averageCycleLength.None? <==> |starts| < 2)
            && (s.averagePeriodLength.None? <==> Segment(logs).lengths == [])
            && (|starts| < 3 ==> s.regularityScore == 0)
            && 0 <= s.regularityScore <= 100
  {
    CycleLengthsAt(Segment(logs).starts);
  }

  /**
   * The last period start is the last recorded start, and a next period is
   * predicted, average-cycle-length days after it, exactly when both exist
   * and the average is non-zero.
   */
  lemma PredictionRule(logs: seq<LogDoc>)
    ensures var starts := Segment(logs).starts;
            var s := CycleStatsOf(logs);
            && (s.lastPeriodStart.None? <==> starts == [])
            && (s.lastPeriodStart.Some? ==> s.lastPeriodStart.value == starts[|starts| - 1])
            && (s.predictedNextPeriod.Some? <==>
                  s.lastPeriodStart.Some? && s.averageCycleLength.Some? && s.averageCycleLength.value != 0)
            && (s.predictedNextPeriod.Some? ==>
                  s.predictedNextPeriod.value == s.lastPeriodStart.value + s.averageCycleLength.value)
  {
    var seg := Segment(logs);
    PredictionFrom(seg.starts, CycleLengths(seg.starts), seg.lengths, Tally(AllSymptoms(logs)), Tally(AllMoods(logs)));
  }

  lemma PredictionFrom(periodStarts: seq<int>, cycleLengths: seq<int>, periodLengths: seq<int>,
                       symptomFrequency: seq<(Symptom, nat)>, moodFrequency: seq<(Mood, nat)>)
    ensures var s := CycleStatsFrom(periodStarts, cycleLengths, periodLengths, symptomFrequency, moodFrequency);
            && (s.lastPeriodStart.None? <==> periodStarts == [])
            && (s.lastPeriodStart.Some? ==> s.lastPeriodStart.value == periodStarts[|periodStarts| - 1])
            && (s.predictedNextPeriod.Some? <==>
                  s.lastPeriodStart.Some? && s.averageCycleLength.Some? && s.averageCycleLength.value != 0)
            && (s.predictedNextPeriod.Some? ==>
                  s.predictedNextPeriod.value == s.lastPeriodStart.value + s.averageCycleLength.value)
  {
  }

  // ---------------------------------------------------------------------
  // calculateActivityStats
  // ---------------------------------------------------------------------

  ghost predicate LoggedOn(logs: seq<LogDoc>, day: int)
  {
    exists k :: 0 <= k < |logs| && logs[k].dateOfLog == day
  }

  /**
   * `n` is the activity streak of the logs: the newest day and the n - 1
   * days before it all have a log, and the day before those has none.
   */
  ghost predicate IsStreak(logs: seq<LogDoc>, n: nat)
  {
    && logs != []
    && n >= 1
    && (forall day :: logs[|logs| - 1].dateOfLog - n < day <= logs[|logs| - 1].dateOfLog ==> LoggedOn(logs, day))
    && !LoggedOn(logs, logs[|logs| - 1].dateOfLog - n)
  }

  /** At most one streak length fits a list of logs. */
  lemma StreakUnique(logs: seq<LogDoc>, m: nat, n: nat)
    requires IsStreak(logs, m) && IsStreak(logs, n)
    ensures m == n
  {
  }

  /**
   * `calculateActivityStats`: scans the date-sorted logs newest first; a log
   * one day before the streak's earliest day extends the streak, a log on
   * the same day is skipped, and the first larger gap ends the scan.
   */
  method CalculateActivityStats(logs: seq<LogDoc>) returns (stats: ActivityStats)
    requires SortedByDate(logs)
    ensures logs == [] ==> stats == ActivityStats(0, None)
    ensures logs != [] ==>
              && stats.lastLoggedActivity ==
                   Some(LastActivity(logs[|logs| - 1].dateOfLog, logs[|logs| - 1].activities))
              && 1 <= stats.activityStreak <= |logs|
              && IsStreak(logs, stats.activityStreak)
  {
    if |logs| == 0 {
      return ActivityStats(0, None);
    }
    var streak: nat := 0;
    var currentStreakDate: Option<int> := None;
    var lastLoggedActivity: Option<LastActivity> := None;
    ghost var newest := logs[|logs| - 1].dateOfLog;

    var i := |logs|;
    while i > 0
      invariant 0 <= i <= |logs|
      invariant currentStreakDate.None? <==> i == |logs|
      invariant currentStreakDate.None? ==> lastLoggedActivity.None?
      invariant currentStreakDate.Some? ==>
                  && lastLoggedActivity == Some(LastActivity(newest, logs[|logs| - 1].activities))
                  && 1 <= streak <= |logs| - i
                  && currentStreakDate.value == newest - streak + 1
                  && (forall day :: newest - streak < day <= newest ==> LoggedOn(logs, day))
                  && (forall k :: i <= k < |logs| ==> logs[k].dateOfLog >= currentStreakDate.value)
    {
      i := i - 1;
      var log := logs[i];
      if lastLoggedActivity.None? {
        lastLoggedActivity := Some(LastActivity(log.dateOfLog, log.activities));
      }
      if currentStreakDate.None? {
        currentStreakDate := Some(log.dateOfLog);
        streak := 1;
        assert LoggedOn(logs, newest - 0) by { assert logs[i].dateOfLog == newest; }
      } else {
        var dayDifference := currentStreakDate.value - log.dateOfLog;
        if dayDifference == 1 {
          assert LoggedOn(logs, newest - streak) by { assert logs[i].dateOfLog == newest - streak; }
          streak := streak + 1;
          currentStreakDate := Some(log.dateOfLog);
        } else if dayDifference > 1 {
          assert !LoggedOn(logs, newest - streak) by {
            forall k | 0 <= k < |logs| ensures logs[k].dateOfLog != newest - streak {
              if k <= i {
                assert logs[k].dateOfLog <= logs[i].dateOfLog;
              }
            }
          }
          break;
        }
      }
    }
    if i == 0 {
      assert !LoggedOn(logs, newest - streak) by {
        forall k | 0 <= k < |logs| ensures logs[k].dateOfLog != newest - streak {
        }
      }
    }
    stats := ActivityStats(streak, lastLoggedActivity);
  }

  // ---------------------------------------------------------------------
  // The log collection
  // ---------------------------------------------------------------------

  function LogId(log: LogDoc): DocId
  {
    log.id
  }

  /**
   * The `_id` value of a `readOne` filter: the id of a log, or the result
   * object `partialUpdateOne` returns, which is no log's id.
   */
  datatype IdFilter = ById(id: DocId) | ByUpdateResult(matchedCount: nat)

  /** `readOne({ _id })`: the first log with that id, and none for an update result. */
  function ReadOne(logs: seq<LogDoc>, key: IdFilter): (r: Option<LogDoc>)
    ensures key.ByUpdateResult? ==> r.None?
    ensures key.ById? ==> (r.Some? <==> exists k :: 0 <= k < |logs| && logs[k].id == key.id)
    ensures key.ById? && r.Some? ==> r.value in logs && r.value.id == key.id
  {
    match key
    case ByUpdateResult(_) => None
    case ById(id) =>
      match FindIndex(logs, LogId, id)
      case None => None
      case Some(k) => Some(logs[k])
  }

  /** With distinct ids, reading a log back by its own id finds that log. */
  lemma ReadOneById(logs: seq<LogDoc>, k: nat)
    requires k < |logs|
    requires forall i, j :: 0 <= i < j < |logs| ==> logs[i].id != logs[j].id
    ensures ReadOne(logs, ById(logs[k].id)) == Some(logs[k])
  {
    var f := FindIndex(logs, LogId, logs[k].id);
    assert LogId(logs[k]) == logs[k].id;
    assert f.Some? && f.value == k;
  }

  /**
   * The response of `update` as written: after the update the log is
   * stored, and can be read back by its id, but the read with the update
   * result finds nothing.
   */
  lemma UpdateResponseFindsNothing(logs: seq<LogDoc>, k: nat, matchedCount: nat)
    requires k < |logs|
    requires forall i, j :: 0 <= i < j < |logs| ==> logs[i].id != logs[j].id
    ensures ReadOne(logs, ById(logs[k].id)) == Some(logs[k])
    ensures ReadOne(logs, ByUpdateResult(matchedCount)) == None
  {
    ReadOneById(logs, k);
  }

  class LoggingConcept {
    var logs: seq<LogDoc>
    var nextId: DocId

    /** Every stored log has its own id, below the next fresh one. */
    ghost predicate Valid()
      reads this
    {
      && (forall i :: 0 <= i < |logs| ==> logs[i].id < nextId)
      && (forall i, j :: 0 <= i < j < |logs| ==> logs[i].id != logs[j].id)
    }

    constructor ()
      ensures Valid() && logs == []
    {
      logs := [];
      nextId := 0;
    }

    /** The position of the log with this id, if one is stored. */
    function IndexOf(id: DocId): (r: Option<nat>)
      reads this
      ensures r.Some? ==> r.value < |logs| && logs[r.value].id == id
      ensures r.None? ==> forall k :: 0 <= k < |logs| ==> logs[k].id != id
    {
      FindIndex(logs, LogId, id)
    }

    /** `create`: stores a new daily log under a fresh id. */
    method Create(author: UserId, dateOfLog: int, symptoms: seq<Symptom>, mood: Option<Mood>,
                  flow: Option<FlowIntensity>, notes: string) returns (log: LogDoc)
      requires Valid()
      modifies this
      ensures Valid()
      ensures forall k :: 0 <= k < |old(logs)| ==> old(logs)[k].id != log.id
      ensures log == LogDoc(log.id, author, dateOfLog, Some(DailyFields(symptoms, mood, flow, notes)), None)
      ensures logs == old(logs) + [log]
    {
      log := LogDoc(nextId, author, dateOfLog, Some(DailyFields(symptoms, mood, flow, notes)), None);
      logs := logs + [log];
      nextId := nextId + 1;
    }

    /** `createActivityLog`: stores a new activity log under a fresh id. */
    method CreateActivityLog(author: UserId, dateOfLog: int, activities: seq<Activity>) returns (log: LogDoc)
      requires Valid()
      modifies this
      ensures Valid()
      ensures forall k :: 0 <= k < |old(logs)| ==> old(logs)[k].id != log.id
      ensures log == LogDoc(log.id, author, dateOfLog, None, Some(activities))
      ensures logs == old(logs) + [log]
    {
      log := LogDoc(nextId, author, dateOfLog, None, Some(activities));
      logs := logs + [log];
      nextId := nextId + 1;
    }

    /** `delete` / `deleteActivityLog`: removes the log with that id, if any. */
    method Delete(id: DocId)
      requires Valid()
      modifies this
      ensures Valid()
      ensures forall k :: 0 <= k < |logs| ==> logs[k].id != id
      ensures old(IndexOf(id)).None? ==> logs == old(logs)
      ensures old(IndexOf(id)).Some? ==> logs == RemoveAt(old(logs), old(IndexOf(id)).value)
    {
      var r := IndexOf(id);
      if r.Some? {
        logs := RemoveAt(logs, r.value);
      }
    }

    /** `deleteAllLogs`. */
    method DeleteAllLogs()
      requires Valid()
      modifies this
      ensures Valid() && logs == []
    {
      logs := [];
    }

    /**
     * `update`: replaces the four daily fields of an existing log, nothing
     * else. The response reads the log back with the value
     * `partialUpdateOne` returned, which is the update's result and not an
     * id, so it finds no log.
     */
    method Update(id: DocId, symptoms: seq<Symptom>, mood: Option<Mood>, flow: Option<FlowIntensity>,
                  notes: string) returns (r: Result<Option<LogDoc>>)
      requires Valid()
      modifies this
      ensures Valid()
      ensures old(IndexOf(id)).None? ==> r == Err(Failure("Log not found")) && logs == old(logs)
      ensures old(IndexOf(id)).Some? ==>
                var k := old(IndexOf(id)).value;
                r == Ok(None)
                && logs == old(logs)[k := old(logs)[k].(daily := Some(DailyFields(symptoms, mood, flow, notes)))]
    {
      var found := IndexOf(id);
      if found.None? {
        return Err(Failure("Log not found"));
      }
      var k := found.value;
      logs := logs[k := logs[k].(daily := Some(DailyFields(symptoms, mood, flow, notes)))];
      var updateResult := ByUpdateResult(1);
      r := Ok(ReadOne(logs, updateResult));
    }

    /** `updateActivityLog`: replaces the activities of an existing log; the response finds no log, as for `update`. */
    method UpdateActivityLog(id: DocId, activities: seq<Activity>) returns (r: Result<Option<LogDoc>>)
      requires Valid()
      modifies this
      ensures Valid()
      ensures old(IndexOf(id)).None? ==> r == Err(Failure("Log not found")) && logs == old(logs)
      ensures old(IndexOf(id)).Some? ==>
                var k := old(IndexOf(id)).value;
                r == Ok(None) && logs == old(logs)[k := old(logs)[k].(activities := Some(activities))]
    {
      var found := IndexOf(id);
      if found.None? {
        return Err(Failure("Log not found"));
      }
      var k := found.value;
      logs := logs[k := logs[k].(activities := Some(activities))];
      var updateResult := ByUpdateResult(1);
      r := Ok(ReadOne(logs, updateResult));
    }

    /** `update` with the response it evidently means: the updated log, read back by its own id. */
    method UpdateAsIntended(id: DocId, symptoms: seq<Symptom>, mood: Option<Mood>, flow: Option<FlowIntensity>,
                            notes: string) returns (r: Result<LogDoc>)
      requires Valid()
      modifies this
      ensures Valid()
      ensures old(IndexOf(id)).None? ==> r == Err(Failure("Log not found")) && logs == old(logs)
      ensures old(IndexOf(id)).Some? ==>
                var k := old(IndexOf(id)).value;
                var updated := old(logs)[k].(daily := Some(DailyFields(symptoms, mood, flow, notes)));
                r == Ok(updated) && logs == old(logs)[k := updated]
    {
      var written := Update(id, symptoms, mood, flow, notes);
      if written.Err? {
        return Err(written.error);
      }
      var log := ReadOne(logs, ById(id));
      ReadOneById(logs, old(IndexOf(id)).value);
      r := Ok(log.value);
    }

    /** `updateActivityLog` with the response it evidently means: the updated log. */
    method UpdateActivityLogAsIntended(id: DocId, activities: seq<Activity>) returns (r: Result<LogDoc>)
      requires Valid()
      modifies this
      ensures Valid()
      ensures old(IndexOf(id)).None? ==> r == Err(Failure("Log not found")) && logs == old(logs)
      ensures old(IndexOf(id)).Some? ==>
                var k := old(IndexOf(id)).value;
                var updated := old(logs)[k].(activities := Some(activities));
                r == Ok(updated) && logs == old(logs)[k := updated]
    {
      var written := UpdateActivityLog(id, activities);
      if written.Err? {
        return Err(written.error);
      }
      var log := ReadOne(logs, ById(id));
      ReadOneById(logs, old(IndexOf(id)).value);
      r := Ok(log.value);
    }

    /** `assertAuthorIsUser`: passes exactly when the log exists and `user` wrote it. */
    function AssertAuthorIsUser(id: DocId, user: UserId): (r: Outcome)
      reads this
      ensures r == Pass <==> exists k :: 0 <= k < |logs| && logs[k].id == id && logs[k].author == user && IndexOf(id) == Some(k)
      ensures r == Fail(Failure("Log not found")) <==> forall k :: 0 <= k < |logs| ==> logs[k].id != id
      ensures r.Fail? ==> r.error in {Failure("Log not found"), Failure("User is not the author of this log")}
    {
      match IndexOf(id)
      case None => Fail(Failure("Log not found"))
      case Some(k) => if logs[k].author != user then Fail(Failure("User is not the author of this log")) else Pass
    }

    /** `getLogByDate` / `getActivityLogByDate`: the first log of that author on that day. */
    function GetLogByDate(author: UserId, date: int): (r: Option<LogDoc>)
      reads this
      ensures r.Some? ==> r.value in logs && r.value.author == author && r.value.dateOfLog == date
      ensures r.None? ==> forall k :: 0 <= k < |logs| ==> !(logs[k].author == author && logs[k].dateOfLog == date)
    {
      FindByDate(logs, author, date, 0)
    }
  }

  function FindByDate(logs: seq<LogDoc>, author: UserId, date: int, from: nat): (r: Option<LogDoc>)
    decreases |logs| - from
    ensures r.Some? ==> r.value in logs && r.value.author == author && r.value.dateOfLog == date
    ensures r.None? ==> forall k :: from <= k < |logs| ==> !(logs[k].author == author && logs[k].dateOfLog == date)
  {
    if from >= |logs| then None
    else if logs[from].author == author && logs[from].dateOfLog == date then Some(logs[from])
    else FindByDate(logs, author, date, from + 1)
  }
}
