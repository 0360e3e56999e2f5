/**
 * What the inference loop does, stated as functions: one `Step` per sample
 * pulled from the input, `Run` over a finite input that ends in end-of-input,
 * and a closed-form description (`NoFault`, `Predictions`, `Trace`) of a run
 * that reaches the end of its input.
 */
module InferLoopSpec {
  import opened Cadence
  import opened Prediction
  import opened ClassHistogram
  import opened OutputFormat

  /** The category labels; the report printout indexes into this list. */
  const Categories: seq<string> := ["0", "1", "2", "3", "4", "5", "6", "7", "8", "9"]

  /** The model's number of categories and the configured statistics interval. */
  datatype Config = Config(numCategories: nat, statsInterval: int)

  /**
   * What the loop does to the world outside it, in order: a line written to
   * the predictions file, a call to the confidence tracker, a statistics
   * report (the table row label, the running total in decimal; the histogram shown in the table and bar
   * graph, and the predictions-count statistic), a confidence report request,
   * and closing the predictions file.
   */
  datatype Event =
    | Write(prediction: nat)
    | CheckConfidence(confidence: real, sample: nat)
    | Report(rowLabel: string, hist: seq<int>, predictionsCount: int)
    | ReportConfidence(interval: int)
    | Close

  /**
   * The exceptions the loop body itself can raise; none of them is caught, so
   * each ends the run without closing the predictions file.
   */
  datatype Fault =
    | EmptyInference         // argmax of an empty vector
    | ClassOutOfRange(prediction: nat)  // histogram index past the model's categories
    | ZeroInterval           // modulo by a zero statistics interval
    | MissingCategoryLabel   // more categories than there are labels to print

  /** The loop's variables and what it has done so far. */
  datatype State = State(total: nat, hist: seq<int>, out: seq<nat>, events: seq<Event>)

  datatype Outcome = Running(st: State) | Stopped(st: State, fault: Fault)

  /** How a call of the loop ends. */
  datatype Ending = Finished | Aborted(fault: Fault)

  /** The state before the first sample: nothing counted, a zero histogram, nothing done. */
  function Initial(cfg: Config): (s: State)
    ensures s.total == 0 && s.out == [] && s.events == []
    ensures s.hist == Histogram(cfg.numCategories, []) && Sum(s.hist) == 0
  {
    HistogramEmpty(cfg.numCategories);
    ZeroSum(cfg.numCategories);
    State(0, seq(cfg.numCategories, _ => 0), [], [])
  }

  /** One pass of the loop body for the inference vector `v` of the next sample. */
  function Step(cfg: Config, s: State, v: seq<real>): Outcome
  {
    if |v| == 0 then Stopped(s, EmptyInference)
    else
      var p := ArgMax(v);
      var written := s.(total := s.total + 1, out := s.out + [p], events := s.events + [Write(p)]);
      if p >= |s.hist| then Stopped(written, ClassOutOfRange(p))
      else
        var checked := written.(hist := s.hist[p := s.hist[p] + 1],
                                events := written.events + [CheckConfidence(Confidence(v), s.total)]);
        if cfg.statsInterval == 0 then Stopped(checked, ZeroInterval)
        else if checked.total % cfg.statsInterval != 0 then Running(checked)
        else if |checked.hist| > |Categories| then Stopped(checked, MissingCategoryLabel)
        else
          Running(checked.(events := checked.events +
                             [Report(Decimal(checked.total), checked.hist, cfg.statsInterval),
                              ReportConfidence(cfg.statsInterval)]))
  }

  /**
   * What one pass of the loop body does. It raises exactly when the vector
   * is empty, its argmax is past the histogram, the interval is zero, or a
   * report is due with more categories than labels. Once the vector is
   * non-empty, the prediction has been counted and written even if an
   * exception follows, and a pass that raises nothing adds one to the
   * histogram's sum and keeps its size.
   */
  lemma StepEffect(cfg: Config, s: State, v: seq<real>)
    ensures var o := Step(cfg, s, v);
            (o.Stopped? <==>
               |v| == 0 || ArgMax(v) >= |s.hist| || cfg.statsInterval == 0 ||
               (Fires(s.total + 1, cfg.statsInterval) && |s.hist| > |Categories|)) &&
            (|v| == 0 ==> o == Stopped(s, EmptyInference)) &&
            (|v| > 0 ==> o.st.total == s.total + 1 && o.st.out == s.out + [ArgMax(v)]) &&
            (o.Running? ==> |o.st.hist| == |s.hist| && Sum(o.st.hist) == Sum(s.hist) + 1)
  {
    if |v| > 0 && ArgMax(v) < |s.hist| {
      SumUpdate(s.hist, ArgMax(v), 1);
    }
  }

  /**
   * The loop after pulling the samples whose inferences are `vs`. Every
   * sample it processed was counted and written; a run still going has
   * processed them all, and its histogram, one slot per category, adds up
   * to the running total.
   */
  function Run(cfg: Config, vs: seq<seq<real>>): (o: Outcome)
    ensures |o.st.out| == o.st.total <= |vs|
    ensures o.Running? ==>
              o.st.total == |vs| && |o.st.hist| == cfg.numCategories && Sum(o.st.hist) == |vs|
    decreases |vs|
  {
    if vs == [] then Running(Initial(cfg))
    else
      match Run(cfg, vs[..|vs| - 1])
      case Stopped(s, f) => Stopped(s, f)
      case Running(s) => StepEffect(cfg, s, vs[|vs| - 1]); Step(cfg, s, vs[|vs| - 1])
  }

  predicate AllNonEmpty(vs: seq<seq<real>>)
  {
    forall i :: 0 <= i < |vs| ==> |vs[i]| > 0
  }

  /**
   * The input on which no exception is raised: every vector is non-empty and
   * its argmax names a category of the model; the interval is non-zero once
   * a sample arrives; and with more categories than labels, no report is due.
   */
  predicate NoFault(cfg: Config, vs: seq<seq<real>>)
  {
    (forall i :: 0 <= i < |vs| ==> |vs[i]| > 0 && ArgMax(vs[i]) < cfg.numCategories) &&
    (vs != [] ==> cfg.statsInterval != 0) &&
    (cfg.numCategories > |Categories| && cfg.statsInterval != 0 ==> |vs| < Abs(cfg.statsInterval))
  }

  /** The prediction for each sample, in input order. */
  function Predictions(vs: seq<seq<real>>): seq<nat>
    requires AllNonEmpty(vs)
  {
    seq(|vs|, i requires 0 <= i < |vs| => ArgMax(vs[i]))
  }

  /**
   * What is done for the last sample of `vs`: write its prediction, hand its
   * confidence to the tracker, and when the running total hits the cadence,
   * report the histogram of all predictions so far and then request the
   * confidence report.
   */
  function Block(cfg: Config, vs: seq<seq<real>>): seq<Event>
    requires |vs| > 0 && AllNonEmpty(vs)
  {
    var v := vs[|vs| - 1];
    [Write(ArgMax(v)), CheckConfidence(Confidence(v), |vs| - 1)] +
    if Fires(|vs|, cfg.statsInterval) then
      [Report(Decimal(|vs|), Histogram(cfg.numCategories, Predictions(vs)), cfg.statsInterval),
       ReportConfidence(cfg.statsInterval)]
    else []
  }

  /** The events of a run over `vs`, sample by sample. */
  function Trace(cfg: Config, vs: seq<seq<real>>): (t: seq<Event>)
    requires AllNonEmpty(vs)
    ensures 2 * |vs| <= |t| <= 4 * |vs|
    decreases |vs|
  {
    if vs == [] then [] else Trace(cfg, vs[..|vs| - 1]) + Block(cfg, vs)
  }

  /**
   * The state after `vs` when no exception was raised: one prediction per
   * sample counted, histogrammed and written, and the events of `Trace`.
   */
  function Completed(cfg: Config, vs: seq<seq<real>>): State
    requires AllNonEmpty(vs)
  {
    State(|vs|, Histogram(cfg.numCategories, Predictions(vs)), Predictions(vs), Trace(cfg, vs))
  }
}
