/**
 * The inference loop itself: pull each sample's inference vector, derive the
 * prediction, write it, count it, hand the confidence to the tracker, and
 * report the statistics on the cadence, until the input ends.
 */
module InferLoop {
  import opened Prediction
  import opened OutputFormat
  import opened InferLoopSpec
  import opened InferLoopProperties

  /** The histogram before the first sample: one zero per category. */
  method ZeroHistogram(n: nat) returns (hist: array<int>)
    ensures fresh(hist)
    ensures hist[..] == seq(n, _ => 0)
  {
    hist := new int[n];
    for i := 0 to n
      invariant forall j :: 0 <= j < i ==> hist[j] == 0
    {
      hist[i] := 0;
    }
  }

  /**
   * One pass of the loop body for the next sample's inference vector: the
   * running total, the histogram, the file and the events move as `Step`
   * says, and `fault` is the exception the pass raises, if any.
   */
  method Sample(inference: seq<real>, hist: array<int>, output: OutputFile, statsInterval: int,
                total: nat, events: seq<Event>, ghost written: seq<nat>)
    returns (total': nat, events': seq<Event>, ghost written': seq<nat>, fault: Option<Fault>)
    requires !output.closed && output.content == Content(written)
    modifies hist, output
    ensures !output.closed && output.content == Content(written')
    ensures var st := State(total', hist[..], written', events');
            Step(Config(hist.Length, statsInterval), State(total, old(hist[..]), written, events), inference) ==
              if fault.None? then Running(st) else Stopped(st, fault.value)
  {
    total', events', written', fault := total, events, written, None;
    if |inference| == 0 {
      fault := Some(EmptyInference);
      return;
    }
    var prediction := ArgMax(inference);
    var confidence := Confidence(inference);

    output.Write(Line(prediction));
    ContentAppend(written, prediction);
    written' := written + [prediction];
    events' := events + [Write(prediction)];

    total' := total + 1;
    if prediction >= hist.Length {
      fault := Some(ClassOutOfRange(prediction));
      return;
    }
    hist[prediction] := hist[prediction] + 1;
    assert hist[..] == old(hist[..])[prediction := old(hist[..])[prediction] + 1];

    events' := events' + [CheckConfidence(confidence, total)];

    if statsInterval == 0 {
      fault := Some(ZeroInterval);
      return;
    }
    if total' % statsInterval == 0 {
      if hist.Length > |Categories| {
        fault := Some(MissingCategoryLabel);
        return;
      }
      events' := events' + [Report(Decimal(total'), hist[..], statsInterval), ReportConfidence(statsInterval)];
    }
  }

  /**
   * Runs the loop over the inference vectors `inputs` (the input's end is
   * the end of the sequence), with a model of `numCategories` categories and
   * the given statistics interval. Returns the predictions file, every event
   * in order, and how the loop ended.
   */
  method InferLoop(inputs: seq<seq<real>>, numCategories: nat, statsInterval: int)
    returns (output: OutputFile, events: seq<Event>, ending: Ending)
    ensures fresh(output)
    ensures var run := Run(Config(numCategories, statsInterval), inputs);
            output.content == Content(run.st.out) &&
            output.closed == run.Running? &&
            (run.Running? ==> ending == Finished && events == run.st.events + [Close]) &&
            (run.Stopped? ==> ending == Aborted(run.fault) && events == run.st.events)
    ensures ending == Finished <==> NoFault(Config(numCategories, statsInterval), inputs)
    ensures ending == Finished ==>
              output.content == Content(Predictions(inputs)) &&
              events == Trace(Config(numCategories, statsInterval), inputs) + [Close]
  {
    ghost var cfg := Config(numCategories, statsInterval);
    output := new OutputFile.Open();
    var total := 0;
    var hist := ZeroHistogram(numCategories);
    events := [];
    ghost var written: seq<nat> := [];
    var i := 0;
    while i < |inputs|
      invariant 0 <= i <= |inputs| && total == i
      invariant fresh(output) && fresh(hist) && hist.Length == numCategories
      invariant !output.closed && output.content == Content(written)
      invariant Run(cfg, inputs[..i]) == Running(State(total, hist[..], written, events))
    {
      assert inputs[..i + 1][..i] == inputs[..i];
      var fault;
      total, events, written, fault := Sample(inputs[i], hist, output, statsInterval, total, events, written);
      if fault.Some? {
        ending := Aborted(fault.value);
        FaultEndsRun(cfg, inputs, i + 1, State(total, hist[..], written, events), fault.value);
        return;
      }
      i := i + 1;
    }
    assert inputs[..i] == inputs;
    output.Close();
    events := events + [Close];
    ending := Finished;
    RunClosedForm(cfg, inputs);
  }

  /** The inference vector with a clear winner at category 1. */
  const ClearWinner: seq<real> := [0.05, 0.9, 0.05, 0.0, 0.0, 0.0, 0.0, 0.0, 0.0, 0.0]

  /** Three such samples with interval 100 raise nothing, predict 1 three times and report nothing. */
  lemma ThreeClearWinners()
    ensures var cfg, vs := Config(10, 100), [ClearWinner, ClearWinner, ClearWinner];
            NoFault(cfg, vs) &&
            Content(Predictions(vs)) == "1\n1\n1\n" &&
            Select(Trace(cfg, vs), IsReport) == []
  {
    var cfg, vs := Config(10, 100), [ClearWinner, ClearWinner, ClearWinner];
    assert NoFault(cfg, vs) && Predictions(vs) == [1, 1, 1] by {
      ClearWinnerExample();
    }
    OnesContent();
    ReportsOfTrace(cfg, vs);
  }

  lemma OnesContent()
    ensures Content([1, 1, 1]) == "1\n1\n1\n"
  {
    assert Line(1) == "1\n";
    assert Content([1]) == "1\n" by {
      assert [1][1..] == [];
    }
    assert Content([1, 1]) == "1\n1\n" by {
      assert [1, 1][1..] == [1];
    }
    assert [1, 1, 1][1..] == [1, 1];
  }

  /** Three samples, interval 100: three lines "1", no report, the file closed. */
  method ThreeSamplesThenEndOfInput()
  {
    var vs := [ClearWinner, ClearWinner, ClearWinner];
    var output, events, ending := InferLoop(vs, 10, 100);
    ThreeClearWinners();
    assert ending == Finished && output.closed;
    assert output.content == "1\n1\n1\n";
    assert events == Trace(Config(10, 100), vs) + [Close];
  }
}
