/**
 * Properties of the inference loop's specification: when a run reaches the
 * end of its input, what its state is then, and what its event trace says
 * about output lines, tracker calls and statistics reports.
 */
module InferLoopProperties {
  import opened Cadence
  import opened Prediction
  import opened ClassHistogram
  import opened InferLoopSpec
  import opened OutputFormat

  // ---------------------------------------------------------------------
  // When a run reaches the end of its input, and its state then

  /** A failed run stays failed: later samples are never pulled. */
  lemma {:induction false} StoppedStays(cfg: Config, vs: seq<seq<real>>, m: nat)
    requires m <= |vs|
    requires Run(cfg, vs[..m]).Stopped?
    ensures Run(cfg, vs) == Run(cfg, vs[..m])
    decreases |vs|
  {
    if m < |vs| {
      var ws := vs[..|vs| - 1];
      assert ws[..m] == vs[..m];
      StoppedStays(cfg, ws, m);
    } else {
      assert vs[..m] == vs;
    }
  }

  /** An exception raised at sample `m` ends the whole run with it, so the run is not fault-free. */
  lemma FaultEndsRun(cfg: Config, vs: seq<seq<real>>, m: nat, st: State, f: Fault)
    requires m <= |vs| && Run(cfg, vs[..m]) == Stopped(st, f)
    ensures Run(cfg, vs) == Stopped(st, f) && !NoFault(cfg, vs)
  {
    StoppedStays(cfg, vs, m);
    RunClosedForm(cfg, vs);
  }

  lemma NoFaultPrefix(cfg: Config, vs: seq<seq<real>>, m: nat)
    requires m <= |vs| && NoFault(cfg, vs)
    ensures NoFault(cfg, vs[..m])
  {
    var ws := vs[..m];
    assert forall i :: 0 <= i < |ws| ==> ws[i] == vs[i];
  }

  /** One more sample after a fault-free prefix raises an exception exactly when `NoFault` fails. */
  lemma StepFaults(cfg: Config, vs: seq<seq<real>>)
    requires |vs| > 0 && NoFault(cfg, vs[..|vs| - 1])
    ensures Step(cfg, Completed(cfg, vs[..|vs| - 1]), vs[|vs| - 1]).Running? <==> NoFault(cfg, vs)
  {
    var n, i := cfg.numCategories, cfg.statsInterval;
    var ws, v := vs[..|vs| - 1], vs[|vs| - 1];
    var s := Completed(cfg, ws);
    assert |s.hist| == n;
    assert forall k :: 0 <= k < |ws| ==> vs[k] == ws[k];
    if |v| > 0 && ArgMax(v) < n && i != 0 {
      FiresAt(|vs|, i);
      assert (forall k :: 0 <= k < |vs| ==> |vs[k]| > 0 && ArgMax(vs[k]) < n);
    }
  }

  /** Without an exception, one more sample takes the closed form of the prefix to that of the whole. */
  lemma StepCompletes(cfg: Config, vs: seq<seq<real>>)
    requires |vs| > 0 && NoFault(cfg, vs)
    ensures Step(cfg, Completed(cfg, vs[..|vs| - 1]), vs[|vs| - 1]) == Running(Completed(cfg, vs))
  {
    NoFaultPrefix(cfg, vs, |vs| - 1);
    var n, i := cfg.numCategories, cfg.statsInterval;
    var ws, v := vs[..|vs| - 1], vs[|vs| - 1];
    var s := Completed(cfg, ws);
    var p := ArgMax(v);
    assert p < n == |s.hist| && i != 0 && s.total == |ws|;
    assert Predictions(vs) == s.out + [p];
    var hist := s.hist[p := s.hist[p] + 1];
    assert hist == Histogram(n, Predictions(vs)) by {
      HistogramAppend(n, Predictions(ws), p);
    }
    assert Fires(|vs|, i) ==> n <= |Categories| by {
      FiresAt(|vs|, i);
    }
    var tail := if Fires(|vs|, i) then [Report(Decimal(|vs|), hist, i), ReportConfidence(i)] else [];
    var events := s.events + [Write(p), CheckConfidence(Confidence(v), s.total)] + tail;
    assert Trace(cfg, vs) == events;
    assert Step(cfg, s, v) == Running(State(|vs|, hist, s.out + [p], events));
  }

  /**
   * A run over `vs` is still going when the input ends exactly when no
   * exception is raised on `vs`, and it is then in the `Completed` state:
   * one prediction per sample, written in order, histogrammed, and `Trace`.
   */
  lemma {:induction false} RunClosedForm(cfg: Config, vs: seq<seq<real>>)
    ensures Run(cfg, vs).Running? <==> NoFault(cfg, vs)
    ensures NoFault(cfg, vs) ==> Run(cfg, vs) == Running(Completed(cfg, vs))
    decreases |vs|
  {
    if vs == [] {
      HistogramEmpty(cfg.numCategories);
    } else {
      var ws := vs[..|vs| - 1];
      RunClosedForm(cfg, ws);
      if NoFault(cfg, vs) {
        NoFaultPrefix(cfg, vs, |vs| - 1);
      }
      if NoFault(cfg, ws) {
        StepFaults(cfg, vs);
        if NoFault(cfg, vs) {
          StepCompletes(cfg, vs);
        }
      }
    }
  }

  /**
   * One sample changes the loop's state by: one more in the count, one more
   * in the predicted slot and no other, one more output line, and its events.
   */
  lemma SampleEffect(cfg: Config, vs: seq<seq<real>>)
    requires |vs| > 0 && NoFault(cfg, vs)
    ensures var ws, p := vs[..|vs| - 1], ArgMax(vs[|vs| - 1]);
            var s, s' := Run(cfg, ws).st, Run(cfg, vs).st;
            p < |s.hist| &&
            s'.total == s.total + 1 &&
            s'.hist == s.hist[p := s.hist[p] + 1] &&
            s'.out == s.out + [p] &&
            s'.events == s.events + Block(cfg, vs)
  {
    var ws := vs[..|vs| - 1];
    NoFaultPrefix(cfg, vs, |vs| - 1);
    RunClosedForm(cfg, ws);
    RunClosedForm(cfg, vs);
    var p := ArgMax(vs[|vs| - 1]);
    assert Predictions(vs) == Predictions(ws) + [p];
    HistogramAppend(cfg.numCategories, Predictions(ws), p);
  }

  /** The histogram is cumulative: no slot ever decreases, report or not. */
  lemma HistogramNeverReset(cfg: Config, vs: seq<seq<real>>, m: nat)
    requires m <= |vs| && NoFault(cfg, vs)
    ensures Run(cfg, vs[..m]).Running? && Run(cfg, vs).Running?
    ensures |Run(cfg, vs[..m]).st.hist| == |Run(cfg, vs).st.hist| == cfg.numCategories
    ensures forall c :: 0 <= c < cfg.numCategories ==>
              Run(cfg, vs[..m]).st.hist[c] <= Run(cfg, vs).st.hist[c]
  {
    NoFaultPrefix(cfg, vs, m);
    RunClosedForm(cfg, vs[..m]);
    RunClosedForm(cfg, vs);
    assert Predictions(vs[..m]) == Predictions(vs)[..m];
    HistogramMonotone(cfg.numCategories, Predictions(vs), m);
  }

  // ---------------------------------------------------------------------
  // The event trace

  /** The events of `es` that `keep` selects, in order. */
  function Select(es: seq<Event>, keep: Event -> bool): (r: seq<Event>)
    ensures |r| <= |es|
    ensures forall k :: 0 <= k < |r| ==> keep(r[k])
  {
    if es == [] then []
    else (if keep(es[0]) then [es[0]] else []) + Select(es[1..], keep)
  }

  predicate IsWrite(e: Event) { e.Write? }
  predicate IsCheck(e: Event) { e.CheckConfidence? }
  predicate IsReport(e: Event) { e.Report? }

  lemma {:induction false} SelectAppend(a: seq<Event>, b: seq<Event>, keep: Event -> bool)
    ensures Select(a + b, keep) == Select(a, keep) + Select(b, keep)
    decreases |a|
  {
    if a == [] {
      assert a + b == b;
    } else {
      assert (a + b)[1..] == a[1..] + b;
      SelectAppend(a[1..], b, keep);
    }
  }

  lemma SelectPair(e1: Event, e2: Event, keep: Event -> bool)
    ensures Select([e1, e2], keep) ==
              (if keep(e1) then [e1] else []) + (if keep(e2) then [e2] else [])
  {
    assert [e1, e2][1..] == [e2];
    assert [e2][1..] == [];
  }

  /** What a sample's events contribute to each projection of the trace. */
  lemma BlockSelect(cfg: Config, vs: seq<seq<real>>, keep: Event -> bool)
    requires |vs| > 0 && AllNonEmpty(vs)
    ensures var v := vs[|vs| - 1];
            var w, c := Write(ArgMax(v)), CheckConfidence(Confidence(v), |vs| - 1);
            var r := Report(Decimal(|vs|), Histogram(cfg.numCategories, Predictions(vs)), cfg.statsInterval);
            var rc := ReportConfidence(cfg.statsInterval);
            Select(Block(cfg, vs), keep) ==
              Select([w, c], keep) + if Fires(|vs|, cfg.statsInterval) then Select([r, rc], keep) else []
  {
    var v := vs[|vs| - 1];
    var w, c := Write(ArgMax(v)), CheckConfidence(Confidence(v), |vs| - 1);
    var r := Report(Decimal(|vs|), Histogram(cfg.numCategories, Predictions(vs)), cfg.statsInterval);
    var rc := ReportConfidence(cfg.statsInterval);
    if Fires(|vs|, cfg.statsInterval) {
      SelectAppend([w, c], [r, rc], keep);
    } else {
      assert Block(cfg, vs) == [w, c];
    }
  }

  /** The lines written are the predictions, one per sample, in input order. */
  lemma {:induction false} WritesOfTrace(cfg: Config, vs: seq<seq<real>>)
    requires AllNonEmpty(vs)
    ensures var w := Select(Trace(cfg, vs), IsWrite);
            |w| == |vs| && forall k :: 0 <= k < |w| ==> w[k] == Write(ArgMax(vs[k]))
    decreases |vs|
  {
    if vs != [] {
      var ws, v := vs[..|vs| - 1], vs[|vs| - 1];
      WritesOfTrace(cfg, ws);
      SelectAppend(Trace(cfg, ws), Block(cfg, vs), IsWrite);
      assert Select(Block(cfg, vs), IsWrite) == [Write(ArgMax(v))] by {
        BlockSelect(cfg, vs, IsWrite);
        SelectPair(Write(ArgMax(v)), CheckConfidence(Confidence(v), |vs| - 1), IsWrite);
        SelectPair(Report(Decimal(|vs|), Histogram(cfg.numCategories, Predictions(vs)), cfg.statsInterval),
                   ReportConfidence(cfg.statsInterval), IsWrite);
      }
      assert forall k :: 0 <= k < |ws| ==> ws[k] == vs[k];
    }
  }

  /**
   * The tracker is called once per sample, in input order, with that
   * sample's winning probability times 100.
   */
  lemma {:induction false} ChecksOfTrace(cfg: Config, vs: seq<seq<real>>)
    requires AllNonEmpty(vs)
    ensures var c := Select(Trace(cfg, vs), IsCheck);
            |c| == |vs| &&
            forall k :: 0 <= k < |c| ==> c[k] == CheckConfidence(vs[k][ArgMax(vs[k])] * 100.0, k)
    decreases |vs|
  {
    if vs != [] {
      var ws, v := vs[..|vs| - 1], vs[|vs| - 1];
      ChecksOfTrace(cfg, ws);
      SelectAppend(Trace(cfg, ws), Block(cfg, vs), IsCheck);
      assert Select(Block(cfg, vs), IsCheck) == [CheckConfidence(Confidence(v), |vs| - 1)] by {
        BlockSelect(cfg, vs, IsCheck);
        SelectPair(Write(ArgMax(v)), CheckConfidence(Confidence(v), |vs| - 1), IsCheck);
        SelectPair(Report(Decimal(|vs|), Histogram(cfg.numCategories, Predictions(vs)), cfg.statsInterval),
                   ReportConfidence(cfg.statsInterval), IsCheck);
      }
      ConfidenceOfPrediction(v);
      assert forall k :: 0 <= k < |ws| ==> ws[k] == vs[k];
    }
  }

  /** A report of the statistics after the first `m` samples of `vs`. */
  function ReportAfter(cfg: Config, vs: seq<seq<real>>, m: nat): Event
    requires m <= |vs| && AllNonEmpty(vs)
  {
    Report(Decimal(m), Histogram(cfg.numCategories, Predictions(vs[..m])), cfg.statsInterval)
  }

  /** A sample adds a report to the trace exactly when the cadence fires. */
  lemma ReportsAppend(cfg: Config, vs: seq<seq<real>>)
    requires |vs| > 0 && AllNonEmpty(vs)
    ensures Select(Trace(cfg, vs), IsReport) ==
              Select(Trace(cfg, vs[..|vs| - 1]), IsReport) +
              if Fires(|vs|, cfg.statsInterval) then [ReportAfter(cfg, vs, |vs|)] else []
  {
    var ws, v := vs[..|vs| - 1], vs[|vs| - 1];
    SelectAppend(Trace(cfg, ws), Block(cfg, vs), IsReport);
    BlockSelect(cfg, vs, IsReport);
    SelectPair(Write(ArgMax(v)), CheckConfidence(Confidence(v), |vs| - 1), IsReport);
    SelectPair(Report(Decimal(|vs|), Histogram(cfg.numCategories, Predictions(vs)), cfg.statsInterval),
               ReportConfidence(cfg.statsInterval), IsReport);
    assert vs[..|vs|] == vs;
  }

  /** A report about the first `m` samples does not depend on later samples. */
  lemma ReportAfterPrefix(cfg: Config, vs: seq<seq<real>>, m: nat)
    requires m < |vs| && AllNonEmpty(vs)
    ensures ReportAfter(cfg, vs, m) == ReportAfter(cfg, vs[..|vs| - 1], m)
  {
    assert vs[..|vs| - 1][..m] == vs[..m];
  }

  /** The running total at which the k-th report (from 0) is due. */
  function ReportPoint(k: nat, a: nat): nat
  {
    (k + 1) * a
  }

  /**
   * There are `|vs| / |interval|` reports; the k-th (from 0) is labelled with
   * the running total `(k+1) * |interval|` in decimal, shows the histogram of all
   * predictions up to that sample, and sets the count statistic to the
   * interval, not to the running total.
   */
  lemma {:induction false} ReportsOfTrace(cfg: Config, vs: seq<seq<real>>)
    requires AllNonEmpty(vs) && cfg.statsInterval != 0
    ensures var r, a := Select(Trace(cfg, vs), IsReport), Abs(cfg.statsInterval);
            |r| == |vs| / a &&
            forall k :: 0 <= k < |r| ==>
              ReportPoint(k, a) <= |vs| && r[k] == ReportAfter(cfg, vs, ReportPoint(k, a))
    decreases |vs|
  {
    var a := Abs(cfg.statsInterval);
    if vs == [] {
      assert 0 / a == 0;
    } else {
      var ws := vs[..|vs| - 1];
      ReportsOfTrace(cfg, ws);
      ReportsAppend(cfg, vs);
      DivStep(|ws|, cfg.statsInterval);
      var r0 := Select(Trace(cfg, ws), IsReport);
      var r := Select(Trace(cfg, vs), IsReport);
      forall k | 0 <= k < |r|
        ensures ReportPoint(k, a) <= |vs| && r[k] == ReportAfter(cfg, vs, ReportPoint(k, a))
      {
        if k < |r0| {
          assert r[k] == r0[k];
          ReportAfterPrefix(cfg, vs, ReportPoint(k, a));
        } else {
          assert k == |r0| && Fires(|vs|, cfg.statsInterval);
          assert ReportPoint(k, a) == |vs|;
        }
      }
    }
  }

  /** Two events per sample, and two more per report: `2 * |vs| + 2 * (|vs| / |interval|)` in all. */
  lemma {:induction false} TraceLength(cfg: Config, vs: seq<seq<real>>)
    requires AllNonEmpty(vs)
    ensures cfg.statsInterval == 0 ==> |Trace(cfg, vs)| == 2 * |vs|
    ensures cfg.statsInterval != 0 ==>
              |Trace(cfg, vs)| == 2 * |vs| + 2 * (|vs| / Abs(cfg.statsInterval))
    decreases |vs|
  {
    if vs == [] {
      if cfg.statsInterval != 0 {
        assert 0 / Abs(cfg.statsInterval) == 0;
      }
    } else {
      TraceLength(cfg, vs[..|vs| - 1]);
      if cfg.statsInterval != 0 {
        DivStep(|vs| - 1, cfg.statsInterval);
      }
    }
  }

  /**
   * Order inside the trace: each written line is followed by its tracker
   * call; each report comes right after a tracker call and right before the
   * confidence report request; no confidence report is requested elsewhere.
   */
  lemma {:induction false} TraceOrder(cfg: Config, vs: seq<seq<real>>)
    requires AllNonEmpty(vs)
    ensures var t := Trace(cfg, vs);
            (t != [] ==> t[|t| - 1].CheckConfidence? || t[|t| - 1].ReportConfidence?) &&
            (forall j :: 0 <= j < |t| && t[j].Write? ==> j + 1 < |t| && t[j + 1].CheckConfidence?) &&
            (forall j :: 0 <= j < |t| && t[j].Report? ==>
               0 < j && t[j - 1].CheckConfidence? &&
               j + 1 < |t| && t[j + 1] == ReportConfidence(cfg.statsInterval)) &&
            (forall j :: 0 <= j < |t| && t[j].ReportConfidence? ==> 0 < j && t[j - 1].Report?)
    decreases |vs|
  {
    if vs != [] {
      TraceOrder(cfg, vs[..|vs| - 1]);
    }
  }

  // ---------------------------------------------------------------------
  // A scenario

  /** Three samples with interval 100: three predictions, three lines, no report. */
  lemma ThreeSamplesNoReport(v1: seq<real>, v2: seq<real>, v3: seq<real>)
    requires |v1| == |v2| == |v3| == 10
    ensures var cfg, vs := Config(10, 100), [v1, v2, v3];
            NoFault(cfg, vs) &&
            Run(cfg, vs).st.total == 3 &&
            |Run(cfg, vs).st.out| == 3 &&
            Select(Run(cfg, vs).st.events, IsReport) == []
  {
    var cfg, vs := Config(10, 100), [v1, v2, v3];
    assert NoFault(cfg, vs);
    RunClosedForm(cfg, vs);
    ReportsOfTrace(cfg, vs);
  }
}
