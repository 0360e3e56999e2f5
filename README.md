# MNIST batch inference loop, modelled in Dafny

This project models the inference driver of the MNIST batch-inference
sample, `infer_loop` in `mnist_inference/mnist_inference.py`. The loop pulls
samples from an input stream until the stream raises `EOFError`. For each
sample it asks the model for a probability vector and takes the argmax as
the prediction, with 100 × the winning probability as the confidence. It
writes the prediction as one decimal line to the predictions file, counts it
in a running total and a per-category histogram, and passes the confidence
to the confidence tracker. Whenever the running total is a multiple of
`stats_interval`, it reports the histogram to the telemetry system and asks
the tracker for its confidence report. At end of input it closes the file.

Layout:

- `prediction.dfy` (module `Prediction`): `ArgMax`, the first index of a
  largest entry, and `Confidence`.
- `output_format.dfy` (module `OutputFormat`): how a prediction is written
  (`Decimal`, `Line`, `Content`), a reader for the file (`ParseLines`), and
  the `OutputFile` class, whose contents are appended to and which is closed.
- `class_histogram.dfy` (module `ClassHistogram`): `Count` and `Histogram`
  over a sequence of predictions, and `Sum`.
- `cadence.dfy` (module `Cadence`): the reporting test `Fires` and the
  arithmetic of the cadence.
- `infer_loop_spec.dfy` (module `InferLoopSpec`): the loop as functions.
  `Step` is one pass of the loop body and `Run` processes a finite input.
  `NoFault`, `Predictions`, `Trace` and `Completed` give the closed form of a
  run that raises no exception.
- `infer_loop_properties.dfy` (module `InferLoopProperties`): lemmas about
  `Run` and `Trace`.
- `infer_loop.dfy` (module `InferLoop`): the imperative loop `InferLoop`. It
  keeps the running total in a variable and the histogram in an `array<int>`
  updated in place. It appends to an `OutputFile` and records an event trace.
  The loop body is the method `Sample`, proved to do what `Step` says.
  `InferLoop`'s postcondition ties it to `Run`, and through `RunClosedForm`
  to the closed form.

The loop's collaborators are abstracted:

- The input stream and the model together are a finite sequence of
  inference vectors, one per sample; the end of the sequence is the
  `EOFError`.
- The tracker calls `check_confidence` and `report_confidence`, and the
  telemetry reports, become `Event`s in the order the loop makes them.
- `model.get_num_categories()` becomes the parameter `numCategories`.

The exceptions raised by the loop's own indexing and arithmetic are
modelled as an `Aborted(fault)` ending, at the point where Python raises
them:

- `EmptyInference`: argmax of an empty vector (line 97). Nothing is written.
- `ClassOutOfRange`: the histogram index at line 107. The line has already
  been written (line 103) and the total incremented (line 106).
- `ZeroInterval`: the modulo at line 112. The tracker has already been
  called (line 109).
- `MissingCategoryLabel`: the label lookup at line 116, with more than ten
  categories, at the first report.

None of these is caught, so after a fault the file is left unclosed.
`NoFault` states exactly when none of them happens. The lemma
`RunClosedForm` proves the run then reaches end of input, in both
directions.

Points where the code's behaviour is easy to misread:

- The file is closed only in the `except EOFError` branch; there is no
  `finally` (lines 138-143). The model closes it only on `Finished`.
- Any integer interval is accepted. Zero raises `ZeroDivisionError` on the
  first sample. A negative interval makes reports fire at the multiples of
  its magnitude: Python's `%` takes the divisor's sign and Dafny's is never
  negative (`7 % -3` is `-2` in Python and `1` in Dafny), but for a non-zero
  divisor the two remainders are zero together. The count statistic then
  carries the negative value (line 122).
- The line is written and the total incremented before the `IndexError` at
  line 107 (lines 103-107).
- A vector need not be `num_categories` long. A shorter vector is accepted.
  A longer vector fails only when its argmax is past the last category.

## Model

| member | source | states |
|---|---|---|
| Prediction.ArgMax | mnist_inference/mnist_inference.py:97 | the prediction is an index of the vector whose entry is at least every entry, and every earlier entry is strictly smaller (ties go to the lowest index) |
| Prediction.ArgMaxCharacterized | mnist_inference/mnist_inference.py:97 | ArgMax(v) is k exactly when k is the first index of a maximal entry, so the argmax is uniquely determined |
| Prediction.Confidence | mnist_inference/mnist_inference.py:100 | the confidence is 100 × some entry of the vector and at least 100 × every entry, i.e. 100 × the largest probability |
| Prediction.ClearWinnerExample | mnist_inference/mnist_inference.py:97-100 | [0.05, 0.9, 0.05, 0, …, 0] gives prediction 1 and confidence 90 |
| Prediction.TieExample | mnist_inference/mnist_inference.py:97 | on a tie between indices 1 and 3 the prediction is 1 |
| OutputFormat.Decimal | mnist_inference/mnist_inference.py:103 | the rendering of a prediction is a non-empty string of decimal digits with no leading zero, "0" for zero |
| OutputFormat.DecimalRoundTrip | mnist_inference/mnist_inference.py:103 | reading the decimal rendering back yields the number |
| OutputFormat.DecimalInjective | mnist_inference/mnist_inference.py:103 | distinct predictions are written as distinct lines |
| OutputFormat.Line | mnist_inference/mnist_inference.py:103 | the line written for a prediction ends in one newline and has at least one character before it |
| OutputFormat.LineRoundTrip | mnist_inference/mnist_inference.py:103 | everything before the newline is a digit, and it reads back as the prediction |
| OutputFormat.Content | mnist_inference/mnist_inference.py:103 | the file text after a sequence of writes is their lines in order; ContentAppend and ContentRoundTrip state its properties |
| OutputFormat.ContentAppend | mnist_inference/mnist_inference.py:103 | writing one more prediction appends exactly its line to the file |
| OutputFormat.ContentRoundTrip | mnist_inference/mnist_inference.py:103 | the file content parses back, line by line, into exactly the written predictions in writing order |
| OutputFormat.OutputFile.Open | mnist_inference/mnist_inference.py:73 | opening for writing gives an empty, open file |
| OutputFormat.OutputFile.Write | mnist_inference/mnist_inference.py:103 | a write appends its text and leaves the file open |
| OutputFormat.OutputFile.Close | mnist_inference/mnist_inference.py:141 | closing keeps the content and marks the file closed |
| ClassHistogram.Count | mnist_inference/mnist_inference.py:107 | a category is counted at most once per prediction |
| ClassHistogram.Histogram | mnist_inference/mnist_inference.py:107 | the histogram has one slot per category, and each slot lies between 0 and the number of predictions |
| ClassHistogram.HistogramEmpty | mnist_inference/mnist_inference.py:79-81 | with no predictions the histogram is one zero per category |
| ClassHistogram.HistogramAppend | mnist_inference/mnist_inference.py:107 | a new prediction adds one to its own slot and changes no other slot |
| ClassHistogram.HistogramSum | mnist_inference/mnist_inference.py:106-107 | when every prediction is a valid category, the histogram sums to the number of predictions |
| ClassHistogram.CountMonotone | mnist_inference/mnist_inference.py:107 | a category's count over a prefix of the predictions is at most its count over all of them |
| ClassHistogram.HistogramMonotone | mnist_inference/mnist_inference.py:107 | every slot of a prefix's histogram is at most the same slot of the whole run's |
| Cadence.Fires | mnist_inference/mnist_inference.py:112 | the cadence test `total % interval == 0`, false for a zero interval, where Python raises instead (the fault is Step's); FiresIff states when it holds |
| Cadence.FiresIff | mnist_inference/mnist_inference.py:112 | the cadence fires exactly when the interval is non-zero and the total is a multiple of the interval's magnitude, whatever the interval's sign |
| Cadence.FiresAt | mnist_inference/mnist_inference.py:112 | the cadence fires only at totals of at least the interval's magnitude, and does fire at that total |
| Cadence.DivStep | mnist_inference/mnist_inference.py:112 | one more sample raises the number of completed intervals by one exactly when the cadence fires, and then the total is that number × the magnitude |
| InferLoopSpec.Initial | mnist_inference/mnist_inference.py:76-81 | the histogram before the first sample is the histogram of no predictions, one zero per category, and sums to 0; the clauses total 0, nothing written and no event are there as documentation |
| InferLoopSpec.Step | mnist_inference/mnist_inference.py:91-136 | one pass of the loop body: prediction, line, count, histogram slot, tracker call, then the report when the cadence fires, stopping at the first exception; StepEffect states its properties |
| InferLoopSpec.StepEffect | mnist_inference/mnist_inference.py:91-136 | a pass raises exactly when the vector is empty, its argmax is past the histogram, the interval is zero, or a report is due with more than ten categories; a non-empty vector is written and counted even if an exception follows; a pass that raises nothing keeps the histogram's size and adds one to its sum |
| InferLoopSpec.Run | mnist_inference/mnist_inference.py:89-143 | every sample processed was counted and written, at most one per sample; a run still going has processed every sample, and its histogram has num_categories slots summing to the number of samples |
| InferLoopSpec.NoFault | mnist_inference/mnist_inference.py:97-116 | the input on which none of the four exceptions is raised; RunClosedForm proves the run reaches end of input exactly then |
| InferLoopSpec.Block | mnist_inference/mnist_inference.py:103-136 | the events of one sample in the loop body's order: the write, the tracker call, and, when the cadence fires, the report and the confidence-report request; TraceOrder, WritesOfTrace, ChecksOfTrace and ReportsOfTrace state its properties |
| InferLoopSpec.Trace | mnist_inference/mnist_inference.py:89-136 | the events a run over the samples makes when it raises nothing, sample by sample; its bounds of two to four events per sample are documentation, and TraceLength gives the exact count |
| InferLoopProperties.StoppedStays | mnist_inference/mnist_inference.py:89-143 | after an uncaught exception no further sample is processed: the outcome is final |
| InferLoopProperties.FaultEndsRun | mnist_inference/mnist_inference.py:89-143 | an exception raised at some sample is the run's outcome, and the input is then not fault-free |
| InferLoopProperties.NoFaultPrefix | mnist_inference/mnist_inference.py:89-143 | an input that raises nothing has no prefix that raises anything |
| InferLoopProperties.StepFaults | mnist_inference/mnist_inference.py:91-136 | after a fault-free prefix, the next sample raises an exception exactly when the extended input violates NoFault |
| InferLoopProperties.StepCompletes | mnist_inference/mnist_inference.py:91-136 | a fault-free sample takes the closed-form state of the prefix to the closed-form state of the extended input |
| InferLoopProperties.RunClosedForm | mnist_inference/mnist_inference.py:71-143 | the run reaches end of input iff NoFault holds; it has then counted one prediction per sample, histogrammed them, written them in order, and produced Trace |
| InferLoopProperties.SampleEffect | mnist_inference/mnist_inference.py:103-136 | one sample adds 1 to the total and 1 to the predicted slot only, appends its line, and appends its events |
| InferLoopProperties.HistogramNeverReset | mnist_inference/mnist_inference.py:107-136 | the histogram is cumulative: no slot decreases from any earlier point of the run to any later one, reports included |
| InferLoopProperties.WritesOfTrace | mnist_inference/mnist_inference.py:103 | exactly one line is written per sample, and the k-th line is the k-th sample's argmax |
| InferLoopProperties.ChecksOfTrace | mnist_inference/mnist_inference.py:100-109 | the tracker is called once per sample, in order, with that sample's winning probability × 100 |
| InferLoopProperties.ReportsAppend | mnist_inference/mnist_inference.py:112-136 | a sample adds a report exactly when its total is a multiple of the interval |
| InferLoopProperties.ReportsOfTrace | mnist_inference/mnist_inference.py:112-136 | there are total / abs(interval) reports; the k-th is labelled with the decimal of the total (k+1) × abs(interval), carries the histogram of all predictions so far, and sets the count statistic to the interval rather than the total |
| InferLoopProperties.TraceLength | mnist_inference/mnist_inference.py:103-136 | a fault-free run makes two calls per sample and two more per report: 2n + 2(n / abs(interval)) events for n samples, 2n when no report can fire |
| InferLoopProperties.TraceOrder | mnist_inference/mnist_inference.py:103-136 | each write is followed by its tracker call; each report comes right after a tracker call and right before the confidence-report request; such a request comes only right after a report |
| InferLoopProperties.ThreeSamplesNoReport | mnist_inference/mnist_inference.py:89-143 | three 10-entry samples with 10 categories and interval 100 raise nothing and give total 3, three lines and no report |
| InferLoop.ZeroHistogram | mnist_inference/mnist_inference.py:79-81 | a fresh array of num_categories zeros |
| InferLoop.Sample | mnist_inference/mnist_inference.py:91-136 | one pass of the loop body on the histogram array and the open file: the total, histogram, file content and events move exactly as Step says, and the fault returned is Step's; the file stays open |
| InferLoop.InferLoop | mnist_inference/mnist_inference.py:71-143 | the file content, the closed flag, the event trace and the ending are those of Run; the loop finishes iff NoFault; it then writes Content(Predictions(inputs)) and produces Trace followed by Close, and otherwise leaves the file open |
| InferLoop.ThreeClearWinners | mnist_inference/mnist_inference.py:89-143 | three clear-winner samples with interval 100: no fault, file content "1\n1\n1\n", no report; the method ThreeSamplesThenEndOfInput beside it runs InferLoop on those samples and asserts from its contract that it ends Finished with the file closed and holding "1\n1\n1\n" |

## Left out

- `add_parameters` and `main` (lines 34-69, 146-190) are left out. They do
  argument parsing, check that the model directory exists, call `exit`, and
  assert the Python version; this is process plumbing.
- The model, the input stream and the confidence tracker come from files
  that are not part of this model. The model and the input stream are the
  sequence of inference vectors. The tracker is recorded only as
  `CheckConfidence` and `ReportConfidence` events, whose threshold, window
  and low-confidence capture are not visible in this file.
- The telemetry library (`mlops`, `Table`, `BarGraph`, lines 27-32, 85-86,
  122-132) is abstracted. One `Report` event stands for the
  predictions-count stat, the table row and the bar graph together. It
  carries a copy of the histogram at report time; whether the library keeps
  the list object or copies it is not modelled.
- `CheckConfidence` carries the sample's position in the input instead of
  the sample itself, which is opaque to the loop. The label returned with
  each sample is unused by the loop and is not modelled.
- Failures of the collaborators are not modelled: exceptions other than
  `EOFError` raised by `get_next_input`, `infer`, the tracker or the
  telemetry calls. Only the exceptions the loop body raises itself are
  modelled, as `Fault`s.
- An `EOFError` raised by anything other than `get_next_input` is not
  modelled. The `except` at line 138 catches it from anywhere in lines
  91-136, so one raised by `model.infer` (94), `check_confidence` (109), the
  telemetry calls (122-132) or `report_confidence` (136) ends the loop
  normally in the middle of a sample: the lines written so far stay, the
  file is closed, and the rest of that sample's work is skipped. In the
  model only the end of the input sequence ends the loop.
- I/O errors are not modelled: the file system is not part of this model, so
  `open` (line 73), `output.write` (line 103) and `output.close` (line 141)
  always succeed.
- An input that never ends is not modelled: the model covers finite inputs
  that end with `EOFError`.
- `numCategories` is one fixed value. The code calls `get_num_categories()`
  again at each report (line 115), and the model assumes it answers the same.
- Floating point and numpy are not modelled: probabilities are Dafny
  `real`s, so there is no rounding, no NaN (numpy's argmax returns the first
  NaN) and no check that the vector is a distribution.
- Buffering of the file is not modelled: the content is what has been
  written, even after a fault leaves the file unclosed.
- The `print` diagnostics (lines 116 and 140) are not modelled. The only
  effect of line 116 that is modelled is the `IndexError` it raises with
  more than ten categories.
- The unused variable `low_confidence_predictions` (line 77) is not
  modelled.
