# RUOK voice check-in: a Dafny model of the scoring core

RUOK is a browser voice check-in app. The user reads a prompt aloud for
about 20 seconds. The recorder reduces the recording to four acoustic
features: loudness (RMS), zero-crossing rate (ZCR), pause ratio and speech
rate. It infers a stress and a fatigue rating from those features. The
server stores the check-in, updates a running-average baseline, and scores
four risk categories: lethargy, anxiety, respiratory strain and vocal
strain. Each category's score goes through a logistic curve to give an
integer percent. A flag is raised for every category above 40%.

The model has seven modules:

- `Wrappers` (`wrappers.dfy`) holds the `Option` and `Result` types. They
  carry the optional frame of `OnFrame`, the error of `Stop`, the optional
  baseline of `InferMetrics` and the outcome of `ReadNumber`.
- `Numeric` (`numeric.dfy`) holds the real-number helpers shared by the
  others. It covers JavaScript's `Math.round`, sums, means, the maximum and
  minimum of a list, and counts of samples below or above a threshold.
- `Decimal` (`decimal.dfy`) writes a natural number in decimal and reads
  it back. Flag messages use it.
- `BaselineStore` (`baseline_store.dfy`) models the check-in database of
  `lib/db.ts`. It is a class whose `AddCheckIn` appends a record and
  updates the running averages in place. The invariant `Valid` says that
  the baseline's averages are the true means of the stored records, and
  `AddCheckIn` keeps it.
- `RiskScorer` (`risk_scorer.dfy`) models the scoring engine of
  `app/api/checkin/route.ts`. It has the drift, logistic and percent
  primitives and the four raw scores. `ScoreFlags` is the four guarded
  pushes, proved equal to the reference filter `Emitted`. `Reports` is the
  route's promise about its flag list: every flag carries its category's
  percent and that percent is above 40; flags follow category order; every
  category above 40 is present. `Emitted` meets `Reports`, and any list
  that meets it equals `Emitted`. `CheckIn` is the route's store-then-score
  sequence.
- `AudioAnalyzer` (`audio_analyzer.dfy`) models the feature extractor of
  `lib/audioUtils.ts`. The class `Analyzer` holds the two frame histories
  and the recording flag. `ProcessFeatures` keeps the source's burst loop
  and is proved against the reference reduction `ExtractFeatures`. Lemmas
  bound the pause ratio, the means and the speech rate.
- `MetricInference` (`metric_inference.dfy`) models `inferMetrics` of
  `components/VoiceRecorder.tsx`. It takes z-scores against a personal or
  fallback baseline, weights them into stress and a mirrored fatigue
  score, then clips and rescales each to 0-10. Stress and fatigue always
  add up to 10 or 11.

`Math.exp` is not computed. Every scoring member takes it as a parameter
`exp`, constrained by `ExpLike`. `ExpLike` asks for exactly the facts the
proofs use: positive, monotone, `exp(0) = 1` and `exp(x) >= 1 + x`. The
identifier, the timestamp and the frames are also parameters. The real
code gets them from a random number generator, the clock and the audio
callback.

Numbers are mathematical reals, not IEEE doubles. The divisions in
`addCheckIn` and `processFeatures` are by the record count and the frame
count. The code's own control flow keeps both positive.

Behaviour worth knowing, where the model follows the code:

- `StressNineAloneIsNotAnxious`: stress 9 alone does not raise an
  anxiety flag. The comment at `app/api/checkin/route.ts:66` claims that
  stress 9 alone already gives more than 50%. The code gives a raw score
  of 1.6, below the curve's midpoint of 2, so the percent is 40. 40 does
  not pass the `> 40` test. The lemma holds for any exponential whose
  value at 0.4 is within 1% of `e^0.4` = 1.4918..., that is between
  1.4768 and 1.5068.
- `CheckIn`: the route calls `addCheckIn` before `getBaseline`, so a
  check-in is scored against a baseline that already includes it. This
  holds even for the first check-in, whose baseline is then that
  check-in's own values.
- `Store.AddCheckIn`: `addCheckIn` divides by the number of stored
  records, not by `windowSize + 1`. The two agree while `Valid` holds.
- `ToPercent`: the code rounds first and then caps at 100. The
  probability is below 1, so the cap never changes the result.

## Model

| member | source | states |
|---|---|---|
| `Numeric.Round` | app/api/checkin/route.ts:48 | `Math.round` returns the integer within half a unit of its argument (ties go up) |
| `Numeric.RoundMonotone` | app/api/checkin/route.ts:48 | rounding keeps the order of two values |
| `Numeric.Max` | lib/audioUtils.ts:82 | `Math.max(...xs)` is an element of `xs` and bounds every element |
| `Numeric.CountBelow` | lib/audioUtils.ts:84 | the filtered count is at most the length |
| `Numeric.CountsDisjoint` | lib/audioUtils.ts:84 | frames below and frames above a threshold together are at most all frames |
| `Numeric.SumAppend` | lib/audioUtils.ts:79 | the left fold adds each sample once: appending a sample adds it to the sum |
| `Numeric.MeanBetween` | lib/audioUtils.ts:79-88 | a mean lies between the smallest and the largest sample |
| `Numeric.MeanAppend` | lib/db.ts:58-60 | `(mean * n + x) / (n + 1)` is the mean after appending `x` |
| `Decimal.Digits` | app/api/checkin/route.ts:54 | `${risk}` prints at least one decimal digit and no leading zero |
| `Decimal.NumberRoundTrip` | app/api/checkin/route.ts:54 | a percent written in decimal, followed by text that does not start with a digit, reads back as the same number |
| `BaselineStore.RunningAverage` | lib/db.ts:58-64 | the update moves the average one `n`-th of the way toward the new value, so it ends between the old average and the new value |
| `BaselineStore.RunningAverageIsMean` | lib/db.ts:58-64 | the incremental update gives the mean of all values when the old average was the mean of the earlier ones |
| `BaselineStore.AppendKeepsMeans` | lib/db.ts:55-70 | appending a record keeps both averages equal to the means over the records |
| `BaselineStore.Store.constructor` | lib/db.ts:42 | an unwritten database has no check-ins and the default baseline (0.5, 5, 0), and is valid |
| `BaselineStore.Store.GetCheckIns` | lib/db.ts:52 | returns the stored records and changes nothing |
| `BaselineStore.Store.GetBaseline` | lib/db.ts:74 | returns the stored baseline and changes nothing |
| `BaselineStore.Store.AddCheckIn` | lib/db.ts:53-73 | appends the record; the window becomes the record count; each average is the running update; the first record's values become the baseline; `Valid` is preserved |
| `RiskScorer.Drift` | app/api/checkin/route.ts:29-32 | 0 without a baseline or at the baseline; otherwise drift times 10% of the base is the deviation |
| `RiskScorer.ToProb` | app/api/checkin/route.ts:38-40 | the logistic value is strictly between 0 and 1 |
| `RiskScorer.ToPercent` | app/api/checkin/route.ts:48 | the percent is an integer from 0 to 100 |
| `RiskScorer.Excess` | app/api/checkin/route.ts:62-64 | a trigger term is non-negative and positive exactly when its feature is above the threshold |
| `RiskScorer.Shortfall` | app/api/checkin/route.ts:46 | a trigger term is non-negative and positive exactly when its feature is below the threshold |
| `RiskScorer.ExcessMonotone` | app/api/checkin/route.ts:62 | a trigger term never shrinks as its feature grows |
| `RiskScorer.EnergyFactor` | app/api/checkin/route.ts:34-44 | the energy term is positive exactly when the voice is quieter than a non-zero baseline, and then counts one unit per 10% below it |
| `RiskScorer.LethargyScore` | app/api/checkin/route.ts:43-47 | the raw lethargy score is non-negative and zero exactly when speech rate is at least 3.5 and energy is not below a non-zero baseline |
| `RiskScorer.AnxietyScore` | app/api/checkin/route.ts:60-67 | the raw anxiety score is non-negative and zero exactly when stress is at most 5, speech rate at most 4.5 and ZCR at most 0.1 |
| `RiskScorer.RespiratoryScore` | app/api/checkin/route.ts:80-83 | the raw respiratory score is non-negative and zero exactly when pause ratio is at most 0.3 and speech rate at least 3 |
| `RiskScorer.VocalScore` | app/api/checkin/route.ts:96-99 | the raw vocal score is non-negative and zero exactly when ZCR is at most 0.15 and RMS at most 0.2 |
| `RiskScorer.Steepness` | app/api/checkin/route.ts:43-101 | every category's curve rises (steepness 1.2, 1, 1.2, 2) |
| `RiskScorer.Shift` | app/api/checkin/route.ts:43-101 | every category's midpoint is positive (1.5, 2, 1, 0.5) |
| `RiskScorer.RawScore` | app/api/checkin/route.ts:43-101 | the raw score each category's block computes is never negative |
| `RiskScorer.Risk` | app/api/checkin/route.ts:43-101 | each category's percent is at most 100 |
| `RiskScorer.InEmissionOrder` | app/api/checkin/route.ts:51-109 | every category has a place in the push order |
| `RiskScorer.Suffix` | app/api/checkin/route.ts:54 | the text after the number starts with `%` |
| `RiskScorer.Message` | app/api/checkin/route.ts:54 | every flag message starts with `Probability: ` and the number after it reads back as the percent it was made from |
| `RiskScorer.TypeName` | app/api/checkin/route.ts:53 | a flag's `type` is a non-empty upper-case identifier with words joined by underscores |
| `RiskScorer.TypeNameInjective` | app/api/checkin/route.ts:51-109 | the four `type` strings are distinct, so a flag's type names its category |
| `RiskScorer.Pushed` | app/api/checkin/route.ts:51-57 | one guarded push adds at most one flag, exactly when the percent is above 40, and that flag carries its category's percent |
| `RiskScorer.Emitted` | app/api/checkin/route.ts:51-109 | the reference filter yields no more flags than listed categories |
| `RiskScorer.EmittedSound` | app/api/checkin/route.ts:51-57 | every emitted flag carries its category's percent, which is above 40 |
| `RiskScorer.EmittedComplete` | app/api/checkin/route.ts:51-109 | every category above 40 is emitted |
| `RiskScorer.EmittedSorted` | app/api/checkin/route.ts:51-109 | emitted flags keep the category order |
| `RiskScorer.EmittedReports` | app/api/checkin/route.ts:24-109 | the filter meets the route's promise and yields at most four flags |
| `RiskScorer.ReportsDetermined` | app/api/checkin/route.ts:24-109 | restricted to a sorted category list, any list meeting the promise is the filter |
| `RiskScorer.ReportsDeterminedLastShown` | app/api/checkin/route.ts:103-109 | when the last category is shown, its flag is the last and the rest is the filter of the others |
| `RiskScorer.ReportsUnique` | app/api/checkin/route.ts:24-109 | the promise determines the flag list: it is the filter in category order |
| `RiskScorer.ScoreFlags` | app/api/checkin/route.ts:24-109 | the four guarded pushes give exactly the filter, meet the promise, yield at most four flags, and every score is in (40, 100] |
| `RiskScorer.CheckIn` | app/api/checkin/route.ts:13-24 | the record is stored, the baseline updated, the flags scored against the updated baseline, and the baseline stays the true mean |
| `RiskScorer.ToProbMonotone` | app/api/checkin/route.ts:38-40 | with non-negative steepness the curve never decreases |
| `RiskScorer.ToPercentMonotone` | app/api/checkin/route.ts:48 | a higher raw score never gives a lower percent |
| `RiskScorer.ToPercentAtLeastHalf` | app/api/checkin/route.ts:37 | at or past the midpoint the percent is at least 50 |
| `RiskScorer.ToPercentAtMostForty` | app/api/checkin/route.ts:51 | half a steepness unit or more below the midpoint the percent is at most 40 |
| `RiskScorer.FlaggedAtShift` | app/api/checkin/route.ts:37-51 | a category whose raw score reaches its midpoint is flagged |
| `RiskScorer.NotFlaggedAtZero` | app/api/checkin/route.ts:43-101 | a category whose raw score is 0 is not flagged |
| `RiskScorer.AnxietyMonotoneInStress` | app/api/checkin/route.ts:62 | more reported stress never lowers the anxiety percent, and stress up to 5 adds nothing |
| `RiskScorer.NothingShown` | app/api/checkin/route.ts:51-109 | no category above 40 means no flag |
| `RiskScorer.CalmCheckInRaisesNoFlags` | app/api/checkin/route.ts:43-109 | a check-in inside every trigger threshold and not quieter than its baseline raises no flag |
| `RiskScorer.PercentAtOnePointSix` | app/api/checkin/route.ts:68 | an anxiety raw score of 1.6 gives 40% for any exponential within 1% of `e^0.4` |
| `RiskScorer.StressNineAloneIsNotAnxious` | app/api/checkin/route.ts:62-71 | stress 9 with slow, quiet speech flags lethargy and respiratory strain but gives anxiety exactly 40%, so no anxiety flag |
| `AudioAnalyzer.SilenceThreshold` | lib/audioUtils.ts:82-83 | the silence threshold is the larger of 0.02 and 10% of the loudest frame |
| `AudioAnalyzer.Step` | lib/audioUtils.ts:94-99 | one loop step counts a burst only when one starts, and a frame exactly at the threshold changes nothing |
| `AudioAnalyzer.Scan` | lib/audioUtils.ts:91-100 | the burst loop over the frames: never more bursts than frames, and a running burst has been counted |
| `AudioAnalyzer.ScanCounts` | lib/audioUtils.ts:91-100 | bursts are at most the loud frames, and at most the silent frames plus a running burst; a running burst is counted; there is a burst exactly when some frame is loud |
| `AudioAnalyzer.BurstsAtMostHalf` | lib/audioUtils.ts:91-100 | twice the burst count is at most the frame count plus one |
| `AudioAnalyzer.ExtractFeatures` | lib/audioUtils.ts:73-118 | an empty recording gives all-zero features; otherwise rms and zcr are the means, the pause ratio is in [0, 1], the duration is positive and the speech rate non-negative |
| `AudioAnalyzer.Summarize` | lib/audioUtils.ts:85-103 | pause ratio is the share of silent frames in [0, 1]; duration is frames times 512/44100 seconds; speech rate times duration is the burst count, and the rate is positive exactly when there is a burst |
| `AudioAnalyzer.ExtractedMeans` | lib/audioUtils.ts:79-88 | mean energy and mean ZCR lie between the smallest and largest frame values |
| `AudioAnalyzer.ExtractedSpeechRate` | lib/audioUtils.ts:90-103 | speech rate is positive exactly when some frame is above the silence threshold, and bursts are at most about half the frames |
| `AudioAnalyzer.ShareOfFrames` | lib/audioUtils.ts:85 | a count of at most `n` frames divided by `n` is in [0, 1] and gives the count back |
| `AudioAnalyzer.Duration` | lib/audioUtils.ts:102 | the duration is the frame count times 512/44100 seconds, positive exactly when there is a frame |
| `AudioAnalyzer.SpeechRate` | lib/audioUtils.ts:103 | the rate is non-negative, times a positive duration gives the burst count back, and is positive exactly when there is a burst in some time |
| `AudioAnalyzer.LoudFrameIsNotPause` | lib/audioUtils.ts:82-85 | when the loudest frame reaches 0.02, the pause ratio is below 1 |
| `AudioAnalyzer.NotAllBelow` | lib/audioUtils.ts:84 | one frame at or above the threshold keeps the silent count below the length |
| `AudioAnalyzer.Analyzer.constructor` | lib/audioUtils.ts:21-23 | a new analyzer has empty histories and is not recording |
| `AudioAnalyzer.Analyzer.Start` | lib/audioUtils.ts:25-52 | ignored while recording; otherwise clears both histories and starts recording |
| `AudioAnalyzer.Analyzer.OnFrame` | lib/audioUtils.ts:41-47 | a frame with features is appended to both histories while recording, otherwise dropped; equal history lengths are preserved |
| `AudioAnalyzer.Analyzer.Stop` | lib/audioUtils.ts:54-71 | fails with "not recording" when idle; otherwise ends recording and returns the reduced features of the unchanged histories |
| `AudioAnalyzer.Analyzer.ProcessFeatures` | lib/audioUtils.ts:73-118 | the means, counts and burst loop compute exactly the reference reduction of the histories; an empty recording gives all-zero features |
| `MetricInference.Chosen` | components/VoiceRecorder.tsx:85-90 | without a baseline the fallback is used, and every spread in it is non-zero |
| `MetricInference.ZScore` | components/VoiceRecorder.tsx:93-96 | the z-score times the spread is the deviation from the mean; with a positive spread it is positive exactly above the mean |
| `MetricInference.ZScoreMonotone` | components/VoiceRecorder.tsx:93-96 | with a positive spread the z-score grows with the value |
| `MetricInference.Clip` | components/VoiceRecorder.tsx:107 | the clipped value is in [-3, 3], equals the value inside it and the nearer bound outside it |
| `MetricInference.Scaled` | components/VoiceRecorder.tsx:108 | the rescaled value is in [0, 10] |
| `MetricInference.Normalize` | components/VoiceRecorder.tsx:106-109 | the rating is an integer from 0 to 10 within half a unit of the rescaled value; 0 at or below -3 and 10 at or above 3 |
| `MetricInference.NormalizeMonotone` | components/VoiceRecorder.tsx:106-109 | a higher score never gets a lower rating |
| `MetricInference.ScaledMirror` | components/VoiceRecorder.tsx:106-109 | a value and its negation rescale to `y` and `10 - y` |
| `MetricInference.NormalizeMirror` | components/VoiceRecorder.tsx:106-112 | a value and its negation get ratings adding up to 10, or 11 exactly at a half-way point |
| `MetricInference.StressRaw` | components/VoiceRecorder.tsx:100 | a recording exactly at the baseline means has stress score 0 |
| `MetricInference.FatigueRaw` | components/VoiceRecorder.tsx:103 | the fatigue score is the negated stress score |
| `MetricInference.InferMetrics` | components/VoiceRecorder.tsx:77-115 | both ratings are from 0 to 10 and add up to 10 or 11 |
| `MetricInference.AtMeansIsMidScale` | components/VoiceRecorder.tsx:93-112 | a recording exactly at the baseline means is rated 5 and 5 |
| `MetricInference.StressMonotone` | components/VoiceRecorder.tsx:85-112 | against the fallback or any baseline with positive spreads, faster, louder, higher-ZCR speech with fewer pauses never lowers stress nor raises fatigue |

## Left out

- Exact `Math.exp`: every scoring member takes the exponential as a parameter. `ExpLike` gives its shape but not its values. Lemmas about specific percents, such as `StressNineAloneIsNotAnxious`, assume a bound on `exp(0.4)`.
- IEEE double arithmetic: the model computes over exact reals, so rounding of intermediate results and `NaN`/`Infinity` are not modelled.
- `MetricInference.InferMetrics`: a caller-supplied baseline with a zero spread is excluded by `Usable`. The code would divide by zero and could produce `NaN`. The only call in the app passes no baseline, so the fallback is always used.
- `MetricInference.Normalize`: the `min` and `max` parameters are fixed at the defaults −3 and 3. No call passes other values.
- The JSON file behind the store: `readDb` and `writeDb` at `lib/db.ts` (the file path, parsing and caching) are not modelled. The fallback to the default baseline when the file cannot be read is modelled as the `Store` constructor.
- `BaselineStore.Store.GetCheckIns`: it returns a value. The original returns the cached array itself, which a caller could then mutate.
- Request parsing, the random id (`genId`), the ISO timestamp and the `NextResponse` wrapping of `POST`. The id and timestamp are parameters of `CheckIn`. The error path that answers 500 when the body cannot be parsed or stored is not modelled.
- Flag message storage: the flag's `msg` text is computed from its category and score (`Flag.Msg`) instead of being stored in the flag.
- Audio capture in `lib/audioUtils.ts`: microphone access, the audio context, the feature-extraction library and its per-frame computation of RMS, ZCR and spectral centroid. Frames arrive as values through `OnFrame`. A `start` that fails because microphone access is refused is not modelled.
- The `roughness` value in `processFeatures`: it is computed but never returned, so it is not modelled.
- The recorder component's UI state machine, countdown timer, prompt choice and the hand-off of inferred metrics to the route: these are UI code, not modelled.
- The dashboard, the history route and the page layout: they only display data, so they are outside the core.
