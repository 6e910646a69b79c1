/** The stress and fatigue estimate of `components/VoiceRecorder.tsx`
    (`inferMetrics`): each feature of a recording becomes a z-score against
    a personal baseline (or a fixed fallback), the z-scores are weighted into
    a stress score and its mirror image, a fatigue score, and both are clipped
    to [-3, 3] and rescaled to integers from 0 to 10. */
module MetricInference {
  import opened Numeric
  import opened Wrappers
  import opened AudioAnalyzer

  /** Mean and standard deviation of each feature over a speaker's normal
      recordings. */
  datatype PersonalBaseline = PersonalBaseline(
    speechRateMean: real, speechRateStd: real,
    rmsMean: real, rmsStd: real,
    zcrMean: real, zcrStd: real,
    pauseMean: real, pauseStd: real)

  /** The baseline used when none is given. */
  const Fallback := PersonalBaseline(4.0, 0.5, 0.2, 0.05, 0.1, 0.05, 0.2, 0.05)

  /** The inferred self-report, each on the 0-10 scale. */
  datatype Metrics = Metrics(stress: nat, fatigue: nat)

  /** A baseline every z-score can be taken against. */
  predicate Usable(b: PersonalBaseline) {
    b.speechRateStd != 0.0 && b.rmsStd != 0.0 && b.zcrStd != 0.0 && b.pauseStd != 0.0
  }

  /** `baseline || fallback`. */
  function Chosen(baseline: Option<PersonalBaseline>): (b: PersonalBaseline)
    ensures baseline.None? ==> b == Fallback && Usable(b)
    ensures baseline.Some? ==> b == baseline.value
  {
    if baseline.Some? then baseline.value else Fallback
  }

  /** How many standard deviations `x` lies from `mean`. */
  function ZScore(x: real, mean: real, std: real): (z: real)
    requires std != 0.0
    ensures z * std == x - mean
    ensures x == mean ==> z == 0.0
    ensures std > 0.0 ==> (z > 0.0 <==> x > mean)
  {
    (x - mean) / std
  }

  /** The weighted stress score: fast, loud, high-ZCR speech with few pauses
      is stressed; a recording exactly at the baseline means scores 0. */
  function StressRaw(f: AudioFeatures, b: PersonalBaseline): (r: real)
    requires Usable(b)
    ensures (f.speechRate == b.speechRateMean && f.rms == b.rmsMean
             && f.zcr == b.zcrMean && f.pauseRatio == b.pauseMean) ==> r == 0.0
  {
    0.4 * ZScore(f.speechRate, b.speechRateMean, b.speechRateStd)
      + 0.3 * ZScore(f.rms, b.rmsMean, b.rmsStd)
      + 0.2 * ZScore(f.zcr, b.zcrMean, b.zcrStd)
      - 0.1 * ZScore(f.pauseRatio, b.pauseMean, b.pauseStd)
  }

  /** The weighted fatigue score, the same z-scores with every weight
      negated: fatigue is stress with the sign flipped. */
  function FatigueRaw(f: AudioFeatures, b: PersonalBaseline): (r: real)
    requires Usable(b)
    ensures r == -StressRaw(f, b)
  {
    -0.4 * ZScore(f.speechRate, b.speechRateMean, b.speechRateStd)
      - 0.3 * ZScore(f.rms, b.rmsMean, b.rmsStd)
      - 0.2 * ZScore(f.zcr, b.zcrMean, b.zcrStd)
      + 0.1 * ZScore(f.pauseRatio, b.pauseMean, b.pauseStd)
  }

  /** The lower and upper clipping bounds, the defaults of `normalize`. */
  const ClipMin: real := -3.0
  const ClipMax: real := 3.0

  /** `Math.max(min, Math.min(max, value))`. */
  function Clip(v: real): (c: real)
    ensures ClipMin <= c <= ClipMax
    ensures ClipMin <= v <= ClipMax ==> c == v
    ensures v < ClipMin ==> c == ClipMin
    ensures v > ClipMax ==> c == ClipMax
  {
    MaxOf(ClipMin, MinOf(ClipMax, v))
  }

  /** The clipped value placed on a 0-10 scale, before rounding. */
  function Scaled(v: real): (y: real)
    ensures 0.0 <= y <= 10.0
  {
    (Clip(v) - ClipMin) / (ClipMax - ClipMin) * 10.0
  }

  /** `normalize`: clip to [-3, 3], rescale to [0, 10] and round. */
  function Normalize(v: real): (n: nat)
    ensures n <= 10
    ensures n as real - 0.5 <= Scaled(v) < n as real + 0.5
    ensures v <= ClipMin ==> n == 0
    ensures v >= ClipMax ==> n == 10
  {
    Round(Scaled(v))
  }

  /** A higher score never normalizes lower. */
  lemma NormalizeMonotone(v: real, w: real)
    requires v <= w
    ensures Normalize(v) <= Normalize(w)
  {
    assert Clip(v) <= Clip(w);
    assert Scaled(v) <= Scaled(w);
    RoundMonotone(Scaled(v), Scaled(w));
  }

  /** The scale is symmetric: a value and its negation land at `y` and
      `10 - y`. */
  lemma ScaledMirror(v: real)
    ensures Scaled(-v) == 10.0 - Scaled(v)
  {
    assert Clip(-v) == -Clip(v);
  }

  /** A value and its negation normalize to numbers adding up to 10, or to
      11 when the scaled value sits exactly halfway between two integers
      (both halves round up). */
  lemma NormalizeMirror(v: real)
    ensures Normalize(v) + Normalize(-v) == 10
         || (Normalize(v) + Normalize(-v) == 11 && Scaled(v) == Normalize(v) as real - 0.5)
  {
    ScaledMirror(v);
  }

  /** `inferMetrics`: z-scores against the given baseline or the fallback,
      the two weighted scores, each normalized. */
  function InferMetrics(f: AudioFeatures, baseline: Option<PersonalBaseline>): (m: Metrics)
    requires baseline.Some? ==> Usable(baseline.value)
    ensures m.stress <= 10 && m.fatigue <= 10
    ensures 10 <= m.stress + m.fatigue <= 11
  {
    var b := Chosen(baseline);
    var stressRaw := StressRaw(f, b);
    var fatigueRaw := FatigueRaw(f, b);
    NormalizeMirror(stressRaw);
    Metrics(Normalize(stressRaw), Normalize(fatigueRaw))
  }

  /** A recording exactly at the baseline means is rated 5 for both. */
  lemma AtMeansIsMidScale(f: AudioFeatures, baseline: Option<PersonalBaseline>)
    requires baseline.Some? ==> Usable(baseline.value)
    requires var b := Chosen(baseline);
             f.speechRate == b.speechRateMean && f.rms == b.rmsMean
             && f.zcr == b.zcrMean && f.pauseRatio == b.pauseMean
    ensures InferMetrics(f, baseline) == Metrics(5, 5)
  {
    var b := Chosen(baseline);
    assert StressRaw(f, b) == 0.0;
    assert Scaled(0.0) == 5.0;
  }

  /** Every spread is positive; the fallback's are. */
  predicate Spread(b: PersonalBaseline) {
    b.speechRateStd > 0.0 && b.rmsStd > 0.0 && b.zcrStd > 0.0 && b.pauseStd > 0.0
  }

  /** Against the fallback, or any baseline with positive spreads, faster,
      louder, higher-ZCR speech with fewer pauses never lowers the stress
      rating nor raises the fatigue rating. */
  lemma StressMonotone(f: AudioFeatures, g: AudioFeatures, baseline: Option<PersonalBaseline>)
    requires baseline.Some? ==> Spread(baseline.value)
    requires f.speechRate <= g.speechRate && f.rms <= g.rms && f.zcr <= g.zcr
    requires f.pauseRatio >= g.pauseRatio
    ensures InferMetrics(f, baseline).stress <= InferMetrics(g, baseline).stress
    ensures InferMetrics(f, baseline).fatigue >= InferMetrics(g, baseline).fatigue
  {
    var b := Chosen(baseline);
    assert Spread(b);
    ZScoreMonotone(f.speechRate, g.speechRate, b.speechRateMean, b.speechRateStd);
    ZScoreMonotone(f.rms, g.rms, b.rmsMean, b.rmsStd);
    ZScoreMonotone(f.zcr, g.zcr, b.zcrMean, b.zcrStd);
    ZScoreMonotone(g.pauseRatio, f.pauseRatio, b.pauseMean, b.pauseStd);
    assert StressRaw(f, b) <= StressRaw(g, b);
    NormalizeMonotone(StressRaw(f, b), StressRaw(g, b));
    NormalizeMonotone(FatigueRaw(g, b), FatigueRaw(f, b));
  }

  /** With a positive spread, a z-score grows with its value. */
  lemma ZScoreMonotone(x: real, y: real, mean: real, std: real)
    requires std > 0.0 && x <= y
    ensures ZScore(x, mean, std) <= ZScore(y, mean, std)
  {
    var zx, zy := ZScore(x, mean, std), ZScore(y, mean, std);
    assert std * zx == x - mean && std * zy == y - mean;
    DivideBounds(y - mean, std, zx, zy);
  }
}
