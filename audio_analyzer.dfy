/** The feature extractor of `lib/audioUtils.ts`: while recording, every
    analysis frame of 512 samples appends its energy (RMS) and zero crossing
    rate to two histories; when recording stops the histories are reduced to
    the five features of a check-in. Microphone access, the audio graph and
    the per-frame feature computation are outside the model: a frame arrives
    as its two numbers, or as nothing. */
module AudioAnalyzer {
  import opened Numeric
  import opened Wrappers

  /** The features a recording is reduced to. */
  datatype AudioFeatures = AudioFeatures(rms: real, zcr: real, pauseRatio: real, speechRate: real, duration: real)

  /** The two numbers the analysis callback receives for one frame. */
  datatype Frame = Frame(rms: real, zcr: real)

  /** `stop` called while not recording. */
  datatype AnalyzerError = NotRecording

  /** Samples per analysis frame and samples per second. */
  const BufferSize: nat := 512
  const SampleRate: nat := 44100

  /** Seconds covered by one frame. */
  const FrameSeconds: real := BufferSize as real / SampleRate as real

  /** The features of an empty recording. */
  const NoFeatures := AudioFeatures(0.0, 0.0, 0.0, 0.0, 0.0)

  /** The energy below which a frame counts as silence: 10% of the loudest
      frame, but never below 0.02. */
  function SilenceThreshold(energy: seq<real>): (t: real)
    requires |energy| > 0
    ensures t >= 0.02 && t >= Max(energy) * 0.1
    ensures t == 0.02 || t == Max(energy) * 0.1
  {
    MaxOf(0.02, Max(energy) * 0.1)
  }

  // ---------------------------------------------------------------------
  // Burst counting
  // ---------------------------------------------------------------------

  /** The two variables of the burst loop. */
  datatype BurstState = BurstState(bursts: nat, inBurst: bool)

  /** One iteration of the burst loop: a frame above the threshold starts a
      burst unless one is running; a frame below it ends a running burst; a
      frame exactly at the threshold changes nothing. */
  function Step(st: BurstState, e: real, t: real): (next: BurstState)
    ensures e == t ==> next == st
    ensures next.bursts == st.bursts + (if !st.inBurst && e > t then 1 else 0)
  {
    if !st.inBurst && e > t then BurstState(st.bursts + 1, true)
    else if st.inBurst && e < t then BurstState(st.bursts, false)
    else st
  }

  /** The burst loop over a whole sequence of energies, from the start.
      There are never more bursts than frames, and a running burst has been
      counted. */
  function Scan(energy: seq<real>, t: real): (st: BurstState)
    ensures st.bursts <= |energy|
    ensures st.inBurst ==> st.bursts > 0
  {
    if energy == [] then BurstState(0, false)
    else Step(Scan(energy[..|energy| - 1], t), energy[|energy| - 1], t)
  }

  /** Every burst starts on a frame above the threshold, and every burst but
      a running one ended on a frame below it; a running burst has been
      counted; and there is a burst exactly when some frame is above the
      threshold. */
  lemma {:induction false} ScanCounts(energy: seq<real>, t: real)
    ensures Scan(energy, t).bursts <= CountAbove(energy, t)
    ensures Scan(energy, t).bursts <= CountBelow(energy, t) + (if Scan(energy, t).inBurst then 1 else 0)
    ensures Scan(energy, t).inBurst ==> Scan(energy, t).bursts >= 1
    ensures Scan(energy, t).bursts > 0 <==> CountAbove(energy, t) > 0
  {
    if energy != [] {
      ScanCounts(energy[..|energy| - 1], t);
    }
  }

  /** Bursts are separated by silent frames, so at most every other frame
      starts one. */
  lemma BurstsAtMostHalf(energy: seq<real>, t: real)
    ensures 2 * Scan(energy, t).bursts <= |energy| + 1
  {
    ScanCounts(energy, t);
    CountsDisjoint(energy, t);
  }

  // ---------------------------------------------------------------------
  // The reduction of a recording to its features
  // ---------------------------------------------------------------------

  /** Reference definition of `processFeatures` on the two histories: mean
      energy and mean ZCR, the share of silent frames, bursts per second and
      the length in seconds; all zero for an empty recording. */
  function ExtractFeatures(energy: seq<real>, zcr: seq<real>): (r: AudioFeatures)
    requires |energy| == |zcr|
    ensures |energy| == 0 ==> r == NoFeatures
    ensures |energy| > 0 ==>
              && r.rms == Mean(energy) && r.zcr == Mean(zcr)
              && 0.0 <= r.pauseRatio <= 1.0
              && r.duration > 0.0 && r.speechRate >= 0.0
  {
    if |energy| == 0 then NoFeatures
    else
      var t := SilenceThreshold(energy);
      Summarize(Mean(energy), Mean(zcr), |energy|, CountBelow(energy, t), Scan(energy, t).bursts)
  }

  /** The features of `frames` frames, `silent` of them below the silence
      threshold, with `bursts` bursts: the pause ratio is the share of silent
      frames, the duration is the frame count times 512/44100 seconds, and
      the speech rate is bursts per second of that duration. */
  function Summarize(avgEnergy: real, avgZcr: real, frames: nat, silent: nat, bursts: nat): (r: AudioFeatures)
    requires 0 < frames && silent <= frames
    ensures r.rms == avgEnergy && r.zcr == avgZcr
    ensures 0.0 <= r.pauseRatio <= 1.0 && r.pauseRatio * frames as real == silent as real
    ensures silent < frames ==> r.pauseRatio < 1.0
    ensures r.duration == frames as real * 512.0 / 44100.0 && r.duration > 0.0
    ensures r.speechRate >= 0.0 && r.speechRate * r.duration == bursts as real
    ensures r.speechRate > 0.0 <==> bursts > 0
  {
    ShareOfFrames(silent, frames);
    var duration := Duration(frames);
    AudioFeatures(avgEnergy, avgZcr, silent as real / frames as real, SpeechRate(bursts, duration), duration)
  }

  /** Seconds covered by a number of frames: 512 samples each at 44100
      samples per second; positive for any frame. */
  function Duration(frames: nat): (d: real)
    ensures d * 44100.0 == frames as real * 512.0
    ensures d > 0.0 <==> frames > 0
  {
    frames as real * FrameSeconds
  }

  /** Bursts per second, 0 for a recording without duration: never
      negative, it gives the burst count back over the duration, and it is
      positive exactly when there is a burst in some time. */
  function SpeechRate(bursts: nat, duration: real): (r: real)
    ensures r >= 0.0
    ensures duration > 0.0 ==> r * duration == bursts as real
    ensures r > 0.0 <==> duration > 0.0 && bursts > 0
  {
    if duration > 0.0 then
      DivideBounds(bursts as real, duration, 0.0, bursts as real / duration);
      bursts as real / duration
    else 0.0
  }

  /** The mean energy and mean ZCR of a non-empty recording lie between the
      smallest and the largest frame value. */
  lemma ExtractedMeans(energy: seq<real>, zcr: seq<real>)
    requires |energy| == |zcr| > 0
    ensures Min(energy) <= ExtractFeatures(energy, zcr).rms <= Max(energy)
    ensures Min(zcr) <= ExtractFeatures(energy, zcr).zcr <= Max(zcr)
  {
    MeanBetween(energy);
    MeanBetween(zcr);
  }

  /** The speech rate of a non-empty recording is positive exactly when some
      frame rises above the silence threshold, and its bursts number at most
      about half the frames. */
  lemma ExtractedSpeechRate(energy: seq<real>, zcr: seq<real>)
    requires |energy| == |zcr| > 0
    ensures var bursts := Scan(energy, SilenceThreshold(energy)).bursts;
            && 2 * bursts <= |energy| + 1
            && (ExtractFeatures(energy, zcr).speechRate > 0.0 <==> CountAbove(energy, SilenceThreshold(energy)) > 0)
  {
    var t := SilenceThreshold(energy);
    ScanCounts(energy, t);
    BurstsAtMostHalf(energy, t);
  }

  /** A count of at most `n` frames, divided by `n`, is a share in [0, 1]
      that gives the count back when multiplied by `n`. */
  lemma ShareOfFrames(k: nat, n: nat)
    requires 0 < n && k <= n
    ensures 0.0 <= k as real / n as real <= 1.0
    ensures k as real / n as real * n as real == k as real
    ensures k < n ==> k as real / n as real < 1.0
  {
    DivideBounds(k as real, n as real, 0.0, 1.0);
    var q := k as real / n as real;
    if k < n {
      assert q * n as real < n as real;
    }
  }

  /** When the loudest frame reaches 0.02, that frame is not silent, so the
      pause ratio stays below 1. */
  lemma LoudFrameIsNotPause(energy: seq<real>, zcr: seq<real>)
    requires |energy| == |zcr| > 0
    requires Max(energy) >= 0.02
    ensures ExtractFeatures(energy, zcr).pauseRatio < 1.0
  {
    var t := SilenceThreshold(energy);
    assert t <= Max(energy);
    var k :| 0 <= k < |energy| && energy[k] == Max(energy);
    NotAllBelow(energy, t, k);
  }

  /** A frame at or above the threshold keeps the count below it short of
      the length. */
  lemma {:induction false} NotAllBelow(xs: seq<real>, t: real, k: nat)
    requires k < |xs| && xs[k] >= t
    ensures CountBelow(xs, t) < |xs|
  {
    if k < |xs| - 1 {
      NotAllBelow(xs[..|xs| - 1], t, k);
    }
  }

  // ---------------------------------------------------------------------
  // The analyzer object
  // ---------------------------------------------------------------------

  class Analyzer {
    var energyHistory: seq<real>
    var zcrHistory: seq<real>
    var isRecording: bool

    /** The histories are filled together, one entry per frame. */
    ghost predicate Valid()
      reads this
    {
      |energyHistory| == |zcrHistory|
    }

    constructor ()
      ensures energyHistory == [] && zcrHistory == [] && !isRecording
      ensures Valid()
    {
      energyHistory := [];
      zcrHistory := [];
      isRecording := false;
    }

    /** `start`: ignored while recording; otherwise clears both histories
        and begins recording. */
    method Start()
      modifies this
      ensures old(isRecording) ==> unchanged(this)
      ensures !old(isRecording) ==> energyHistory == [] && zcrHistory == []
      ensures isRecording
      ensures old(Valid()) ==> Valid()
    {
      if isRecording {
        return;
      }
      energyHistory := [];
      zcrHistory := [];
      isRecording := true;
    }

    /** The analysis callback: a frame that carries features is recorded
        while recording; anything else is dropped. */
    method OnFrame(frame: Option<Frame>)
      modifies this
      ensures frame.Some? && old(isRecording) ==>
                && energyHistory == old(energyHistory) + [frame.value.rms]
                && zcrHistory == old(zcrHistory) + [frame.value.zcr]
      ensures !(frame.Some? && old(isRecording)) ==>
                energyHistory == old(energyHistory) && zcrHistory == old(zcrHistory)
      ensures isRecording == old(isRecording)
      ensures old(Valid()) ==> Valid()
    {
      if frame.Some? && isRecording {
        energyHistory := energyHistory + [frame.value.rms];
        zcrHistory := zcrHistory + [frame.value.zcr];
      }
    }

    /** `stop`: an error when not recording; otherwise recording ends and
        the histories are reduced to features. */
    method Stop() returns (r: Result<AudioFeatures, AnalyzerError>)
      requires Valid()
      modifies this
      ensures energyHistory == old(energyHistory) && zcrHistory == old(zcrHistory)
      ensures !isRecording
      ensures !old(isRecording) ==> r == Failure(NotRecording)
      ensures old(isRecording) ==> r == Success(ExtractFeatures(energyHistory, zcrHistory))
    {
      if !isRecording {
        return Failure(NotRecording);
      }
      isRecording := false;
      var features := ProcessFeatures();
      return Success(features);
    }

    /** `processFeatures`: sums and counts over the histories, and the
        burst loop. */
    method ProcessFeatures() returns (r: AudioFeatures)
      requires Valid()
      ensures r == ExtractFeatures(energyHistory, zcrHistory)
      ensures energyHistory == [] ==> r == NoFeatures
    {
      var n := |energyHistory|;
      if n == 0 {
        return NoFeatures;
      }
      var avgEnergy := Sum(energyHistory) / n as real;
      var maxEnergy := Max(energyHistory);
      var silenceThreshold := MaxOf(0.02, maxEnergy * 0.1);
      var silenceFrames := CountBelow(energyHistory, silenceThreshold);
      var pauseRatio := silenceFrames as real / n as real;
      var avgZcr := Sum(zcrHistory) / |zcrHistory| as real;

      var bursts: nat := 0;
      var inBurst := false;
      for i := 0 to n
        invariant BurstState(bursts, inBurst) == Scan(energyHistory[..i], silenceThreshold)
      {
        var e := energyHistory[i];
        if !inBurst && e > silenceThreshold {
          bursts := bursts + 1;
          inBurst := true;
        } else if inBurst && e < silenceThreshold {
          inBurst := false;
        }
        assert energyHistory[..i + 1][..i] == energyHistory[..i];
      }
      assert energyHistory[..n] == energyHistory;

      var duration := n as real * (BufferSize as real / SampleRate as real);
      var speechRate := if duration > 0.0 then bursts as real / duration else 0.0;
      r := AudioFeatures(avgEnergy, avgZcr, pauseRatio, speechRate, duration);
    }
  }
}
