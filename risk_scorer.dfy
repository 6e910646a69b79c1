/** The scoring engine of the check-in route (`app/api/checkin/route.ts`):
    from a check-in's features, its self-report and the stored baseline it
    derives one raw score per risk category, maps each through a logistic
    curve to an integer percent and emits a flag for every category whose
    percent exceeds 40, in a fixed category order.

    `Math.exp` is not computed: every scoring member takes it as a parameter
    `exp` constrained by `ExpLike`, the facts about the exponential that the
    proofs use. */
module RiskScorer {
  import opened Numeric
  import opened Decimal
  import opened Wrappers
  import opened BaselineStore

  /** Facts about `Math.exp` that the model relies on: positive, monotone,
      `exp(0) = 1`, and the tangent bound `exp(x) >= 1 + x`. */
  ghost predicate ExpLike(exp: real -> real) {
    && (forall x :: exp(x) > 0.0)
    && (forall x, y :: x <= y ==> exp(x) <= exp(y))
    && exp(0.0) == 1.0
    && (forall x :: exp(x) >= 1.0 + x)
  }

  // ---------------------------------------------------------------------
  // Shared primitives
  // ---------------------------------------------------------------------

  /** `getDrift`: the deviation of `val` from `base` in units of 10% of
      `base`; 0 when there is no baseline to compare with. */
  function Drift(val: real, base: real): (d: real)
    ensures base == 0.0 ==> d == 0.0
    ensures val == base ==> d == 0.0
    ensures base != 0.0 ==> d * (base * 0.1) == val - base
  {
    if base == 0.0 then 0.0 else (val - base) / (base * 0.1)
  }

  /** `toProb`: the logistic curve with the given steepness, centred on
      `shift`. */
  function ToProb(exp: real -> real, x: real, steepness: real, shift: real): (p: real)
    requires ExpLike(exp)
    ensures 0.0 < p < 1.0
  {
    var e := exp(-steepness * (x - shift));
    assert e > 0.0;
    1.0 / (1.0 + e)
  }

  /** `Math.min(100, Math.round(toProb(raw, steepness, shift) * 100))`. */
  function ToPercent(exp: real -> real, raw: real, steepness: real, shift: real): (pct: nat)
    requires ExpLike(exp)
    ensures pct <= 100
  {
    var r := Round(ToProb(exp, raw, steepness, shift) * 100.0);
    if r < 100 then r else 100
  }

  /** A trigger term that grows linearly once `x` rises past `threshold`. */
  function Excess(x: real, threshold: real, scale: real): (r: real)
    requires scale > 0.0
    ensures r >= 0.0
    ensures r > 0.0 <==> x > threshold
  {
    if x > threshold then (x - threshold) * scale else 0.0
  }

  /** A trigger term that grows linearly once `x` falls below `threshold`. */
  function Shortfall(x: real, threshold: real, scale: real): (r: real)
    requires scale > 0.0
    ensures r >= 0.0
    ensures r > 0.0 <==> x < threshold
  {
    if x < threshold then (threshold - x) * scale else 0.0
  }

  lemma ExcessMonotone(x: real, y: real, threshold: real, scale: real)
    requires scale > 0.0 && x <= y
    ensures Excess(x, threshold, scale) <= Excess(y, threshold, scale)
  {
  }

  /** The lethargy energy term: the size of the drift when the voice is
      quieter than the baseline; one unit per 10% below it. */
  function EnergyFactor(rms: real, avgEnergy: real): (r: real)
    ensures r >= 0.0
    ensures r > 0.0 <==> rms < avgEnergy && avgEnergy != 0.0
    ensures avgEnergy > 0.0 && rms < avgEnergy ==> r * avgEnergy == (avgEnergy - rms) * 10.0
  {
    var eDrift := Drift(rms, avgEnergy);
    if rms < avgEnergy then (if eDrift < 0.0 then -eDrift else eDrift) else 0.0
  }

  // ---------------------------------------------------------------------
  // The four categories
  // ---------------------------------------------------------------------

  datatype Category = LethargyPattern | AnxietyPattern | RespiratoryStrain | VocalStrain

  /** The categories in the order their flags are pushed. */
  const EmissionOrder: seq<Category> := [LethargyPattern, AnxietyPattern, RespiratoryStrain, VocalStrain]

  /** Position of a category in `EmissionOrder`. */
  function Rank(c: Category): nat {
    match c
    case LethargyPattern => 0
    case AnxietyPattern => 1
    case RespiratoryStrain => 2
    case VocalStrain => 3
  }

  /** The `type` string of a flag: a non-empty upper-case identifier with
      words joined by underscores. */
  function TypeName(c: Category): (name: string)
    ensures |name| > 0 && name[0] != '_' && name[|name| - 1] != '_'
    ensures forall ch :: ch in name ==> 'A' <= ch <= 'Z' || ch == '_'
  {
    match c
    case LethargyPattern => "LETHARGY_PATTERN"
    case AnxietyPattern => "ANXIETY_PATTERN"
    case RespiratoryStrain => "RESPIRATORY_STRAIN"
    case VocalStrain => "VOCAL_STRAIN"
  }

  /** No two categories share a `type` string, so a flag's type names its
      category. */
  lemma TypeNameInjective(c: Category, d: Category)
    ensures TypeName(c) == TypeName(d) <==> c == d
  {
    if c != d {
      assert TypeName(c)[..3] != TypeName(d)[..3];
    }
  }

  /** Every category occurs in the emission order, at its rank. */
  lemma InEmissionOrder(c: Category)
    ensures Rank(c) < |EmissionOrder| && EmissionOrder[Rank(c)] == c
  {
  }

  /** Raw lethargy score: quiet voice relative to the baseline, slow speech. */
  function LethargyScore(f: Features, b: Baseline): (raw: real)
    ensures raw >= 0.0
    ensures raw == 0.0 <==> f.speechRate >= 3.5 && (f.rms >= b.avgEnergy || b.avgEnergy == 0.0)
  {
    var energyFactor := EnergyFactor(f.rms, b.avgEnergy);
    var speechFactor := Shortfall(f.speechRate, 3.5, 3.0);
    energyFactor * 0.5 + speechFactor * 0.5
  }

  /** Raw anxiety score: reported stress above 5, fast speech, high ZCR. */
  function AnxietyScore(f: Features, s: SelfReport): (raw: real)
    ensures raw >= 0.0
    ensures raw == 0.0 <==> s.stress <= 5.0 && f.speechRate <= 4.5 && f.zcr <= 0.1
  {
    var stressFactor := Excess(s.stress, 5.0, 0.8);
    var speechFactor := Excess(f.speechRate, 4.5, 4.0);
    var jitterFactor := Excess(f.zcr, 0.1, 30.0);
    stressFactor * 0.5 + speechFactor * 0.3 + jitterFactor * 0.2
  }

  /** Raw respiratory-strain score: many pauses, short phrases. */
  function RespiratoryScore(f: Features): (raw: real)
    ensures raw >= 0.0
    ensures raw == 0.0 <==> f.pauseRatio <= 0.3 && f.speechRate >= 3.0
  {
    var pauseFactor := Excess(f.pauseRatio, 0.3, 15.0);
    var phraseFactor := Shortfall(f.speechRate, 3.0, 1.5);
    pauseFactor * 0.7 + phraseFactor * 0.3
  }

  /** Raw vocal-strain score: rough (high ZCR) and loud voice. */
  function VocalScore(f: Features): (raw: real)
    ensures raw >= 0.0
    ensures raw == 0.0 <==> f.zcr <= 0.15 && f.rms <= 0.2
  {
    var roughFactor := Excess(f.zcr, 0.15, 15.0);
    var loudFactor := Excess(f.rms, 0.2, 5.0);
    roughFactor * 0.8 + loudFactor * 0.2
  }

  /** The raw score each category's scoring block computes before the
      logistic curve; never negative. */
  function RawScore(c: Category, f: Features, s: SelfReport, b: Baseline): (raw: real)
    ensures raw >= 0.0
  {
    match c
    case LethargyPattern => LethargyScore(f, b)
    case AnxietyPattern => AnxietyScore(f, s)
    case RespiratoryStrain => RespiratoryScore(f)
    case VocalStrain => VocalScore(f)
  }

  /** Steepness of each category's logistic curve. */
  function Steepness(c: Category): (k: real)
    ensures k > 0.0
  {
    match c
    case LethargyPattern => 1.2
    case AnxietyPattern => 1.0
    case RespiratoryStrain => 1.2
    case VocalStrain => 2.0
  }

  /** The raw score at which each category reaches 50%. */
  function Shift(c: Category): (s: real)
    ensures s > 0.0
  {
    match c
    case LethargyPattern => 1.5
    case AnxietyPattern => 2.0
    case RespiratoryStrain => 1.0
    case VocalStrain => 0.5
  }

  /** The integer percent of one category (`lethargyRisk`, `anxietyRisk`,
      `respRisk`, `vocalRisk`). */
  function Risk(exp: real -> real, c: Category, f: Features, s: SelfReport, b: Baseline): (pct: nat)
    requires ExpLike(exp)
    ensures pct <= 100
  {
    ToPercent(exp, RawScore(c, f, s, b), Steepness(c), Shift(c))
  }

  /** The four percents of one check-in. */
  datatype Risks = Risks(lethargy: nat, anxiety: nat, respiratory: nat, vocal: nat) {
    function At(c: Category): nat {
      match c
      case LethargyPattern => lethargy
      case AnxietyPattern => anxiety
      case RespiratoryStrain => respiratory
      case VocalStrain => vocal
    }
  }

  /** The four percents of one check-in, gathered by category. */
  function RisksOf(exp: real -> real, f: Features, s: SelfReport, b: Baseline): (r: Risks)
    requires ExpLike(exp)
    ensures forall c :: r.At(c) == Risk(exp, c, f, s, b)
  {
    Risks(Risk(exp, LethargyPattern, f, s, b), Risk(exp, AnxietyPattern, f, s, b),
          Risk(exp, RespiratoryStrain, f, s, b), Risk(exp, VocalStrain, f, s, b))
  }

  // ---------------------------------------------------------------------
  // Flags
  // ---------------------------------------------------------------------

  /** A category is shown when its percent is strictly above this. */
  const DisplayThreshold: nat := 40

  const MessagePrefix: string := "Probability: "

  /** The category-specific sentence after the percent. */
  function Description(c: Category): string {
    match c
    case LethargyPattern => "Detected low energy and lethargic speech patterns."
    case AnxietyPattern => "High anxiety markers detected."
    case RespiratoryStrain => "Respiratory strain signatures detected."
    case VocalStrain => "Vocal roughness/strain detected."
  }

  /** The text after the percent: `%. <description>`. */
  function Suffix(c: Category): (t: string)
    ensures |t| > 0 && t[0] == '%'
  {
    "%. " + Description(c)
  }

  /** `Probability: ${risk}%. <description>`: the message starts with the
      prefix, and the number after it reads back as the score it was made
      from. */
  function Message(c: Category, score: nat): (msg: string)
    ensures MessagePrefix <= msg
    ensures AnnouncedScore(msg) == Some(score)
  {
    var body := Digits(score) + Suffix(c);
    NumberRoundTrip(score, Suffix(c));
    assert (MessagePrefix + body)[|MessagePrefix|..] == body;
    MessagePrefix + body
  }

  /** The percent a message announces, read back from its text. */
  function AnnouncedScore(msg: string): Option<nat> {
    if MessagePrefix <= msg then ReadNumber(msg[|MessagePrefix|..]) else None
  }

  /** A flag as the route sends it: `{ type, msg, score }`. The message is
      the template applied to the category and the score, so it is derived
      rather than stored. */
  datatype Flag = Flag(kind: Category, score: nat) {
    function Type(): string {
      TypeName(kind)
    }

    function Msg(): string {
      Message(kind, score)
    }
  }

  /** The pushes of one category: its flag if it passes the threshold. At
      most one flag is pushed, exactly when the percent is above 40, and it
      carries the category's percent. */
  function Pushed(c: Category, risks: Risks): (flags: seq<Flag>)
    ensures |flags| <= 1
    ensures |flags| == 1 <==> risks.At(c) > DisplayThreshold
    ensures forall i :: 0 <= i < |flags| ==> flags[i].kind == c && Announces(flags[i], risks)
  {
    if risks.At(c) > DisplayThreshold then [Flag(c, risks.At(c))] else []
  }

  /** Reference definition of the flag list: the categories of `cs`, in
      order, that pass the display threshold. */
  function Emitted(cs: seq<Category>, risks: Risks): (flags: seq<Flag>)
    ensures |flags| <= |cs|
  {
    if cs == [] then [] else Emitted(cs[..|cs| - 1], risks) + Pushed(cs[|cs| - 1], risks)
  }

  function KindsOf(flags: seq<Flag>): set<Category> {
    set i | 0 <= i < |flags| :: flags[i].kind
  }

  /** One flag as the route builds it: it carries its category's percent,
      and that percent is above the display threshold. */
  ghost predicate Announces(flag: Flag, risks: Risks) {
    && risks.At(flag.kind) > DisplayThreshold
    && flag.score == risks.At(flag.kind)
  }

  /** What the route promises about its flag list: every flag is as
      above; flags appear in emission order, so no category twice; and
      every category that passes the threshold is present. */
  ghost predicate Reports(flags: seq<Flag>, risks: Risks) {
    && (forall i :: 0 <= i < |flags| ==> Announces(flags[i], risks))
    && (forall i, j :: 0 <= i < j < |flags| ==> Rank(flags[i].kind) < Rank(flags[j].kind))
    && (forall c :: risks.At(c) > DisplayThreshold ==> c in KindsOf(flags))
  }

  ghost predicate RankSorted(cs: seq<Category>) {
    forall i, j :: 0 <= i < j < |cs| ==> Rank(cs[i]) < Rank(cs[j])
  }

  /** Every flag of `Emitted(cs, …)` is announced and belongs to `cs`. */
  lemma {:induction false} EmittedSound(cs: seq<Category>, risks: Risks)
    ensures forall i :: 0 <= i < |Emitted(cs, risks)| ==>
              Announces(Emitted(cs, risks)[i], risks) && Emitted(cs, risks)[i].kind in cs
  {
    if cs != [] {
      var init, last := cs[..|cs| - 1], cs[|cs| - 1];
      EmittedSound(init, risks);
      var front := Emitted(init, risks);
      var out := Emitted(cs, risks);
      assert out == front + Pushed(last, risks);
      forall i | 0 <= i < |out| ensures Announces(out[i], risks) && out[i].kind in cs {
        if i < |front| {
          assert out[i] == front[i];
          assert front[i].kind in init;
        } else {
          assert out[i] == Flag(last, risks.At(last));
        }
      }
    }
  }

  /** Every category of `cs` that passes the threshold has a flag. */
  lemma {:induction false} EmittedComplete(cs: seq<Category>, risks: Risks, c: Category)
    requires c in cs && risks.At(c) > DisplayThreshold
    ensures c in KindsOf(Emitted(cs, risks))
  {
    var init, last := cs[..|cs| - 1], cs[|cs| - 1];
    var front := Emitted(init, risks);
    var out := Emitted(cs, risks);
    assert out == front + Pushed(last, risks);
    if c == last {
      assert out[|front|].kind == c;
    } else {
      assert c in init by {
        assert cs == init + [last];
      }
      EmittedComplete(init, risks, c);
      var k :| 0 <= k < |front| && front[k].kind == c;
      assert out[k].kind == c;
    }
  }

  /** `Emitted` keeps the order of a rank-sorted category list. */
  lemma {:induction false} EmittedSorted(cs: seq<Category>, risks: Risks)
    requires RankSorted(cs)
    ensures forall i, j :: 0 <= i < j < |Emitted(cs, risks)| ==>
              Rank(Emitted(cs, risks)[i].kind) < Rank(Emitted(cs, risks)[j].kind)
  {
    if cs != [] {
      var init, last := cs[..|cs| - 1], cs[|cs| - 1];
      EmittedSorted(init, risks);
      EmittedSound(init, risks);
      var front := Emitted(init, risks);
      var out := Emitted(cs, risks);
      assert out == front + Pushed(last, risks);
      forall k | 0 <= k < |front| ensures Rank(front[k].kind) < Rank(last) {
        var m :| 0 <= m < |init| && init[m] == front[k].kind;
        assert cs[m] == front[k].kind;
      }
      forall i, j | 0 <= i < j < |out| ensures Rank(out[i].kind) < Rank(out[j].kind) {
        assert out[i] == front[i];
        if j < |front| {
          assert out[j] == front[j];
        } else {
          assert out[j].kind == last;
        }
      }
    }
  }

  /** The reference flag list in emission order meets the route's promise. */
  lemma EmittedReports(risks: Risks)
    ensures Reports(Emitted(EmissionOrder, risks), risks)
    ensures |Emitted(EmissionOrder, risks)| <= 4
  {
    EmittedSound(EmissionOrder, risks);
    forall c | risks.At(c) > DisplayThreshold
      ensures c in KindsOf(Emitted(EmissionOrder, risks))
    {
      InEmissionOrder(c);
      EmittedComplete(EmissionOrder, risks, c);
    }
    EmittedSorted(EmissionOrder, risks);
    forall c ensures c in EmissionOrder {
      InEmissionOrder(c);
    }
  }

  /** In a rank-sorted `cs`, every category of `cs` ranks at most as high
      as its last one. */
  lemma RankAtMostLast(cs: seq<Category>, c: Category)
    requires RankSorted(cs) && c in cs
    ensures Rank(c) <= Rank(cs[|cs| - 1])
  {
    var m :| 0 <= m < |cs| && cs[m] == c;
    assert m == |cs| - 1 || Rank(cs[m]) < Rank(cs[|cs| - 1]);
  }

  /** In a rank-sorted `cs`, a category of its front part is in `cs` and
      ranks strictly below its last one. */
  lemma RankBelowLast(cs: seq<Category>, c: Category)
    requires RankSorted(cs) && |cs| > 0 && c in cs[..|cs| - 1]
    ensures c in cs && Rank(c) < Rank(cs[|cs| - 1])
  {
    var m :| 0 <= m < |cs| - 1 && cs[m] == c;
    assert cs[m] == c;
  }

  /** Dropping the last flag keeps every other category it lists. */
  lemma KindsOfDropLast(flags: seq<Flag>, c: Category)
    requires c in KindsOf(flags) && flags[|flags| - 1].kind != c
    ensures c in KindsOf(flags[..|flags| - 1])
  {
    var j :| 0 <= j < |flags| && flags[j].kind == c;
    assert flags[..|flags| - 1][j].kind == c;
  }

  /** A category of `cs` other than its last lies in its front part. */
  lemma InFront(cs: seq<Category>, c: Category)
    requires c in cs && |cs| > 0 && c != cs[|cs| - 1]
    ensures c in cs[..|cs| - 1]
  {
    assert cs == cs[..|cs| - 1] + [cs[|cs| - 1]];
  }

  /** The conditions under which a flag list is the filter of `cs`: every
      flag is as the route builds it and belongs to `cs`, flags are in rank
      order, and every category of `cs` that passes the threshold is there. */
  ghost predicate ReportsWithin(flags: seq<Flag>, cs: seq<Category>, risks: Risks) {
    && (forall i :: 0 <= i < |flags| ==> Announces(flags[i], risks) && flags[i].kind in cs)
    && (forall i, j :: 0 <= i < j < |flags| ==> Rank(flags[i].kind) < Rank(flags[j].kind))
    && (forall c :: c in cs && risks.At(c) > DisplayThreshold ==> c in KindsOf(flags))
  }

  /** The first flag of a list within `cs` belongs to `cs`. */
  lemma FirstKindIn(flags: seq<Flag>, cs: seq<Category>, risks: Risks)
    requires ReportsWithin(flags, cs, risks)
    ensures |flags| > 0 ==> flags[0].kind in cs
  {
  }

  /** `Emitted` over `cs` is `Emitted` over its front part followed by the
      flag of its last category, if that one is shown. */
  lemma EmittedLast(cs: seq<Category>, risks: Risks)
    requires |cs| > 0
    ensures Emitted(cs, risks) == Emitted(cs[..|cs| - 1], risks) + Pushed(cs[|cs| - 1], risks)
  {
  }

  /** Any list meeting the promise, restricted to the categories of a
      rank-sorted `cs`, is exactly `Emitted(cs, …)`. */
  lemma {:induction false} ReportsDetermined(flags: seq<Flag>, cs: seq<Category>, risks: Risks)
    requires RankSorted(cs) && ReportsWithin(flags, cs, risks)
    ensures flags == Emitted(cs, risks)
    decreases |cs|, 1
  {
    if cs == [] {
      FirstKindIn(flags, cs, risks);
    } else if risks.At(cs[|cs| - 1]) > DisplayThreshold {
      ReportsDeterminedLastShown(flags, cs, risks);
    } else {
      var init, last := cs[..|cs| - 1], cs[|cs| - 1];
      assert RankSorted(init);
      forall i | 0 <= i < |flags| ensures flags[i].kind in init {
        InFront(cs, flags[i].kind);
      }
      forall c | c in init && risks.At(c) > DisplayThreshold ensures c in KindsOf(flags) {
        assert cs == init + [last];
      }
      ReportsDetermined(flags, init, risks);
    }
  }

  /** The step of `ReportsDetermined` where the last category of `cs` is
      shown: its flag must be the last one. */
  lemma {:induction false} ReportsDeterminedLastShown(flags: seq<Flag>, cs: seq<Category>, risks: Risks)
    requires RankSorted(cs) && ReportsWithin(flags, cs, risks)
    requires |cs| > 0 && risks.At(cs[|cs| - 1]) > DisplayThreshold
    ensures flags == Emitted(cs, risks)
    decreases |cs|, 0
  {
    var init, last := cs[..|cs| - 1], cs[|cs| - 1];
    LastFlagIsLastShown(flags, cs, risks);
    var n := |flags| - 1;
    var rest := flags[..n];
    ReportsWithinFront(flags, cs, risks);
    ReportsDetermined(rest, init, risks);
    assert Pushed(last, risks) == [flags[n]] by {
      assert Announces(flags[n], risks);
    }
    EmittedLast(cs, risks);
    SplitLast(flags);
  }

  /** A non-empty list is its front part followed by its last element. */
  lemma SplitLast<T>(xs: seq<T>)
    requires |xs| > 0
    ensures xs == xs[..|xs| - 1] + [xs[|xs| - 1]]
  {
  }

  /** When the last category of a rank-sorted `cs` is shown, the list has
      a flag and the last flag is that category's. */
  lemma LastFlagIsLastShown(flags: seq<Flag>, cs: seq<Category>, risks: Risks)
    requires RankSorted(cs) && ReportsWithin(flags, cs, risks)
    requires |cs| > 0 && risks.At(cs[|cs| - 1]) > DisplayThreshold
    ensures |flags| > 0 && flags[|flags| - 1].kind == cs[|cs| - 1]
  {
    var last := cs[|cs| - 1];
    assert last in KindsOf(flags);
    var n := |flags| - 1;
    var k :| 0 <= k < |flags| && flags[k].kind == last;
    if k < n {
      RankAtMostLast(cs, flags[n].kind);
      assert false;
    }
  }

  /** Dropping the last category's flag leaves a list within the front part
      of `cs`. */
  lemma ReportsWithinFront(flags: seq<Flag>, cs: seq<Category>, risks: Risks)
    requires RankSorted(cs) && ReportsWithin(flags, cs, risks)
    requires |cs| > 0 && |flags| > 0 && flags[|flags| - 1].kind == cs[|cs| - 1]
    ensures RankSorted(cs[..|cs| - 1])
    ensures ReportsWithin(flags[..|flags| - 1], cs[..|cs| - 1], risks)
  {
    var init := cs[..|cs| - 1];
    var rest := flags[..|flags| - 1];
    forall i | 0 <= i < |rest| ensures Announces(rest[i], risks) && rest[i].kind in init {
      assert rest[i] == flags[i];
      InFront(cs, rest[i].kind);
    }
    forall c | c in init && risks.At(c) > DisplayThreshold ensures c in KindsOf(rest) {
      RankBelowLast(cs, c);
      KindsOfDropLast(flags, c);
    }
    forall i, j | 0 <= i < j < |rest| ensures Rank(rest[i].kind) < Rank(rest[j].kind) {
      assert rest[i] == flags[i] && rest[j] == flags[j];
    }
  }

  /** The route's promise determines the flag list uniquely: it is the
      threshold filter of the categories in emission order. */
  lemma ReportsUnique(flags: seq<Flag>, risks: Risks)
    requires Reports(flags, risks)
    ensures flags == Emitted(EmissionOrder, risks)
  {
    forall c ensures c in EmissionOrder {
      InEmissionOrder(c);
    }
    ReportsDetermined(flags, EmissionOrder, risks);
  }

  /** The flag list of `POST`: four guarded pushes, one per category, in
      source order. */
  method ScoreFlags(exp: real -> real, f: Features, s: SelfReport, b: Baseline) returns (flags: seq<Flag>)
    requires ExpLike(exp)
    ensures flags == Emitted(EmissionOrder, RisksOf(exp, f, s, b))
    ensures Reports(flags, RisksOf(exp, f, s, b))
    ensures |flags| <= 4
    ensures forall i :: 0 <= i < |flags| ==> DisplayThreshold < flags[i].score <= 100
  {
    ghost var risks := RisksOf(exp, f, s, b);
    flags := [];

    var lethargyRisk := Risk(exp, LethargyPattern, f, s, b);
    if lethargyRisk > DisplayThreshold {
      flags := flags + [Flag(LethargyPattern, lethargyRisk)];
    }
    assert flags == Emitted(EmissionOrder[..1], risks);

    var anxietyRisk := Risk(exp, AnxietyPattern, f, s, b);
    if anxietyRisk > DisplayThreshold {
      flags := flags + [Flag(AnxietyPattern, anxietyRisk)];
    }
    assert EmissionOrder[..2][..1] == EmissionOrder[..1];
    assert flags == Emitted(EmissionOrder[..2], risks);

    var respRisk := Risk(exp, RespiratoryStrain, f, s, b);
    if respRisk > DisplayThreshold {
      flags := flags + [Flag(RespiratoryStrain, respRisk)];
    }
    assert EmissionOrder[..3][..2] == EmissionOrder[..2];
    assert flags == Emitted(EmissionOrder[..3], risks);

    var vocalRisk := Risk(exp, VocalStrain, f, s, b);
    if vocalRisk > DisplayThreshold {
      flags := flags + [Flag(VocalStrain, vocalRisk)];
    }
    assert EmissionOrder[..3] == EmissionOrder[..|EmissionOrder| - 1];
    assert flags == Emitted(EmissionOrder, risks);

    EmittedReports(risks);
  }

  /** `POST /api/checkin` without the random id, the clock and the HTTP
      wrapping: store the record, read the updated baseline, score. */
  method CheckIn(db: Store, exp: real -> real, id: string, timestamp: string, f: Features, s: SelfReport)
    returns (flags: seq<Flag>)
    requires ExpLike(exp)
    modifies db
    ensures db.checkIns == old(db.checkIns) + [CheckInRecord(id, timestamp, f, s)]
    ensures db.baseline.windowSize == |db.checkIns|
    ensures db.baseline.avgEnergy == RunningAverage(old(db.baseline.avgEnergy), |db.checkIns|, f.rms)
    ensures db.baseline.avgStress == RunningAverage(old(db.baseline.avgStress), |db.checkIns|, s.stress)
    ensures flags == Emitted(EmissionOrder, RisksOf(exp, f, s, db.baseline))
    ensures old(db.Valid()) ==> db.Valid() && db.baseline.avgEnergy == Mean(Energies(db.checkIns))
  {
    var record := CheckInRecord(id, timestamp, f, s);
    db.AddCheckIn(record);
    var baseline := db.GetBaseline();
    flags := ScoreFlags(exp, f, s, baseline);
  }

  // ---------------------------------------------------------------------
  // Properties of the logistic percent
  // ---------------------------------------------------------------------

  lemma ReciprocalAntitone(a: real, b: real)
    requires 0.0 < a <= b
    ensures 1.0 / b <= 1.0 / a
  {
    assert 1.0 / b * b == 1.0;
    assert 1.0 / a * a == 1.0;
    assert (1.0 / a - 1.0 / b) * (a * b) == b - a;
  }

  /** With a non-negative steepness, the logistic curve never decreases. */
  lemma ToProbMonotone(exp: real -> real, x: real, y: real, steepness: real, shift: real)
    requires ExpLike(exp)
    requires steepness >= 0.0 && x <= y
    ensures ToProb(exp, x, steepness, shift) <= ToProb(exp, y, steepness, shift)
  {
    var ax, ay := -steepness * (x - shift), -steepness * (y - shift);
    assert ax - ay == steepness * (y - x);
    assert ay <= ax;
    assert exp(ay) <= exp(ax);
    ReciprocalAntitone(1.0 + exp(ay), 1.0 + exp(ax));
  }

  /** A higher raw score never yields a lower percent. */
  lemma ToPercentMonotone(exp: real -> real, x: real, y: real, steepness: real, shift: real)
    requires ExpLike(exp)
    requires steepness >= 0.0 && x <= y
    ensures ToPercent(exp, x, steepness, shift) <= ToPercent(exp, y, steepness, shift)
  {
    ToProbMonotone(exp, x, y, steepness, shift);
    RoundMonotone(ToProb(exp, x, steepness, shift) * 100.0, ToProb(exp, y, steepness, shift) * 100.0);
  }

  /** At or past the shift the percent is at least 50, so the category is
      flagged. */
  lemma ToPercentAtLeastHalf(exp: real -> real, raw: real, steepness: real, shift: real)
    requires ExpLike(exp)
    requires steepness >= 0.0 && raw >= shift
    ensures ToPercent(exp, raw, steepness, shift) >= 50
  {
    var a := -steepness * (raw - shift);
    assert a <= 0.0 by {
      assert steepness * (raw - shift) >= 0.0;
    }
    assert exp(a) <= exp(0.0) == 1.0;
    ReciprocalAntitone(1.0 + exp(a), 2.0);
    assert ToProb(exp, raw, steepness, shift) >= 0.5;
  }

  /** Half a steepness unit or more below the shift, the percent is at
      most 40, so the category is not flagged. */
  lemma ToPercentAtMostForty(exp: real -> real, raw: real, steepness: real, shift: real)
    requires ExpLike(exp)
    requires steepness * (shift - raw) >= 0.5
    ensures ToPercent(exp, raw, steepness, shift) <= DisplayThreshold
  {
    var a := -steepness * (raw - shift);
    assert a >= 0.5;
    assert exp(a) >= 1.5;
    ReciprocalAntitone(2.5, 1.0 + exp(a));
    assert ToProb(exp, raw, steepness, shift) <= 0.4;
  }

  /** A category is flagged whenever its raw score reaches its shift. */
  lemma FlaggedAtShift(exp: real -> real, c: Category, f: Features, s: SelfReport, b: Baseline)
    requires ExpLike(exp)
    requires RawScore(c, f, s, b) >= Shift(c)
    ensures Risk(exp, c, f, s, b) > DisplayThreshold
  {
    ToPercentAtLeastHalf(exp, RawScore(c, f, s, b), Steepness(c), Shift(c));
  }

  /** A category whose raw score is 0 is never flagged. */
  lemma NotFlaggedAtZero(exp: real -> real, c: Category, f: Features, s: SelfReport, b: Baseline)
    requires ExpLike(exp)
    requires RawScore(c, f, s, b) == 0.0
    ensures Risk(exp, c, f, s, b) <= DisplayThreshold
  {
    ToPercentAtMostForty(exp, 0.0, Steepness(c), Shift(c));
  }

  /** Anxiety risk never falls as reported stress rises, all else fixed;
      stress at or below 5 contributes nothing. */
  lemma AnxietyMonotoneInStress(exp: real -> real, f: Features, s1: SelfReport, s2: SelfReport, b: Baseline)
    requires ExpLike(exp)
    requires s1.stress <= s2.stress
    ensures Risk(exp, AnxietyPattern, f, s1, b) <= Risk(exp, AnxietyPattern, f, s2, b)
    ensures s2.stress <= 5.0 ==> AnxietyScore(f, s2) == AnxietyScore(f, s2.(stress := 5.0))
  {
    ExcessMonotone(s1.stress, s2.stress, 5.0, 0.8);
    ToPercentMonotone(exp, AnxietyScore(f, s1), AnxietyScore(f, s2), 1.0, 2.0);
  }

  /** With no category of `cs` above the threshold, nothing is emitted. */
  lemma {:induction false} NothingShown(cs: seq<Category>, risks: Risks)
    requires forall i :: 0 <= i < |cs| ==> risks.At(cs[i]) <= DisplayThreshold
    ensures Emitted(cs, risks) == []
  {
    if cs != [] {
      var init := cs[..|cs| - 1];
      assert forall i :: 0 <= i < |init| ==> init[i] == cs[i];
      NothingShown(init, risks);
    }
  }

  /** A check-in that matches its baseline and stays inside every trigger
      threshold raises no flag. */
  lemma CalmCheckInRaisesNoFlags(exp: real -> real, f: Features, s: SelfReport, b: Baseline)
    requires ExpLike(exp)
    requires f.rms >= b.avgEnergy && f.rms <= 0.2
    requires 3.5 <= f.speechRate <= 4.5 && f.zcr <= 0.1 && f.pauseRatio <= 0.3
    requires s.stress <= 5.0
    ensures Emitted(EmissionOrder, RisksOf(exp, f, s, b)) == []
  {
    var risks := RisksOf(exp, f, s, b);
    forall c | c in EmissionOrder ensures risks.At(c) <= DisplayThreshold {
      assert RawScore(c, f, s, b) == 0.0;
      NotFlaggedAtZero(exp, c, f, s, b);
    }
    NothingShown(EmissionOrder, risks);
  }

  /** The anxiety percent at raw score 1.6: `exp(0.4)` within 1% of its
      value (1.4918...), that is between 1.4768 and 1.5068, puts the
      probability in [0.395, 0.404], which rounds to 40. */
  lemma PercentAtOnePointSix(exp: real -> real)
    requires ExpLike(exp)
    requires 1.4768 <= exp(0.4) <= 1.5068
    ensures ToPercent(exp, 1.6, 1.0, 2.0) == 40
  {
    var e := exp(0.4);
    assert -1.0 * (1.6 - 2.0) == 0.4;
    var p := ToProb(exp, 1.6, 1.0, 2.0);
    assert p == 1.0 / (1.0 + e);
    assert 0.395 <= p by {
      ReciprocalAntitone(1.0 + e, 2.5068);
    }
    assert p <= 0.404 by {
      ReciprocalAntitone(2.4768, 1.0 + e);
    }
    assert Round(p * 100.0) == 40;
  }

  /** Stress 9 alone (slow, quiet speech with low ZCR) gives an anxiety
      raw score of 1.6, below the shift of 2: the percent is 40 and the
      anxiety flag is not raised, while lethargy and respiratory strain
      are. Needs `exp(0.4)` to within 1% (its value is 1.4918...). */
  lemma StressNineAloneIsNotAnxious(exp: real -> real)
    requires ExpLike(exp)
    requires 1.4768 <= exp(0.4) <= 1.5068
    ensures var f := Features(0.1, 0.05, 2.0, 0.5);
            var s := SelfReport(9.0, 5.0);
            var b := Baseline(0.5, 5.0, 1);
            && Risk(exp, LethargyPattern, f, s, b) > DisplayThreshold
            && Risk(exp, AnxietyPattern, f, s, b) == 40
            && Risk(exp, RespiratoryStrain, f, s, b) > DisplayThreshold
            && Risk(exp, VocalStrain, f, s, b) <= DisplayThreshold
  {
    var f := Features(0.1, 0.05, 2.0, 0.5);
    var s := SelfReport(9.0, 5.0);
    var b := Baseline(0.5, 5.0, 1);
    assert LethargyScore(f, b) == 6.25 by {
      assert EnergyFactor(f.rms, b.avgEnergy) == 8.0;
    }
    FlaggedAtShift(exp, LethargyPattern, f, s, b);
    assert RespiratoryScore(f) == 2.55;
    FlaggedAtShift(exp, RespiratoryStrain, f, s, b);
    NotFlaggedAtZero(exp, VocalStrain, f, s, b);
    assert AnxietyScore(f, s) == 1.6;
    PercentAtOnePointSix(exp);
  }
}
