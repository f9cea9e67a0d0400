/** The heuristic risk-assessment engine: a check-in's sleep, social activity,
    screen time and optional mood are scored factor by factor, the points are
    summed, and the sum is cut into a low / medium / high level. */
module Risk {
  import opened Basics

  datatype SocialActivity = Low | Medium | High

  datatype RiskLevel = LowRisk | MediumRisk | HighRisk

  /** The fields of a check-in the engine reads. Hours and mood are finite reals. */
  datatype Observation = Observation(
    sleepHours: real,
    socialActivity: SocialActivity,
    screenTimeHours: real,
    moodRating: Option<real>)

  datatype RiskAssessment = RiskAssessment(score: int, level: RiskLevel, reasons: seq<string>)

  const LowSleep := "Low sleep (<6h)"
  const BorderlineSleep := "Borderline sleep (6\U{2013}7h)"
  const HighSleep := "High sleep (>9h)"
  const LowSocial := "Low social activity"
  const ModerateSocial := "Moderate social activity"
  const HighScreen := "High screen time (>8h)"
  const ModerateScreen := "Moderate screen time (5\U{2013}8h)"
  const LowMood := "Low mood (1\U{2013}2)"
  const NeutralMood := "Neutral mood (3)"

  /** Every reason the engine can give, in the order the rules are evaluated. */
  const Catalogue: seq<string> :=
    [LowSleep, BorderlineSleep, HighSleep, LowSocial, ModerateSocial,
     HighScreen, ModerateScreen, LowMood, NeutralMood]

  /** `Math.min(hi, Math.max(lo, n))`. */
  function Clamp(n: real, lo: real, hi: real): (r: real)
    ensures r <= hi
    ensures lo <= hi ==> lo <= r
    ensures lo <= n <= hi ==> r == n
    ensures n < lo <= hi ==> r == lo
    ensures hi < n ==> r == hi
  {
    var m := if lo < n then n else lo;
    if m < hi then m else hi
  }

  // ---------------------------------------------------------------------------
  // Specification: each factor on its own, then summed.
  // ---------------------------------------------------------------------------

  /** What one factor adds: its points and the reason it gives, if any. */
  datatype Contribution = Contribution(points: nat, reasons: seq<string>)

  /** A factor adds at most 2 points and gives a reason exactly when it adds any. */
  predicate WellFormed(c: Contribution)
  {
    c.points <= 2 && |c.reasons| <= 1 && (c.points == 0 <==> c.reasons == [])
  }

  /** Sleep, already clamped to [0, 24]. */
  function SleepFactor(sleep: real): (c: Contribution)
    ensures WellFormed(c)
  {
    if sleep < 6.0 then Contribution(2, [LowSleep])
    else if sleep < 7.0 then Contribution(1, [BorderlineSleep])
    else if sleep > 9.0 then Contribution(1, [HighSleep])
    else Contribution(0, [])
  }

  function SocialFactor(a: SocialActivity): (c: Contribution)
    ensures WellFormed(c)
  {
    match a
    case Low => Contribution(2, [LowSocial])
    case Medium => Contribution(1, [ModerateSocial])
    case High => Contribution(0, [])
  }

  /** Screen time, already clamped to [0, 24]. */
  function ScreenFactor(screen: real): (c: Contribution)
    ensures WellFormed(c)
  {
    if screen > 8.0 then Contribution(2, [HighScreen])
    else if screen >= 5.0 then Contribution(1, [ModerateScreen])
    else Contribution(0, [])
  }

  /** Mood: nothing when absent; otherwise clamped to [1, 5] first. */
  function MoodFactor(mood: Option<real>): (c: Contribution)
    ensures WellFormed(c)
  {
    match mood
    case None => Contribution(0, [])
    case Some(m) =>
      var v := Clamp(m, 1.0, 5.0);
      if v <= 2.0 then Contribution(2, [LowMood])
      else if v == 3.0 then Contribution(1, [NeutralMood])
      else Contribution(0, [])
  }

  /** The fixed cut points: high from 6, medium from 3, low below. */
  function LevelOf(score: int): (level: RiskLevel)
    ensures level == HighRisk <==> score >= 6
    ensures level == MediumRisk <==> 3 <= score < 6
    ensures level == LowRisk <==> score < 3
  {
    if score >= 6 then HighRisk else if score >= 3 then MediumRisk else LowRisk
  }

  /** The assessment the engine must produce for `obs`: the four factors'
      points summed, their reasons concatenated in evaluation order. Each
      factor adds 0, 1 or 2, so the score lies in [0, 8], the range the trend
      chart draws; there is one reason per triggered rule, so at least one
      point per reason and at most two, and no reasons exactly when the
      score is 0. */
  function Assessment(obs: Observation): (r: RiskAssessment)
    ensures 0 <= r.score <= 8
    ensures |r.reasons| <= r.score <= 2 * |r.reasons|
    ensures r.reasons == [] <==> r.score == 0
    ensures |r.reasons| <= 4
  {
    var s := SleepFactor(Clamp(obs.sleepHours, 0.0, 24.0));
    var a := SocialFactor(obs.socialActivity);
    var t := ScreenFactor(Clamp(obs.screenTimeHours, 0.0, 24.0));
    var m := MoodFactor(obs.moodRating);
    var score := s.points + a.points + t.points + m.points;
    RiskAssessment(score, LevelOf(score), s.reasons + a.reasons + t.reasons + m.reasons)
  }

  // ---------------------------------------------------------------------------
  // The engine as the source runs it: an accumulator and a growing reason list.
  // ---------------------------------------------------------------------------

  method AssessRisk(input: Observation) returns (r: RiskAssessment)
    ensures r == Assessment(input)
  {
    var score := 0;
    var reasons: seq<string> := [];

    var sleep := Clamp(input.sleepHours, 0.0, 24.0);
    var screen := Clamp(input.screenTimeHours, 0.0, 24.0);

    if sleep < 6.0 {
      score := score + 2;
      reasons := reasons + [LowSleep];
    } else if sleep < 7.0 {
      score := score + 1;
      reasons := reasons + [BorderlineSleep];
    } else if sleep > 9.0 {
      score := score + 1;
      reasons := reasons + [HighSleep];
    }
    ghost var s := SleepFactor(sleep);
    assert score == s.points && reasons == s.reasons;

    if input.socialActivity == Low {
      score := score + 2;
      reasons := reasons + [LowSocial];
    } else if input.socialActivity == Medium {
      score := score + 1;
      reasons := reasons + [ModerateSocial];
    }
    ghost var a := SocialFactor(input.socialActivity);
    assert score == s.points + a.points && reasons == s.reasons + a.reasons;

    if screen > 8.0 {
      score := score + 2;
      reasons := reasons + [HighScreen];
    } else if screen >= 5.0 {
      score := score + 1;
      reasons := reasons + [ModerateScreen];
    }
    ghost var t := ScreenFactor(screen);
    assert score == s.points + a.points + t.points && reasons == s.reasons + a.reasons + t.reasons;

    if input.moodRating.Some? {
      var mood := Clamp(input.moodRating.value, 1.0, 5.0);
      if mood <= 2.0 {
        score := score + 2;
        reasons := reasons + [LowMood];
      } else if mood == 3.0 {
        score := score + 1;
        reasons := reasons + [NeutralMood];
      }
    }
    ghost var m := MoodFactor(input.moodRating);
    assert score == s.points + a.points + t.points + m.points;
    assert reasons == s.reasons + a.reasons + t.reasons + m.reasons;

    var level := if score >= 6 then HighRisk else if score >= 3 then MediumRisk else LowRisk;
    r := RiskAssessment(score, level, reasons);
  }

  // ---------------------------------------------------------------------------
  // Properties of the assessment.
  // ---------------------------------------------------------------------------

  /** The level is the cut of the score. */
  lemma LevelFollowsScore(obs: Observation)
    ensures Assessment(obs).level == HighRisk <==> Assessment(obs).score >= 6
    ensures Assessment(obs).level == MediumRisk <==> 3 <= Assessment(obs).score < 6
    ensures Assessment(obs).level == LowRisk <==> Assessment(obs).score < 3
  {
  }

  /** Sleep bands, stated on the raw (unclamped) hours. */
  lemma SleepBands(hours: real)
    ensures SleepFactor(Clamp(hours, 0.0, 24.0)).points == 2 <==> hours < 6.0
    ensures SleepFactor(Clamp(hours, 0.0, 24.0)).points == 1 <==> (6.0 <= hours < 7.0 || hours > 9.0)
    ensures SleepFactor(Clamp(hours, 0.0, 24.0)).points == 0 <==> 7.0 <= hours <= 9.0
  {
  }

  /** Screen-time bands, stated on the raw hours. */
  lemma ScreenBands(hours: real)
    ensures ScreenFactor(Clamp(hours, 0.0, 24.0)).points == 2 <==> hours > 8.0
    ensures ScreenFactor(Clamp(hours, 0.0, 24.0)).points == 1 <==> 5.0 <= hours <= 8.0
    ensures ScreenFactor(Clamp(hours, 0.0, 24.0)).points == 0 <==> hours < 5.0
  {
  }

  lemma SocialPoints(a: SocialActivity)
    ensures SocialFactor(a).points == 2 <==> a == Low
    ensures SocialFactor(a).points == 1 <==> a == Medium
    ensures SocialFactor(a).points == 0 <==> a == High
  {
  }

  /** Mood bands, stated on the raw rating: absent adds nothing; at most 2 adds 2;
      exactly 3 adds 1; anything else (4, 5, 3.5, 99) adds 0. */
  lemma MoodBands(mood: Option<real>)
    ensures mood.None? ==> MoodFactor(mood) == Contribution(0, [])
    ensures mood.Some? ==> (MoodFactor(mood).points == 2 <==> mood.value <= 2.0)
    ensures mood.Some? ==> (MoodFactor(mood).points == 1 <==> mood.value == 3.0)
    ensures mood.Some? ==> (MoodFactor(mood).points == 0 <==> (2.0 < mood.value && mood.value != 3.0))
  {
  }

  /** Hours outside [0, 24] score exactly like the nearest bound. */
  lemma OutOfRangeHoursScoreAsBound(obs: Observation)
    ensures obs.sleepHours < 0.0 ==> Assessment(obs) == Assessment(obs.(sleepHours := 0.0))
    ensures obs.sleepHours > 24.0 ==> Assessment(obs) == Assessment(obs.(sleepHours := 24.0))
    ensures obs.screenTimeHours < 0.0 ==> Assessment(obs) == Assessment(obs.(screenTimeHours := 0.0))
    ensures obs.screenTimeHours > 24.0 ==> Assessment(obs) == Assessment(obs.(screenTimeHours := 24.0))
  {
  }

  /** A present mood adds exactly its own factor on top of the assessment
      without mood: its points to the score and its reason at the end. */
  lemma MoodIsLastAndSeparate(obs: Observation, m: real)
    ensures var without := Assessment(obs.(moodRating := None));
            var with := Assessment(obs.(moodRating := Some(m)));
            with.score == without.score + MoodFactor(Some(m)).points &&
            with.reasons == without.reasons + MoodFactor(Some(m)).reasons
  {
  }

  /** The position of a reason in the catalogue (9 if it is not there). */
  function Rank(reason: string): (k: nat)
    ensures k <= |Catalogue|
    ensures k < |Catalogue| ==> Catalogue[k] == reason
  {
    if reason == LowSleep then 0
    else if reason == BorderlineSleep then 1
    else if reason == HighSleep then 2
    else if reason == LowSocial then 3
    else if reason == ModerateSocial then 4
    else if reason == HighScreen then 5
    else if reason == ModerateScreen then 6
    else if reason == LowMood then 7
    else if reason == NeutralMood then 8
    else 9
  }

  /** Reasons come from the catalogue, in catalogue order (sleep, social,
      screen, mood), each at most once. */
  lemma ReasonsInRuleOrder(obs: Observation)
    ensures forall i :: 0 <= i < |Assessment(obs).reasons| ==>
      Rank(Assessment(obs).reasons[i]) < |Catalogue|
    ensures forall i, j :: 0 <= i < j < |Assessment(obs).reasons| ==>
      Rank(Assessment(obs).reasons[i]) < Rank(Assessment(obs).reasons[j])
  {
    var s := SleepFactor(Clamp(obs.sleepHours, 0.0, 24.0)).reasons;
    var a := SocialFactor(obs.socialActivity).reasons;
    var t := ScreenFactor(Clamp(obs.screenTimeHours, 0.0, 24.0)).reasons;
    var m := MoodFactor(obs.moodRating).reasons;
    assert forall x :: x in s ==> Rank(x) < 3;
    assert forall x :: x in a ==> 3 <= Rank(x) < 5;
    assert forall x :: x in t ==> 5 <= Rank(x) < 7;
    assert forall x :: x in m ==> 7 <= Rank(x) < 9;
    InOrder(s, a, t, m);
  }

  /** Four groups of at most one reason each, with increasing rank bands,
      concatenate in rank order. */
  lemma InOrder(s: seq<string>, a: seq<string>, t: seq<string>, m: seq<string>)
    requires |s| <= 1 && |a| <= 1 && |t| <= 1 && |m| <= 1
    requires forall x :: x in s ==> Rank(x) < 3
    requires forall x :: x in a ==> 3 <= Rank(x) < 5
    requires forall x :: x in t ==> 5 <= Rank(x) < 7
    requires forall x :: x in m ==> 7 <= Rank(x) < 9
    ensures forall i :: 0 <= i < |s + a + t + m| ==> Rank((s + a + t + m)[i]) < |Catalogue|
    ensures forall i, j :: 0 <= i < j < |s + a + t + m| ==> Rank((s + a + t + m)[i]) < Rank((s + a + t + m)[j])
  {
    var all := s + a + t + m;
    var n0, n1, n2 := |s|, |s| + |a|, |s| + |a| + |t|;
    forall i | 0 <= i < |all|
      ensures i < n0 ==> Rank(all[i]) < 3
      ensures n0 <= i < n1 ==> 3 <= Rank(all[i]) < 5
      ensures n1 <= i < n2 ==> 5 <= Rank(all[i]) < 7
      ensures n2 <= i ==> 7 <= Rank(all[i]) < 9
    {
      if i < n0 {
        assert all[i] == s[i];
      } else if i < n1 {
        assert all[i] == a[i - n0];
      } else if i < n2 {
        assert all[i] == t[i - n1];
      } else {
        assert all[i] == m[i - n2];
      }
    }
  }

  /** Presentation: the display label of a level. */
  function RiskLabel(level: RiskLevel): (text: string)
    ensures text != []
  {
    match level
    case LowRisk => "Low"
    case MediumRisk => "Medium"
    case HighRisk => "High"
  }

  /** Presentation: the style token of a level. */
  function RiskColor(level: RiskLevel): (token: string)
    ensures token != []
  {
    match level
    case LowRisk => "bg-emerald-500/15 text-emerald-200 ring-1 ring-emerald-400/30"
    case MediumRisk => "bg-amber-500/15 text-amber-100 ring-1 ring-amber-400/30"
    case HighRisk => "bg-rose-500/15 text-rose-100 ring-1 ring-rose-400/30"
  }

  /** Label and colour tell the three levels apart. */
  lemma PresentationDistinguishesLevels(a: RiskLevel, b: RiskLevel)
    ensures RiskLabel(a) == RiskLabel(b) <==> a == b
    ensures RiskColor(a) == RiskColor(b) <==> a == b
  {
  }

  /** Four worked examples: all clear, everything at its worst, three
      borderline factors, and long sleep with a neutral mood. */
  lemma WorkedExamples()
    ensures Assessment(Observation(8.0, High, 2.0, Some(5.0))) == RiskAssessment(0, LowRisk, [])
    ensures Assessment(Observation(5.0, Low, 9.0, Some(1.0))) ==
      RiskAssessment(8, HighRisk, [LowSleep, LowSocial, HighScreen, LowMood])
    ensures Assessment(Observation(6.5, Medium, 6.0, None)) ==
      RiskAssessment(3, MediumRisk, [BorderlineSleep, ModerateSocial, ModerateScreen])
    ensures Assessment(Observation(10.0, High, 1.0, Some(3.0))) ==
      RiskAssessment(2, LowRisk, [HighSleep, NeutralMood])
  {
  }
}
