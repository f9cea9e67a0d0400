/** The check-in payload schema: which JSON bodies the check-in and risk
    endpoints accept, and the typed record they turn an accepted body into. */
module CheckInSchema {
  import opened Basics
  import opened JsStrings
  import Risk

  /** The body as received: one JSON value per known key (`Undefined` when the
      key is missing). Unknown keys are dropped by the schema and not modelled. */
  datatype RawCheckIn = RawCheckIn(
    sleepHours: Json,
    socialActivity: Json,
    screenTimeHours: Json,
    moodRating: Json,
    logDate: Json,
    timezone: Json,
    notes: Json)

  /** An accepted body. */
  datatype CheckInInput = CheckInInput(
    sleepHours: real,
    socialActivity: Risk.SocialActivity,
    screenTimeHours: real,
    moodRating: Option<real>,
    logDate: Option<string>,
    timezone: Option<string>,
    notes: Option<string>)

  const MaxNotesLength := 4000

  /** `z.number().min(lo).max(hi)`. */
  function NumberIn(j: Json, lo: real, hi: real): Option<real>
  {
    if j.Num? && lo <= j.n <= hi then Some(j.n) else None
  }

  /** `z.enum(["low", "medium", "high"])`. */
  function SocialActivityOf(j: Json): Option<Risk.SocialActivity>
  {
    if j == Str("low") then Some(Risk.Low)
    else if j == Str("medium") then Some(Risk.Medium)
    else if j == Str("high") then Some(Risk.High)
    else None
  }

  /** `\d` without the `u` flag: an ASCII digit. */
  predicate IsDigit(c: char)
  {
    '0' <= c <= '9'
  }

  /** The regular expression `^\d{4}-\d{2}-\d{2}$`: four digits, '-', two
      digits, '-', two digits, and nothing else. Month and day are not range-checked. */
  predicate MatchesDatePattern(s: string)
  {
    |s| == 10 && s[4] == '-' && s[7] == '-' &&
    IsDigit(s[0]) && IsDigit(s[1]) && IsDigit(s[2]) && IsDigit(s[3]) &&
    IsDigit(s[5]) && IsDigit(s[6]) && IsDigit(s[8]) && IsDigit(s[9])
  }

  /** An `.optional()` field: `Some(None)` when the key is missing, `Some(Some(x))`
      when present and accepted, `None` when present and rejected (`null` included). */
  function OptionalNumberIn(j: Json, lo: real, hi: real): Option<Option<real>>
  {
    if j == Undefined then Some(None)
    else if j.Num? && lo <= j.n <= hi then Some(Some(j.n))
    else None
  }

  function OptionalDate(j: Json): Option<Option<string>>
  {
    if j == Undefined then Some(None)
    else if j.Str? && MatchesDatePattern(j.s) then Some(Some(j.s))
    else None
  }

  /** `z.string().min(1).optional()`: lengths count UTF-16 code units. */
  function OptionalNonEmpty(j: Json): Option<Option<string>>
  {
    if j == Undefined then Some(None)
    else if j.Str? && Utf16Length(j.s) >= 1 then Some(Some(j.s))
    else None
  }

  /** `z.string().max(4000).optional()`. */
  function OptionalNotes(j: Json): Option<Option<string>>
  {
    if j == Undefined then Some(None)
    else if j.Str? && Utf16Length(j.s) <= MaxNotesLength then Some(Some(j.s))
    else None
  }

  /** `checkInSchema.safeParse`: the typed record when every field is accepted.
      Every field of an accepted record is within its bounds. */
  function Parse(raw: RawCheckIn): (r: Option<CheckInInput>)
    ensures r.Some? ==>
      && 0.0 <= r.value.sleepHours <= 24.0
      && 0.0 <= r.value.screenTimeHours <= 24.0
      && (r.value.moodRating.Some? ==> 1.0 <= r.value.moodRating.value <= 5.0)
      && (r.value.logDate.Some? ==> MatchesDatePattern(r.value.logDate.value))
      && (r.value.timezone.Some? ==> r.value.timezone.value != [])
      && (r.value.notes.Some? ==> Utf16Length(r.value.notes.value) <= MaxNotesLength)
  {
    var sleep := NumberIn(raw.sleepHours, 0.0, 24.0);
    var social := SocialActivityOf(raw.socialActivity);
    var screen := NumberIn(raw.screenTimeHours, 0.0, 24.0);
    var mood := OptionalNumberIn(raw.moodRating, 1.0, 5.0);
    var logDate := OptionalDate(raw.logDate);
    var timezone := OptionalNonEmpty(raw.timezone);
    var notes := OptionalNotes(raw.notes);
    if sleep.Some? && social.Some? && screen.Some? && mood.Some? &&
       logDate.Some? && timezone.Some? && notes.Some?
    then Some(CheckInInput(sleep.value, social.value, screen.value, mood.value,
                           logDate.value, timezone.value, notes.value))
    else None
  }

  /** The fields the risk engine reads. */
  function ToObservation(v: CheckInInput): Risk.Observation
  {
    Risk.Observation(v.sleepHours, v.socialActivity, v.screenTimeHours, v.moodRating)
  }

  // ---------------------------------------------------------------------------
  // What the schema accepts.
  // ---------------------------------------------------------------------------

  /** A body is accepted exactly when every field meets its own constraint. */
  lemma AcceptsExactly(raw: RawCheckIn)
    ensures Parse(raw).Some? <==>
      && raw.sleepHours.Num? && 0.0 <= raw.sleepHours.n <= 24.0
      && raw.socialActivity in {Str("low"), Str("medium"), Str("high")}
      && raw.screenTimeHours.Num? && 0.0 <= raw.screenTimeHours.n <= 24.0
      && (raw.moodRating == Undefined || (raw.moodRating.Num? && 1.0 <= raw.moodRating.n <= 5.0))
      && (raw.logDate == Undefined || (raw.logDate.Str? && MatchesDatePattern(raw.logDate.s)))
      && (raw.timezone == Undefined || (raw.timezone.Str? && raw.timezone.s != []))
      && (raw.notes == Undefined || (raw.notes.Str? && Utf16Length(raw.notes.s) <= MaxNotesLength))
  {
    if raw.timezone.Str? {
      assert Utf16Length(raw.timezone.s) >= 1 <==> raw.timezone.s != [];
    }
  }

  /** An accepted body keeps its values: nothing is rounded, defaulted or
      converted, and a missing optional key stays missing. */
  lemma AcceptedValuesAreTheSent(raw: RawCheckIn)
    requires Parse(raw).Some?
    ensures var v := Parse(raw).value;
      && raw.sleepHours == Num(v.sleepHours)
      && raw.screenTimeHours == Num(v.screenTimeHours)
      && raw.socialActivity == Str(SocialActivityName(v.socialActivity))
      && (v.moodRating.None? <==> raw.moodRating == Undefined)
      && (v.moodRating.Some? ==> raw.moodRating == Num(v.moodRating.value))
      && (v.logDate.None? <==> raw.logDate == Undefined)
      && (v.logDate.Some? ==> raw.logDate == Str(v.logDate.value))
      && (v.timezone.None? <==> raw.timezone == Undefined)
      && (v.timezone.Some? ==> raw.timezone == Str(v.timezone.value))
      && (v.notes.None? <==> raw.notes == Undefined)
      && (v.notes.Some? ==> raw.notes == Str(v.notes.value))
  {
  }

  function SocialActivityName(a: Risk.SocialActivity): string
  {
    match a
    case Low => "low"
    case Medium => "medium"
    case High => "high"
  }

  /** `null` is not "absent": an optional field sent as `null` is rejected. */
  lemma NullIsNotAbsent(raw: RawCheckIn)
    requires raw.moodRating == Null || raw.logDate == Null || raw.timezone == Null || raw.notes == Null
    ensures Parse(raw).None?
  {
  }

  /** The mood range is checked but integrality is not: 3.5 is accepted. */
  lemma FractionalMoodAccepted()
    ensures Parse(RawCheckIn(Num(8.0), Str("high"), Num(2.0), Num(3.5), Undefined, Undefined, Undefined))
      == Some(CheckInInput(8.0, Risk.High, 2.0, Some(3.5), None, None, None))
  {
  }

  /** The date check is a shape check only: month 99 and day 99 pass, while a
      one-digit month or a trailing newline does not. */
  lemma DateShapeOnly()
    ensures MatchesDatePattern("2024-99-99")
    ensures MatchesDatePattern("2024-01-31")
    ensures !MatchesDatePattern("2024-1-01")
    ensures !MatchesDatePattern("2024-01-01\n")
    ensures !MatchesDatePattern("24-01-2024")
  {
  }

  /** Notes are limited to 4000 UTF-16 code units, which is fewer than 4000
      characters once a character outside the Basic Multilingual Plane is involved. */
  lemma NotesLengthCountsCodeUnits(s: string)
    requires |s| == MaxNotesLength && exists i :: 0 <= i < |s| && s[i] as int >= 0x10000
    ensures OptionalNotes(Str(s)).None?
  {
    var i :| 0 <= i < |s| && s[i] as int >= 0x10000;
    Utf16LengthOfWide(s, i);
  }

  lemma {:induction false} Utf16LengthOfWide(s: string, i: int)
    requires 0 <= i < |s| && s[i] as int >= 0x10000
    ensures Utf16Length(s) > |s|
  {
    if i > 0 {
      Utf16LengthOfWide(s[1..], i - 1);
    }
  }

  /** For an accepted body the engine's clamps change nothing: the hours and
      the mood are scored as sent. */
  lemma ClampsAreNoOpsOnAcceptedInput(raw: RawCheckIn)
    requires Parse(raw).Some?
    ensures var v := Parse(raw).value;
      && Risk.Clamp(v.sleepHours, 0.0, 24.0) == v.sleepHours
      && Risk.Clamp(v.screenTimeHours, 0.0, 24.0) == v.screenTimeHours
      && (v.moodRating.Some? ==> Risk.Clamp(v.moodRating.value, 1.0, 5.0) == v.moodRating.value)
      && Risk.Assessment(ToObservation(v)).score ==
           Risk.SleepFactor(v.sleepHours).points + Risk.SocialFactor(v.socialActivity).points +
           Risk.ScreenFactor(v.screenTimeHours).points + Risk.MoodFactor(v.moodRating).points
  {
  }
}
