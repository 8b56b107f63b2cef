/**
 * Pure helpers of the coaching page: the demonstration-video file name built from
 * an exercise name, the once-a-second countdowns of the exercise check dialog, the
 * chat's text-message guard, the fixed training plan, the typed-out subtitle of the
 * speech fallback, and the check dialog's feedback message.
 */
module CoachPage {
  import opened Text

  // ----- Demonstration videos -----

  /** The exercises that have a demonstration video instead of the live camera. */
  const ExercisesWithVideos: seq<string> := ["Bicep curl", "Dumbbell Bench Press", "One-Arm Dumbbell Row", "Plank"]

  /** A character the file-name filter keeps: `[a-z0-9-]`. */
  predicate IsSlugChar(c: char) {
    ('a' <= c <= 'z') || ('0' <= c <= '9') || c == '-'
  }

  predicate IsUpperAscii(c: char) {
    'A' <= c <= 'Z'
  }

  function LowerAscii(c: char): (l: char)
    ensures !IsUpperAscii(l)
    ensures !IsUpperAscii(c) ==> l == c
  {
    if IsUpperAscii(c) then (c as int + 32) as char else c
  }

  /** `toLowerCase()`, for the ASCII letters. */
  function ToLower(s: string): (r: string)
    ensures |r| == |s|
    ensures forall i :: 0 <= i < |s| ==> r[i] == LowerAscii(s[i])
  {
    if s == [] then [] else [LowerAscii(s[0])] + ToLower(s[1..])
  }

  /**
   * `replace(/\s+/g, '-')`: every maximal run of white space becomes one hyphen.
   * `inRun` says whether the character before `s` was white space.
   */
  function Hyphenate(s: string, inRun: bool): (r: string)
    ensures |r| <= |s|
    ensures forall i :: 0 <= i < |r| ==> !IsJsSpace(r[i])
  {
    if s == [] then []
    else if IsJsSpace(s[0]) then (if inRun then [] else ['-']) + Hyphenate(s[1..], true)
    else [s[0]] + Hyphenate(s[1..], false)
  }

  function CollapseSpace(s: string): (r: string)
    ensures |r| <= |s|
    ensures forall i :: 0 <= i < |r| ==> !IsJsSpace(r[i])
  {
    Hyphenate(s, false)
  }

  /** `replace(/[^a-z0-9-]/g, '')`: keeps exactly the file-name characters, in order. */
  function KeepSlugChars(s: string): (r: string)
    ensures |r| <= |s|
    ensures forall i :: 0 <= i < |r| ==> IsSlugChar(r[i])
  {
    if s == [] then []
    else if IsSlugChar(s[0]) then [s[0]] + KeepSlugChars(s[1..])
    else KeepSlugChars(s[1..])
  }

  /** The video file name of an exercise: lower-cased, white space runs hyphenated, other characters dropped. */
  function Slug(name: string): (slug: string)
    ensures forall i :: 0 <= i < |slug| ==> IsSlugChar(slug[i])
  {
    KeepSlugChars(CollapseSpace(ToLower(name)))
  }

  /** The public path of an exercise's demonstration video. */
  function VideoPath(name: string): (path: string)
    ensures |path| == |Slug(name)| + 11
    ensures path[..1] == "/" && path[|path| - 10..] == "-video.mp4"
    ensures path[1..|path| - 10] == Slug(name)
  {
    "/" + Slug(name) + "-video.mp4"
  }

  lemma {:induction false} ToLowerKeepsLower(s: string)
    requires forall i :: 0 <= i < |s| ==> !IsUpperAscii(s[i])
    ensures ToLower(s) == s
  {
  }

  lemma {:induction false} HyphenateSpaceless(s: string, inRun: bool)
    requires forall i :: 0 <= i < |s| ==> !IsJsSpace(s[i])
    ensures Hyphenate(s, inRun) == s
  {
    if s != [] {
      HyphenateSpaceless(s[1..], false);
      assert s == [s[0]] + s[1..];
    }
  }

  lemma CollapseSpaceKeepsSpaceless(s: string)
    requires forall i :: 0 <= i < |s| ==> !IsJsSpace(s[i])
    ensures CollapseSpace(s) == s
  {
    HyphenateSpaceless(s, false);
  }

  /** The filter keeps every file-name character of its input and nothing else. */
  lemma {:induction false} KeepSlugCharsMembers(s: string, c: char)
    ensures c in KeepSlugChars(s) <==> c in s && IsSlugChar(c)
  {
    if s != [] {
      KeepSlugCharsMembers(s[1..], c);
      assert s == [s[0]] + s[1..];
    }
  }

  /** On one character the filter keeps it exactly when it is a file-name character. */
  lemma KeepSlugCharsSingle(c: char)
    ensures KeepSlugChars([c]) == if IsSlugChar(c) then [c] else []
  {
    assert [c][1..] == [];
  }

  /**
   * The filter works character by character: filtering a concatenation is filtering
   * each part, so the kept characters stay in their order and keep their count.
   */
  lemma {:induction false} KeepSlugCharsConcat(a: string, b: string)
    ensures KeepSlugChars(a + b) == KeepSlugChars(a) + KeepSlugChars(b)
    decreases |a|
  {
    if a != [] {
      assert (a + b)[0] == a[0];
      assert (a + b)[1..] == a[1..] + b;
      KeepSlugCharsConcat(a[1..], b);
    } else {
      assert a + b == b;
    }
  }

  lemma {:induction false} KeepSlugCharsKeepsSlug(s: string)
    requires forall i :: 0 <= i < |s| ==> IsSlugChar(s[i])
    ensures KeepSlugChars(s) == s
  {
    if s != [] {
      KeepSlugCharsKeepsSlug(s[1..]);
      assert s == [s[0]] + s[1..];
    }
  }

  /** A file name is its own file name: applying the conversion twice changes nothing more. */
  lemma SlugIdempotent(name: string)
    ensures Slug(Slug(name)) == Slug(name)
  {
    var slug := Slug(name);
    ToLowerKeepsLower(slug);
    CollapseSpaceKeepsSpaceless(slug);
    KeepSlugCharsKeepsSlug(slug);
  }

  /** The file name does not depend on the case of the ASCII letters in the exercise name. */
  lemma SlugIgnoresCase(name: string)
    ensures Slug(ToLower(name)) == Slug(name)
  {
    ToLowerKeepsLower(ToLower(name));
  }

  lemma {:induction false} CollapseSpaceWord(a: string, s: string)
    requires forall i :: 0 <= i < |a| ==> !IsJsSpace(a[i])
    ensures CollapseSpace(a + s) == a + CollapseSpace(s)
  {
    if a != [] {
      CollapseSpaceWord(a[1..], s);
      assert (a + s)[1..] == a[1..] + s;
      assert a == [a[0]] + a[1..];
    } else {
      assert a + s == s;
    }
  }

  /** A run of white space, however long and of whatever kind, becomes a single hyphen. */
  lemma CollapseRun(run: string, s: string)
    requires |run| > 0 && forall i :: 0 <= i < |run| ==> IsJsSpace(run[i])
    requires s == [] || !IsJsSpace(s[0])
    ensures CollapseSpace(run + s) == "-" + CollapseSpace(s)
  {
    RunInRun(run[1..], s);
    assert (run + s)[1..] == run[1..] + s;
  }

  lemma {:induction false} RunInRun(run: string, s: string)
    requires forall i :: 0 <= i < |run| ==> IsJsSpace(run[i])
    requires s == [] || !IsJsSpace(s[0])
    ensures Hyphenate(run + s, true) == Hyphenate(s, false)
  {
    if run != [] {
      RunInRun(run[1..], s);
      assert (run + s)[1..] == run[1..] + s;
    } else {
      assert run + s == s;
    }
  }

  /** A name made of ASCII letters, digits, hyphens and single spaces, like every exercise name the page lists. */
  predicate PlainName(name: string) {
    && (forall i :: 0 <= i < |name| ==> IsUpperAscii(name[i]) || IsSlugChar(name[i]) || name[i] == ' ')
    && (forall i :: 0 < i < |name| && name[i] == ' ' ==> name[i - 1] != ' ')
  }

  /** The plain reading of the file name: lower case, with each space replaced by a hyphen. */
  function Dashed(name: string): (r: string) {
    seq(|name|, i requires 0 <= i < |name| => if name[i] == ' ' then '-' else LowerAscii(name[i]))
  }

  /** `s` with each space replaced by a hyphen. */
  function DashSpaces(s: string): (r: string) {
    seq(|s|, i requires 0 <= i < |s| => if s[i] == ' ' then '-' else s[i])
  }

  lemma {:induction false} HyphenateSingleSpaces(s: string, inRun: bool)
    requires forall i :: 0 <= i < |s| ==> s[i] == ' ' || !IsJsSpace(s[i])
    requires forall i :: 0 < i < |s| && s[i] == ' ' ==> s[i - 1] != ' '
    requires inRun ==> s == [] || s[0] != ' '
    ensures Hyphenate(s, inRun) == DashSpaces(s)
  {
    if s != [] {
      HyphenateSingleSpaces(s[1..], s[0] == ' ');
      assert DashSpaces(s) == DashSpaces(s[..1]) + DashSpaces(s[1..]);
    }
  }

  /** For a plain name the file name is the plain reading: nothing is dropped and no run is merged. */
  lemma SlugOfPlainName(name: string)
    requires PlainName(name)
    ensures Slug(name) == Dashed(name)
  {
    var lower := ToLower(name);
    forall i | 0 <= i < |lower|
      ensures lower[i] == ' ' <==> name[i] == ' '
      ensures lower[i] == ' ' || !IsJsSpace(lower[i])
    {
    }
    HyphenateSingleSpaces(lower, false);
    assert DashSpaces(lower) == Dashed(name);
    KeepSlugCharsKeepsSlug(Dashed(name));
  }

  /** The listed exercise names are plain, so each video file name is the name's plain reading. */
  lemma ListedNamesArePlain(i: nat)
    requires i < |ExercisesWithVideos|
    ensures PlainName(ExercisesWithVideos[i])
    ensures Slug(ExercisesWithVideos[i]) == Dashed(ExercisesWithVideos[i])
  {
    var name := ExercisesWithVideos[i];
    if i == 0 {
      assert PlainName("Bicep curl");
    } else if i == 1 {
      assert PlainName("Dumbbell Bench Press");
    } else if i == 2 {
      assert PlainName("One-Arm Dumbbell Row");
    } else {
      assert PlainName("Plank");
    }
    SlugOfPlainName(name);
  }

  // The plain readings of the four listed names, hence (by `ListedNamesArePlain`) the
  // file names of the four demonstration videos the page looks for.

  lemma BicepCurlVideo()
    ensures Dashed(ExercisesWithVideos[0]) == "bicep-curl"
  {
  }

  lemma BenchPressVideo()
    ensures Dashed(ExercisesWithVideos[1]) == "dumbbell-bench-press"
  {
  }

  lemma DumbbellRowVideo()
    ensures Dashed(ExercisesWithVideos[2]) == "one-arm-dumbbell-row"
  {
  }

  lemma PlankVideo()
    ensures Dashed(ExercisesWithVideos[3]) == "plank"
  {
  }

  /** Where the check dialog's picture comes from. */
  datatype ReviewSource = DemoVideo(path: string) | Camera

  /**
   * How the attempt to play a listed exercise's video ends. Every outcome but the
   * first makes the page start the camera instead: the file cannot be fetched (or
   * answers with an error status), nothing has loaded after 5 seconds, the element
   * reports an error, or playback is refused both with sound and muted.
   */
  datatype VideoOutcome = VideoPlays | FetchFailed | LoadTimedOut | LoadError | PlaybackRefused

  /**
   * A listed exercise plays its demonstration video unless the video fails, in which
   * case the page falls back to the live camera; any other exercise uses the camera.
   */
  function SourceFor(name: string, outcome: VideoOutcome): (src: ReviewSource)
    ensures src.DemoVideo? <==> name in ExercisesWithVideos && outcome == VideoPlays
    ensures src.DemoVideo? ==> src.path == VideoPath(name)
    ensures outcome != VideoPlays ==> src == Camera
  {
    if name in ExercisesWithVideos && outcome.VideoPlays? then DemoVideo(VideoPath(name)) else Camera
  }

  // ----- Countdowns -----

  /** The check dialog counts 5 seconds down before the review, then 30 seconds of review. */
  const CheckCountdown: int := 5
  const ReviewCountdown: int := 30

  /** What one tick of a countdown interval does: the value it shows, and whether it clears the interval. */
  datatype Tick = Tick(shown: int, expired: bool)

  /** One second of a countdown: the value drops by one, never below zero; reaching zero ends it. */
  function CountdownTick(c: int): (t: Tick)
    ensures t.shown >= 0
    ensures t.expired <==> c <= 1
    ensures t.expired ==> t.shown == 0
    ensures !t.expired ==> t.shown == c - 1
  {
    var next := c - 1;
    Tick(if next > 0 then next else 0, next <= 0)
  }

  /** The values a countdown started at `c` shows, one per tick, up to the tick that clears it. */
  function CountdownShown(c: int): (shown: seq<int>)
    ensures |shown| >= 1 && shown[|shown| - 1] == 0
    ensures forall i :: 0 <= i < |shown| ==> shown[i] >= 0
    decreases c
  {
    var t := CountdownTick(c);
    if t.expired then [t.shown] else [t.shown] + CountdownShown(t.shown)
  }

  /** Started at `c >= 1`, a countdown runs exactly `c` ticks and shows `c - 1, c - 2, ..., 0`. */
  lemma {:induction false} CountdownCountsDown(c: int)
    requires c >= 1
    ensures |CountdownShown(c)| == c
    ensures forall i :: 0 <= i < c ==> CountdownShown(c)[i] == c - 1 - i
    decreases c
  {
    if c > 1 {
      CountdownCountsDown(c - 1);
      assert CountdownShown(c) == [c - 1] + CountdownShown(c - 1);
    }
  }

  /** The check dialog's countdown shows 4, 3, 2, 1 and then 0, when it hands over to the review. */
  lemma CheckCountdownShown()
    ensures CountdownShown(CheckCountdown) == [4, 3, 2, 1, 0]
  {
    CountdownCountsDown(CheckCountdown);
  }

  /** The review runs for exactly 30 ticks and its last tick shows 0. */
  lemma ReviewCountdownLength()
    ensures |CountdownShown(ReviewCountdown)| == 30
    ensures CountdownShown(ReviewCountdown)[0] == 29
  {
    CountdownCountsDown(ReviewCountdown);
  }

  // ----- Training plan -----

  datatype Exercise = Exercise(
    name: string, sets: nat, reps: string,
    restBetweenSetsSec: nat, restBetweenRepsSec: nat, youtube: string)

  datatype Plan = Plan(title: string, note: string, day: string, exercises: seq<Exercise>)

  const Days: seq<string> := ["Monday", "Tuesday", "Wednesday", "Thursday", "Friday"]

  /** The plan's day for `Date.getDay()` (0 is Sunday): the weekday number modulo the five plan days. */
  function PlanDay(weekday: nat): (day: string)
    requires weekday < 7
    ensures day in Days
  {
    Days[weekday % |Days|]
  }

  /** The day each weekday's plan carries, Sunday first. */
  lemma PlanDayTable()
    ensures [PlanDay(0), PlanDay(1), PlanDay(2), PlanDay(3), PlanDay(4), PlanDay(5), PlanDay(6)]
         == ["Monday", "Tuesday", "Wednesday", "Thursday", "Friday", "Monday", "Tuesday"]
  {
  }

  /** The four exercises every plan holds: sets, repetitions, rests in seconds and a tutorial link. */
  const Routine: seq<Exercise> := [
    Exercise("Bicep curl", 4, "8-10", 90, 0, "https://www.youtube.com/watch?v=6xwZ5H5Hh6Y"),
    Exercise("Dumbbell Bench Press", 3, "10-12", 90, 0, "https://www.youtube.com/watch?v=VmB1G1K7v94"),
    Exercise("One-Arm Dumbbell Row", 3, "10-12 per side", 75, 0, "https://www.youtube.com/watch?v=pYcpY20QaE8"),
    Exercise("Plank", 3, "30-45s", 60, 0, "https://www.youtube.com/watch?v=ASdvN_XEl_c")]

  const PlanTitle: string := "Personalized routine"
  const PlanNote: string :=
    "Focused on technique and progression. Adjust the weight to complete the last repetition with good form."

  /** The plan for a message: the fixed routine on the day `PlanDay` picks; the answer itself is not consulted. */
  function GeneratePlan(answer: string, weekday: nat): (plan: Plan)
    requires weekday < 7
    ensures plan.day in Days && plan.day == PlanDay(weekday)
    ensures plan.exercises == Routine
  {
    Plan(PlanTitle, PlanNote, PlanDay(weekday), Routine)
  }

  /** The routine's exercises are, in order, exactly the exercises that have a demonstration video. */
  lemma RoutineMatchesVideos()
    ensures |Routine| == |ExercisesWithVideos|
    ensures forall i :: 0 <= i < |Routine| ==> Routine[i].name == ExercisesWithVideos[i]
  {
  }

  /** Every planned exercise, checked in the dialog, plays its demonstration video when that video works. */
  lemma PlannedExercisesUseVideos(answer: string, weekday: nat)
    requires weekday < 7
    ensures forall e :: e in GeneratePlan(answer, weekday).exercises ==> SourceFor(e.name, VideoPlays).DemoVideo?
  {
    RoutineMatchesVideos();
    forall e | e in Routine
      ensures SourceFor(e.name, VideoPlays).DemoVideo?
    {
      var i :| 0 <= i < |Routine| && Routine[i] == e;
      assert e.name == ExercisesWithVideos[i];
    }
  }

  // ----- Chat -----

  datatype Message = UserText(content: string) | AgentPlan(plan: Plan)

  /**
   * Sending a typed message: white-space-only text is ignored; otherwise the trimmed
   * text is stored as the user's message, followed by the plan generated for it.
   */
  function SendText(history: seq<Message>, text: string, weekday: nat): (next: seq<Message>)
    requires weekday < 7
    ensures next == history <==> AllSpace(text, JavaScript)
    ensures next != history ==>
      && |next| == |history| + 2 && next[..|history|] == history
      && next[|history|].UserText? && next[|history|].content == Trim(text, JavaScript)
      && next[|history|].content != [] && Trimmed(next[|history|].content, JavaScript)
      && next[|history| + 1] == AgentPlan(GeneratePlan(Trim(text, JavaScript), weekday))
  {
    TrimIsMaximalSlice(text, JavaScript);
    var trimmed := Trim(text, JavaScript);
    if trimmed == [] then history
    else history + [UserText(trimmed), AgentPlan(GeneratePlan(trimmed, weekday))]
  }

  /** Sending the trimmed text is the same as sending the text. */
  lemma SendTextTrimmed(history: seq<Message>, text: string, weekday: nat)
    requires weekday < 7
    ensures SendText(history, Trim(text, JavaScript), weekday) == SendText(history, text, weekday)
  {
    TrimIdempotent(text, JavaScript);
    TrimIsMaximalSlice(text, JavaScript);
    TrimIsMaximalSlice(Trim(text, JavaScript), JavaScript);
  }

  // ----- Subtitles -----

  /** Characters revealed per tick: 24 in the muted fallback, 2 while the speech engine talks. */
  const SubtitleStep: nat := 24
  const SpeechChunk: nat := 2

  function Min(a: int, b: int): int {
    if a <= b then a else b
  }

  /**
   * The subtitles shown by a typing timer that has already revealed `revealed`
   * characters: each tick shows `step` more characters of the text, and the timer
   * stops at the first tick that reaches the end of the text.
   */
  function RevealFrames(text: string, step: nat, revealed: nat): (frames: seq<string>)
    requires step > 0
    requires revealed == 0 || revealed < |text|
    ensures |frames| >= 1 && frames[|frames| - 1] == text
    ensures forall k :: 0 <= k < |frames| ==> frames[k] <= text
    ensures revealed + step * |frames| >= |text|
    ensures |frames| == 1 || revealed + step * (|frames| - 1) < |text|
    decreases |text| - revealed
  {
    var shown := text[..Min(revealed + step, |text|)];
    if revealed + step >= |text| then [shown]
    else [shown] + RevealFrames(text, step, revealed + step)
  }

  /** After tick `k + 1` the subtitle is the first `revealed + step * (k + 1)` characters, or all of them. */
  lemma {:induction false} RevealFrameContents(text: string, step: nat, revealed: nat, k: nat)
    requires step > 0
    requires revealed == 0 || revealed < |text|
    requires k < |RevealFrames(text, step, revealed)|
    ensures RevealFrames(text, step, revealed)[k] == text[..Min(revealed + step * (k + 1), |text|)]
    decreases k
  {
    if k > 0 {
      RevealFrameContents(text, step, revealed + step, k - 1);
      assert revealed + step + step * k == revealed + step * (k + 1);
    }
  }

  /** In the muted fallback, tick `k + 1` of a fresh timer shows the first `24 * (k + 1)` characters, or all of them. */
  lemma MutedSubtitleFrame(text: string, k: nat)
    requires k < |RevealFrames(text, SubtitleStep, 0)|
    ensures RevealFrames(text, SubtitleStep, 0)[k] == text[..Min(24 * (k + 1), |text|)]
  {
    RevealFrameContents(text, SubtitleStep, 0, k);
  }

  /** While the speech engine talks, each tick shows 2 more characters than the one before, until the text ends. */
  lemma SpokenSubtitleFrame(text: string, revealed: nat, k: nat)
    requires revealed == 0 || revealed < |text|
    requires k < |RevealFrames(text, SpeechChunk, revealed)|
    ensures RevealFrames(text, SpeechChunk, revealed)[k] == text[..Min(revealed + 2 * (k + 1), |text|)]
  {
    RevealFrameContents(text, SpeechChunk, revealed, k);
  }

  /** Each subtitle extends the one before it. */
  lemma {:induction false} RevealGrows(text: string, step: nat, revealed: nat, k: nat)
    requires step > 0
    requires revealed == 0 || revealed < |text|
    requires k + 1 < |RevealFrames(text, step, revealed)|
    ensures RevealFrames(text, step, revealed)[k] < RevealFrames(text, step, revealed)[k + 1]
    decreases k
  {
    var rest := RevealFrames(text, step, revealed + step);
    assert RevealFrames(text, step, revealed) == [text[..revealed + step]] + rest;
    if k == 0 {
      var n := Min(revealed + step + step, |text|);
      assert rest[0] == text[..n];
      assert text[..n][..revealed + step] == text[..revealed + step];
    } else {
      RevealGrows(text, step, revealed + step, k - 1);
    }
  }

  // ----- Check dialog feedback -----

  const AdjustmentsFeedback: string :=
    "There are adjustments for your Bicep curl. I detected curvature in your back. Keep your core firm and lower the weight to prioritize form."
  const ExcellentFeedback: string := "Excellent execution! Keep that technique."

  /** The message at the end of a check: the adjustments text for the bicep curl only. */
  function FeedbackMessage(name: string): (message: string)
    ensures message == AdjustmentsFeedback <==> name == "Bicep curl"
    ensures message == ExcellentFeedback <==> name != "Bicep curl"
  {
    if name == "Bicep curl" then AdjustmentsFeedback else ExcellentFeedback
  }
}
