# AI sports coach — a Dafny model of its decision logic

This project models the deterministic core of an AI sports-coaching application
and proves properties of it in Dafny 4.11. Each part of the application has its own module:

- **PoseCoach** models the browser's squat coach. For every video frame it derives a back angle and two knee angles from the detected pose landmarks. It classifies the frame as a rounded back, an insufficient depth or no defect. A cooldown counter then decides whether a spoken cue goes out.
- **HeartRate** models the heart-rate panel. It decodes notifications of the Bluetooth Heart Rate Measurement characteristic, as laid out in section 3.1 of the Heart Rate Service 1.0 specification. It also covers what the panel displays.
- **BodyAngles** models the Python angle tool. It decides which joint angles and which left/right symmetries exist for the landmarks present.
- **Capture** models the Python capture loop:
  - the visibility and name filter on landmarks;
  - the half-second capture throttle;
  - the fifteen-second session;
  - the final three-entry sample from the middle of the history.
- **HealthExport** models the Apple Health export converter:
  - normalisation of type names;
  - folding of metadata entries;
  - one output entry per element;
  - the per-type summary counts;
  - the date range.
- **CoachPage** models the pure helpers of the coach page:
  - the exercise-video slug and path;
  - the countdowns;
  - the trimmed message guard;
  - the plan-day choice;
  - the subtitle reveal;
  - the check-dialog feedback.
- **Cors** models the back end's allowed-origins list.

Three modules are shared. **Geometry** holds points and the browser's clamped three-point angle. **Text** holds whitespace sets, trim/strip and split/join. **Wrappers** holds `Option` and `Result`.

Floating-point primitives come from outside the model: the vector length (`Math.hypot` / `numpy.linalg.norm`), the arc cosine and the two-argument arc tangent. A `Numerics` value carries them as functions. The ghost predicate `Sound` states the only facts the model relies on:

- lengths are non-negative and zero only for the zero vector;
- the arc cosine maps [-1, 1] into [0, 180] degrees;
- the arc tangent lies in [-180, 180] degrees.

Randomness is a parameter: the encouragement draw, and the positions `random.sample` picks. So are clock readings, passed as the per-frame readings of `time.time()`, and the pose detector's output.

Three behaviours of the code worth noting:

- A frame in which no pose was detected skips the classification and the cooldown entirely (`frontend/src/PoseCoach.jsx:54`). It does not count down the cooldown.
- A detected pose with every landmark missing is classified as insufficient depth (`PoseCoach.NothingVisibleIsDepthDefect`). It is not classified as "no defect".
- The plan day is `getDay() % 5` over five weekday names. Sunday therefore gives "Monday" and Saturday gives "Tuesday" (`CoachPage.PlanDayTable`).

## Model

| member | source | states |
|---|---|---|
| Geometry.Length | frontend/src/PoseCoach.jsx:9-10 | a vector's length is never negative |
| Geometry.ZeroLength | backend/app/opencv/tools.py:27 | the distance between two points is zero exactly when the points coincide |
| Geometry.Clamp | frontend/src/PoseCoach.jsx:12 | `max(lo, min(hi, x))` lies in [lo, hi], is `x` itself when `x` is inside, and is the point of [lo, hi] closest to `x` |
| Geometry.AngleDeg | frontend/src/PoseCoach.jsx:5-13 | the browser's joint angle always lies in [0, 180] degrees, because the cosine is clamped before the arc cosine |
| Geometry.AngleDegSymmetric | frontend/src/PoseCoach.jsx:6-11 | swapping the two outer points leaves the angle at the vertex unchanged |
| PoseCoach.BackSideAngle | frontend/src/PoseCoach.jsx:57-58 | one side's back angle lies in [0, 180] and is exactly 180 when that side's shoulder or hip is missing |
| PoseCoach.KneeAngle | frontend/src/PoseCoach.jsx:60-61 | one side's knee angle (shoulder, knee, ankle) lies in [0, 180] and is exactly 180 when any of the three landmarks is missing |
| PoseCoach.DeriveAngles | frontend/src/PoseCoach.jsx:55-61 | all four angles and their back mean lie in [0, 180]; each angle is 180 when one of its landmarks (indices 11/12, 23-28) is missing |
| PoseCoach.BackAngle | frontend/src/PoseCoach.jsx:59 | the back angle, the mean of the two sides, lies between them, so a back angle below 165 needs one side below 165 |
| PoseCoach.Classify | frontend/src/PoseCoach.jsx:68-77 | rounded back exactly when the mean back angle is below 165, whatever the knees; insufficient depth exactly when the back is not rounded and both knees exceed 90; no defect otherwise |
| PoseCoach.NothingVisibleIsDepthDefect | frontend/src/PoseCoach.jsx:57-69 | a detected pose with none of the eight landmarks is a depth defect, because min(180, 180) > 90 |
| PoseCoach.MissingSideReadsAsStraight | frontend/src/PoseCoach.jsx:57-61 | a missing left side is classified as if its back and knee angles were a straight 180 |
| PoseCoach.Cue.Message | frontend/src/PoseCoach.jsx:73-81 | each cue's sentence is non-empty |
| PoseCoach.CueMessagesDistinct | frontend/src/PoseCoach.jsx:73-81 | the three cues speak three different sentences, so the spoken text tells which cue went out |
| PoseCoach.Step | frontend/src/PoseCoach.jsx:71-87 | with cooldown > 0, no cue and the cooldown drops by one; otherwise a back cue or depth cue exactly for that defect (cooldown 90), an encouragement exactly for no defect with a draw below 0.01 (cooldown 60), and otherwise no cue with the cooldown unchanged |
| PoseCoach.Frame | frontend/src/PoseCoach.jsx:54-88 | a frame without a detected pose emits nothing and keeps the cooldown; a cue needs a detected pose and a cooldown ≤ 0; the range [0, 90] is preserved |
| PoseCoach.Run | frontend/src/PoseCoach.jsx:45-91 | the frame loop decides each frame in turn with the cooldown left by the previous one, and yields exactly one cue slot per frame |
| PoseCoach.RunKeepsCooldownInRange | frontend/src/PoseCoach.jsx:71-87 | starting in [0, 90] (a session starts at 0), the cooldown stays in [0, 90] over any run of frames |
| PoseCoach.QuietWhileCooling | frontend/src/PoseCoach.jsx:85-87 | while the cooldown lasts, frames are silent and each detected frame takes exactly one off it |
| PoseCoach.RunConcat | frontend/src/PoseCoach.jsx:89-91 | running two stretches of frames in turn is the same as running their concatenation |
| PoseCoach.CorrectionSilencesNinetyFrames | frontend/src/PoseCoach.jsx:71-87 | after a correction cue the next 90 frames are silent, and 90 detected frames bring the cooldown back to 0 |
| PoseCoach.QuietWithin | frontend/src/PoseCoach.jsx:71-87 | a frame that falls within the cooldown left by the frames before it is silent |
| PoseCoach.CuesAreSpaced | frontend/src/PoseCoach.jsx:71-87 | two cues are more than 60 frames apart, and more than 90 frames apart when the first is a correction |
| PoseCoach.StaleRun | frontend/src/PoseCoach.jsx:19-101 | the loop as written: every frame is decided against the first render's cooldown of 0 |
| PoseCoach.StaleLoopRepeatsCue | frontend/src/PoseCoach.jsx:19-101 | two consecutive detected frames with no landmarks give two depth cues as written, but one cue and then silence with the cooldown threaded |
| HeartRate.LittleEndian16 | frontend/src/HeartRatePanel.jsx:19 | a little-endian 16-bit value is below 65536, and its low and high byte are read back as `v % 256` and `v / 256` |
| HeartRate.DecodeHeartRate | frontend/src/HeartRatePanel.jsx:17-19 | decoding succeeds exactly when the buffer holds the flags byte and the value field (2 bytes, or 3 with flags bit 0 set); an 8-bit value is byte 1, a 16-bit value is byte 1 plus 256 times byte 2, and every value is below 65536 |
| HeartRate.EncodeMeasurement | frontend/src/HeartRatePanel.jsx:18-19 | a notification is the flags byte, a value field of 1 or 2 bytes as bit 0 selects, and the trailing fields |
| HeartRate.EncodeDecode | frontend/src/HeartRatePanel.jsx:18-19 | re-encoding a decoded notification with its flags and its trailing bytes gives back the buffer |
| HeartRate.DecodeEncode | frontend/src/HeartRatePanel.jsx:18-19 | decoding an encoded notification gives back its value, for either width and any trailing bytes |
| HeartRate.OnlyBitZeroMatters | frontend/src/HeartRatePanel.jsx:18-19 | flag bits other than bit 0 do not change the result |
| HeartRate.TrailingBytesIgnored | frontend/src/HeartRatePanel.jsx:19 | bytes after the value field never change a decoded value |
| HeartRate.Notify | frontend/src/HeartRatePanel.jsx:16-21 | a decoded value goes unchanged both to the display and to `onHr`; an undecodable notification changes nothing |
| HeartRate.DisplayOf | frontend/src/HeartRatePanel.jsx:29 | the panel shows "N bpm" exactly for a rate that is present and non-zero, and a dash otherwise |
| BodyAngles.Angle3 | backend/app/opencv/tools.py:17-33 | the three-point angle lies in [0, 180], and it is NaN exactly when an outer point coincides with the vertex (zero norm) |
| BodyAngles.Angle3Symmetric | backend/app/opencv/tools.py:24-29 | swapping the two outer points gives the same angle |
| BodyAngles.Symmetry | backend/app/opencv/tools.py:35-47 | the symmetry angle is the absolute arc tangent of the difference, and it lies in [0, 180] |
| BodyAngles.AngleLandmarks | backend/app/opencv/tools.py:53-75 | each of the six angles is measured from three different landmarks |
| BodyAngles.SymmetryLandmarks | backend/app/opencv/tools.py:77-95 | each of the four symmetries compares two different landmarks |
| BodyAngles.AngleFold | backend/app/opencv/tools.py:53-75 | an angle key is produced exactly when it was tried and its three landmarks are present, with the angle of those landmarks |
| BodyAngles.SymmetryFold | backend/app/opencv/tools.py:77-95 | a symmetry key is produced exactly when it was tried and both landmarks of its pair are present |
| BodyAngles.BodyAngles | backend/app/opencv/tools.py:49-97 | each of the six angle keys is present iff its three landmarks are; each of the four symmetry keys iff its right and left landmark are; values are computed from those landmarks |
| BodyAngles.EveryKeyTried | backend/app/opencv/tools.py:53-95 | the function tries every one of the six angle names and four symmetry names |
| BodyAngles.ReadingsInRange | backend/app/opencv/tools.py:28-44 | every numeric angle and every symmetry in the result lies in [0, 180] |
| BodyAngles.NoPositionsNoReadings | backend/app/opencv/tools.py:49-97 | no positions give two empty dictionaries |
| BodyAngles.MoreLandmarksMoreReadings | backend/app/opencv/tools.py:53-95 | adding landmarks never removes or changes a reading |
| BodyAngles.OnlyTrackedLandmarksMatter | backend/app/opencv/tools.py:53-95 | a landmark outside the eight arm and hip landmarks never changes the result |
| BodyAngles.UntrackedAnglesUnchanged | backend/app/opencv/tools.py:53-75 | the angle dictionary ignores landmarks outside the tracked eight |
| BodyAngles.UntrackedSymmetriesUnchanged | backend/app/opencv/tools.py:77-95 | the symmetry dictionary ignores landmarks outside the tracked eight |
| BodyAngles.ReadingsUseTracked | backend/app/opencv/opencv.py:29-32 | every landmark an angle or symmetry reads is one of the eight names the capture keeps |
| Capture.LandmarkAt | backend/app/opencv/opencv.py:114 | `PoseLandmark(i)` is the landmark whose index is `i`, for i below 33 |
| Capture.Index | backend/app/opencv/opencv.py:111 | every pose landmark has an index below 33 |
| Capture.LandmarkAtIndex | backend/app/opencv/opencv.py:114-116 | index and name convert into each other for all 33 landmarks: `PoseLandmark(i)` is the landmark whose index is `i` |
| Capture.SymmetryPairsMirror | backend/app/opencv/tools.py:77-95 | each symmetry compares a right landmark (even index) with its left mirror, whose index is one lower |
| Capture.AngleLandmarksOneSide | backend/app/opencv/tools.py:53-75 | the three landmarks of each angle lie on one side of the body (same index parity) |
| Capture.Scale | backend/app/opencv/opencv.py:116-120 | a kept landmark's depth and visibility are stored unrounded (the 4-digit rounding is left out) |
| Capture.FilterPrefix | backend/app/opencv/opencv.py:111-122 | after any number of iterations, the keys are tracked names with visibility at least 0.5 |
| Capture.Filter | backend/app/opencv/opencv.py:109-122 | every key of `posiciones` is in `posx`, and every value has visibility at least 0.5 |
| Capture.FilterKeepsVisible | backend/app/opencv/opencv.py:111-122 | a landmark is kept iff it is tracked and its visibility is at least 0.5, and its entry is the scaled landmark at its index |
| Capture.FilterPrefixKeepsVisible | backend/app/opencv/opencv.py:111-122 | the loop invariant: after the first `count` landmarks, exactly the visible tracked ones among them are kept |
| Capture.ProcessFrame | backend/app/opencv/opencv.py:99-126 | a frame without a pose gives two empty dictionaries |
| Capture.ProcessFrameReadings | backend/app/opencv/opencv.py:109-125 | an angle or symmetry key is present iff a pose was detected and all its landmarks passed the filter |
| Capture.CaptureFrame | backend/app/opencv/opencv.py:166-203 | a frame is captured iff the loop is not paused, a pose was detected, recording is on and at least 0.5 s has passed since the reference point; the entry holds that frame's time and readings, and the reference point moves |
| Capture.Session | backend/app/opencv/opencv.py:140-207 | a session appends at most one entry per frame |
| Capture.IdleSessionRecordsNothing | backend/app/opencv/opencv.py:166-203 | the loop's guards: while paused or not recording, the history does not grow; the fixed switches (`pausado = False`, `grabando = True`) never reach this configuration, because the keys that would flip them are commented out |
| Capture.CapturesAreSpaced | backend/app/opencv/opencv.py:137-203 | with a monotone clock, consecutive captures are at least 0.5 s apart, and the first at least 0.5 s after the start point |
| Capture.CapturesFollowFrame | backend/app/opencv/opencv.py:197-207 | captures of later frames come after the earlier frame's stop test |
| Capture.CapturesAfter | backend/app/opencv/opencv.py:197-203 | every capture is taken no earlier than the first frame's throttle test |
| Capture.CapturesWithinSession | backend/app/opencv/opencv.py:206-207 | every capture but the last is taken before the fifteen seconds are up |
| Capture.CaptureTimesGrow | backend/app/opencv/opencv.py:197-203 | the k-th capture is taken at least 0.5·(k+1) s after the start point |
| Capture.AtMostThirtyCaptures | backend/app/opencv/opencv.py:133-207 | one session appends at most 30 entries |
| Capture.PySlice | backend/app/opencv/opencv.py:233 | Python slicing: negative bounds count from the end, and both bounds are clamped |
| Capture.PyBound | backend/app/opencv/opencv.py:233 | a slice bound is clamped into [0, len], with negative bounds taken from the end |
| Capture.SampleWindow | backend/app/opencv/opencv.py:233 | `history[5:-6]` has max(0, n − 11) entries, which are the history's entries from position 5 on |
| Capture.Sample | backend/app/opencv/opencv.py:233 | `random.sample` fails exactly when more elements are asked for than the population holds; otherwise it returns the picked elements |
| Capture.FinalSample | backend/app/opencv/opencv.py:233 | the final draw of three succeeds iff the history holds at least 14 entries, and it returns entries from positions 5 to n − 7 |
| Capture.RunSession | backend/app/opencv/opencv.py:129-233 | the analysis draw after a session succeeds iff the earlier history plus this session's captures reach 14 |
| HealthExport.Attr | backend/app/apple_health/xml_preprocess.py:83 | `attrib.get(name, '')`: the attribute's value, or the empty string when it is missing |
| HealthExport.WithTag | backend/app/apple_health/xml_preprocess.py:98 | keeps exactly the elements with the tag |
| HealthExport.FindAll | backend/app/apple_health/xml_preprocess.py:98 | `findall('.//tag')` returns exactly the descendants with that tag |
| HealthExport.Find | backend/app/apple_health/xml_preprocess.py:86 | `find('.//tag')` is the first match, or nothing when there is none |
| HealthExport.DescendantsNest | backend/app/apple_health/xml_preprocess.py:156-164 | a descendant of a descendant is a descendant |
| HealthExport.ReplaceAll | backend/app/apple_health/xml_preprocess.py:224 | replacing the pattern by itself changes nothing, and a replacement of the pattern's length keeps the string's length |
| HealthExport.ReplaceAbsent | backend/app/apple_health/xml_preprocess.py:224 | `str.replace` leaves a string without the pattern unchanged |
| HealthExport.ReplaceLeading | backend/app/apple_health/xml_preprocess.py:224 | `str.replace` replaces a leading occurrence and continues after it |
| HealthExport.NormalizeDataType | backend/app/apple_health/xml_preprocess.py:222-224 | a type in the mapping table becomes its table value; for an unmapped type see the three lemmas below |
| HealthExport.NormalizeKeepsPlainNames | backend/app/apple_health/xml_preprocess.py:224 | an unmapped type containing neither HK prefix is returned unchanged |
| HealthExport.NormalizeStripsQuantityPrefix | backend/app/apple_health/xml_preprocess.py:224 | an unmapped `HKQuantityTypeIdentifier` type loses exactly that prefix |
| HealthExport.NormalizeStripsCategoryPrefix | backend/app/apple_health/xml_preprocess.py:224 | an unmapped `HKCategoryTypeIdentifier` type loses exactly that prefix |
| HealthExport.HeartRateNormalized | backend/app/apple_health/xml_preprocess.py:28 | `HKQuantityTypeIdentifierHeartRate` becomes `heart_rate` |
| HealthExport.FoldMetadata | backend/app/apple_health/xml_preprocess.py:116-120 | the dictionary has no more keys than there are entries |
| HealthExport.MetadataKeys | backend/app/apple_health/xml_preprocess.py:116-120 | the metadata dictionary has exactly the keys of the entries |
| HealthExport.MetadataLastWins | backend/app/apple_health/xml_preprocess.py:116-120 | for entries sharing a key, the value of the last one wins |
| HealthExport.ExtractMetadata | backend/app/apple_health/xml_preprocess.py:80-94 | the metadata is replaced only when a `Me` element exists, and then it carries the root's export date |
| HealthExport.RecordOf | backend/app/apple_health/xml_preprocess.py:101-120 | a record keeps the raw type (or '' when it is missing) next to its normalised type, and its metadata keys are those of its entries |
| HealthExport.EventOf | backend/app/apple_health/xml_preprocess.py:157-168 | a missing `type` or `date` reads as ''; the event's metadata has exactly the keys of the `MetadataEntry` elements below it |
| HealthExport.RouteOf | backend/app/apple_health/xml_preprocess.py:174-182 | an element without attributes gives a route of six empty fields |
| HealthExport.RouteRoundTrip | backend/app/apple_health/xml_preprocess.py:174-182 | reading the element that holds a route's six fields under their attribute names gives back the route |
| HealthExport.WorkoutOf | backend/app/apple_health/xml_preprocess.py:124-185 | a workout has one event per `WorkoutEvent` and one route per `WorkoutRoute` below it, and the i-th event and route are read from the i-th such element in document order |
| HealthExport.ClinicalRecordOf | backend/app/apple_health/xml_preprocess.py:191-199 | an element without attributes gives a clinical record of empty fields |
| HealthExport.ClinicalRecordRoundTrip | backend/app/apple_health/xml_preprocess.py:191-199 | reading the element that holds a clinical record's fields under their attribute names gives back the record |
| HealthExport.ActivitySummaryOf | backend/app/apple_health/xml_preprocess.py:208-217 | an element without attributes gives a summary of empty fields |
| HealthExport.ActivitySummaryRoundTrip | backend/app/apple_health/xml_preprocess.py:208-217 | reading the element that holds a summary's fields under their attribute names gives back the summary |
| HealthExport.WorkoutMetadataCoversEvents | backend/app/apple_health/xml_preprocess.py:149-168 | the workout's metadata keys include every event's metadata keys, because `.//` also finds entries nested in events |
| HealthExport.ParseTree | backend/app/apple_health/xml_preprocess.py:39-220 | parsing appends exactly one entry per element of each kind, in document order, after the existing ones; without `Me` the metadata is kept |
| HealthExport.Bump | backend/app/apple_health/xml_preprocess.py:258 | counting a key adds it to the tally's keys |
| HealthExport.BumpCounts | backend/app/apple_health/xml_preprocess.py:258 | counting a key raises its count by one and the total by one, leaves the other counts alone, and keeps keys distinct and counts positive |
| HealthExport.AbsentCountsZero | backend/app/apple_health/xml_preprocess.py:258 | a key never counted has count 0 |
| HealthExport.TallyOf | backend/app/apple_health/xml_preprocess.py:255-263 | the tally's keys are exactly the kinds seen |
| HealthExport.TallyCounts | backend/app/apple_health/xml_preprocess.py:255-263 | each kind's count is its multiplicity, every count is at least 1, and the counts sum to the number of items |
| HealthExport.LexLeReflexive | backend/app/apple_health/xml_preprocess.py:290 | string order is reflexive |
| HealthExport.LexLeTotal | backend/app/apple_health/xml_preprocess.py:290 | string order is total |
| HealthExport.LexLeTransitive | backend/app/apple_health/xml_preprocess.py:290 | string order is transitive |
| HealthExport.LexLeAntisymmetric | backend/app/apple_health/xml_preprocess.py:290 | string order is antisymmetric |
| HealthExport.Earliest | backend/app/apple_health/xml_preprocess.py:290-292 | the first date after sorting is a collected date no later than any other |
| HealthExport.Latest | backend/app/apple_health/xml_preprocess.py:290-293 | the last date after sorting is a collected date no earlier than any other |
| HealthExport.NonEmpty | backend/app/apple_health/xml_preprocess.py:279-287 | empty start dates are skipped and the others are kept |
| HealthExport.CollectDates | backend/app/apple_health/xml_preprocess.py:277-287 | at most one date per record and workout is collected, and none is empty |
| HealthExport.CollectDatesMembers | backend/app/apple_health/xml_preprocess.py:277-287 | the collected dates are exactly the non-empty start dates of records and workouts |
| HealthExport.GetDateRange | backend/app/apple_health/xml_preprocess.py:275-296 | with no dates both ends are ''; otherwise both are collected dates with earliest ≤ every date ≤ latest |
| HealthExport.CollectedDatesNonEmpty | backend/app/apple_health/xml_preprocess.py:279-287 | no collected date is empty |
| HealthExport.DateRangeUnique | backend/app/apple_health/xml_preprocess.py:289-294 | the range is the unique pair of collected dates bounding all the others |
| HealthExport.GetSummary | backend/app/apple_health/xml_preprocess.py:248-273 | the totals are the list lengths, and the type tallies have exactly the kinds present as keys |
| HealthExport.SummaryCountsAddUp | backend/app/apple_health/xml_preprocess.py:255-267 | record-type counts are positive and sum to the total records; the same holds for workout types and total workouts |
| Text.LeadingSpace | frontend/src/app/page.tsx:773 | the number of leading white-space characters: all of them are space and the next is not |
| Text.TrailingSpace | frontend/src/app/page.tsx:773 | the number of trailing white-space characters: all of them are space and the one before is not |
| Text.Trim | frontend/src/app/page.tsx:773 | trimming yields a string with no white space at either end, no longer than the input |
| Text.TrimIsMaximalSlice | frontend/src/app/page.tsx:773 | the trimmed string is the input minus white space at both ends, and it is empty iff the input is all white space |
| Text.TrimTrimmed | frontend/src/app/page.tsx:773 | trimming a trimmed string changes nothing |
| Text.TrimIdempotent | backend/app/main.py:15 | trimming twice is trimming once |
| Text.Split | backend/app/main.py:12 | `str.split(sep)` gives at least one piece, and no piece contains the separator |
| Text.JoinSplit | backend/app/main.py:12 | joining the pieces of a split gives back the string |
| Text.SplitJoin | backend/app/main.py:12 | splitting a join of separator-free pieces gives back the pieces |
| Text.SplitNoSeparator | backend/app/main.py:12 | a string without the separator splits into itself |
| Cors.StripNonEmpty | backend/app/main.py:15 | every origin kept is non-empty and stripped, and there are no more than pieces |
| Cors.AllowedOrigins | backend/app/main.py:12-15 | every allowed origin is non-empty with no white space at either end |
| Cors.UnsetVariableGivesDefault | backend/app/main.py:12 | with the variable unset the list is exactly `["http://localhost:5173"]` |
| Cors.DefaultIsClean | backend/app/main.py:12 | the default origin is clean and holds no comma |
| Cors.EmptyVariableAdmitsNothing | backend/app/main.py:12-15 | a variable set to the empty string admits no origin |
| Cors.OriginsRoundTrip | backend/app/main.py:12-15 | a comma-joined list of clean origins is read back exactly, keeping order and duplicates |
| Cors.StripNonEmptyKeeps | backend/app/main.py:15 | clean pieces pass through unchanged and in order |
| Cors.BlankPiecesDropped | backend/app/main.py:15 | a blank piece is dropped without disturbing its neighbours |
| Cors.StripNonEmptyConcat | backend/app/main.py:15 | the filter works piece by piece: it distributes over concatenation |
| CoachPage.LowerAscii | frontend/src/app/page.tsx:188 | lower-casing leaves no upper-case letter and keeps other characters |
| CoachPage.ToLower | frontend/src/app/page.tsx:188 | `toLowerCase` maps each character and keeps the length |
| CoachPage.Hyphenate | frontend/src/app/page.tsx:188 | replacing white-space runs leaves no white space |
| CoachPage.CollapseSpace | frontend/src/app/page.tsx:188 | `replace(/\s+/g, '-')` leaves no white space and never lengthens the string |
| CoachPage.KeepSlugChars | frontend/src/app/page.tsx:188 | `replace(/[^a-z0-9-]/g, '')` leaves only `[a-z0-9-]` |
| CoachPage.KeepSlugCharsMembers | frontend/src/app/page.tsx:188 | a character survives the filter iff it occurs in the input and is a slug character |
| CoachPage.KeepSlugCharsSingle | frontend/src/app/page.tsx:188 | a single character is kept exactly when it is a slug character |
| CoachPage.KeepSlugCharsConcat | frontend/src/app/page.tsx:188 | filtering a concatenation is concatenating the filtered parts, so the kept characters keep their order and their count |
| CoachPage.Slug | frontend/src/app/page.tsx:188 | the slug holds only `[a-z0-9-]` |
| CoachPage.VideoPath | frontend/src/app/page.tsx:189 | the path is "/" + slug + "-video.mp4" |
| CoachPage.ToLowerKeepsLower | frontend/src/app/page.tsx:188 | lower-casing a string without capitals changes nothing |
| CoachPage.HyphenateSpaceless | frontend/src/app/page.tsx:188 | a string without white space is not changed by the hyphenation |
| CoachPage.CollapseSpaceKeepsSpaceless | frontend/src/app/page.tsx:188 | a string without white space is not changed by the run replacement |
| CoachPage.KeepSlugCharsKeepsSlug | frontend/src/app/page.tsx:188 | a string of slug characters passes the filter unchanged |
| CoachPage.SlugIdempotent | frontend/src/app/page.tsx:188 | the slug of a slug is the slug |
| CoachPage.SlugIgnoresCase | frontend/src/app/page.tsx:188 | lower-casing the name first does not change the slug |
| CoachPage.CollapseSpaceWord | frontend/src/app/page.tsx:188 | a word without white space passes through the run replacement unchanged |
| CoachPage.CollapseRun | frontend/src/app/page.tsx:188 | a whole white-space run becomes a single '-' |
| CoachPage.RunInRun | frontend/src/app/page.tsx:188 | the rest of a run adds nothing once the run's '-' has been written |
| CoachPage.HyphenateSingleSpaces | frontend/src/app/page.tsx:188 | single spaces between words each become one '-' |
| CoachPage.SlugOfPlainName | frontend/src/app/page.tsx:188 | for a name of words joined by single spaces, the slug is the lower-cased name with '-' for spaces |
| CoachPage.ListedNamesArePlain | frontend/src/app/page.tsx:188 | each exercise with a video is such a plain name |
| CoachPage.BicepCurlVideo | frontend/src/app/page.tsx:188 | "Bicep curl" gives the slug "bicep-curl" |
| CoachPage.BenchPressVideo | frontend/src/app/page.tsx:188 | "Dumbbell Bench Press" gives the slug "dumbbell-bench-press" |
| CoachPage.DumbbellRowVideo | frontend/src/app/page.tsx:188 | "One-Arm Dumbbell Row" gives the slug "one-arm-dumbbell-row" |
| CoachPage.PlankVideo | frontend/src/app/page.tsx:188 | "Plank" gives the slug "plank" |
| CoachPage.SourceFor | frontend/src/app/page.tsx:182-306 | the demonstration video is used iff the exercise is in the video list and the video plays, with its slug path; a failed fetch, the 5 s load timeout, a load error or a refused muted play, like an unlisted exercise, gives the camera |
| CoachPage.CountdownTick | frontend/src/app/page.tsx:165-172 | a tick shows max(c − 1, 0), never negative, and clears the interval exactly when c − 1 ≤ 0 |
| CoachPage.CountdownShown | frontend/src/app/page.tsx:316-326 | a countdown's shown values are never negative, and the last one is 0 |
| CoachPage.CountdownCountsDown | frontend/src/app/page.tsx:161-179 | a countdown started at c ≥ 1 runs exactly c ticks, showing c − 1, …, 0 |
| CoachPage.CheckCountdownShown | frontend/src/app/page.tsx:161-172 | the 5-second countdown before the review shows 4, 3, 2, 1, 0 |
| CoachPage.ReviewCountdownLength | frontend/src/app/page.tsx:179 | the 30-second review countdown runs 30 ticks, the first showing 29 |
| CoachPage.PlanDay | frontend/src/app/page.tsx:691-692 | the plan day is always one of the five plan days |
| CoachPage.PlanDayTable | frontend/src/app/page.tsx:691-692 | Sunday through Saturday give Monday, Tuesday, …, Friday, Monday, Tuesday |
| CoachPage.GeneratePlan | frontend/src/app/page.tsx:690-732 | every plan carries the day `PlanDay(weekday)` (so `PlanDayTable` gives its value for each weekday) and the four fixed exercises |
| CoachPage.RoutineMatchesVideos | frontend/src/app/page.tsx:697-730 | the planned exercises are, in order, the exercises with demonstration videos |
| CoachPage.PlannedExercisesUseVideos | frontend/src/app/page.tsx:697-730 | every planned exercise, when checked and when its video plays, shows its demonstration video |
| CoachPage.SendText | frontend/src/app/page.tsx:771-787 | white-space-only text changes nothing; otherwise the trimmed, non-empty text is appended as the user's message, followed by the generated plan |
| CoachPage.SendTextTrimmed | frontend/src/app/page.tsx:773-775 | sending the trimmed text is the same as sending the text |
| CoachPage.RevealFrames | frontend/src/app/page.tsx:643-650 | every subtitle frame is a prefix of the text, the last is the whole text, and the timer stops at the first tick that covers the text |
| CoachPage.RevealFrameContents | frontend/src/app/page.tsx:647 | after tick i the subtitle is the prefix of length min(step·i, length) |
| CoachPage.MutedSubtitleFrame | frontend/src/app/page.tsx:643-650 | without the speech engine, tick k + 1 shows the first 24·(k + 1) characters, or the whole text |
| CoachPage.SpokenSubtitleFrame | frontend/src/app/page.tsx:665-670 | while the speech engine talks, tick k + 1 shows 2·(k + 1) more characters, or the whole text |
| CoachPage.RevealGrows | frontend/src/app/page.tsx:665-670 | each subtitle frame is a proper prefix of the next |
| CoachPage.FeedbackMessage | frontend/src/app/page.tsx:332-339 | the adjustments text appears exactly for "Bicep curl", and the excellent text otherwise |

## Left out

- Camera capture, MediaPipe model loading and inference, and canvas/OpenCV drawing and windows are inputs or side effects. The detector's landmark list is an input.
- Floating-point arithmetic is not modelled bit for bit. Points are `real`s, and `hypot`/`norm`, `acos` and `atan2` are injected through `Numerics` with only their ranges known.
- BodyAngles.Angle3: `round(angle, 1)` (tools.py:31) is not modelled. The angle is kept unrounded, so the contract says nothing about decimal digits.
- BodyAngles.Symmetry: `round(angle, 1)` (tools.py:46) is not modelled either; the symmetry angle is kept unrounded.
- Capture.Scale: the pixel coordinates are `x·w` and `y·h` without the two-digit rounding, and depth and visibility are stored without `round(..., 4)` (opencv.py:116-119). The `timestamp` field of each stored landmark (a further `time.time()` call) is dropped.
- The `try/except: return None` paths of the two angle helpers are not modelled. With points that have coordinates, the only non-number case is the zero-norm NaN, and that is modelled.
- Capture: the `pausado` and `grabando` switches are fixed, because the key handling that would flip them is commented out. Clearing the history and saving it (`guardar_historial`, `mostrar_controles`, `mostrar_estado`) are not modelled.
- Capture: `time.time()` is injected as four readings per frame. `Monotone` states that time does not run backwards. The loop ending because the camera fails is modelled as the frame list running out.
- Capture.LandmarkAt: landmark lists longer than 33 are excluded by precondition, because `PoseLandmark(i)` raises for such indices and MediaPipe always returns 33.
- Capture.RunSession: the analysis and text-to-speech calls that consume the sample are network calls and are left out. So are the other LLM and TTS wrappers, and the diary, suggestions and ElevenLabs routers.
- `Math.random` and `random.sample` are injected as the per-frame draw and the picked positions.
- React state, effects, `requestAnimationFrame`, timers and async teardown are not modelled as such. The frame loop is a function over a sequence of frames, and the timers are sequences of ticks. The 1.2 s subtitle clearing and the 700 ms plan delay are not modelled.
- PoseCoach: speaking the cue text is a call into the page. The model returns which cue goes out.
- HeartRate: the Bluetooth connection, the connect button and the error text of a failed connection are I/O. A notification too short to decode makes the listener throw and is modelled as leaving the panel unchanged.
- CoachPage.SourceFor: how a video attempt ends is an input, not derived from timers. A video element still missing after the 200 ms wait (line 186) leaves neither video nor camera, and is not modelled. When the video loads, its duration replaces the 30-second review countdown (line 261); that reset is not modelled.
- CoachPage: the ElevenLabs conversation, the speech engine and the spoken "Perfect…" reply are left out.
- CoachPage.ToLower: lower-casing is ASCII only. JavaScript's full Unicode case mapping is not modelled.
- HealthExport: parsing the XML file, writing JSON, the file-size report, printing and the command line are I/O. The input is the element tree with each element's attributes as a map.
- HealthExport.GetDateRange: `dates.sort()` followed by taking both ends is modelled as the minimum and maximum under lexicographic order, a total order. The result is the same.
- Landmark, angle and symmetry names are Dafny enumerations instead of strings. The Spanish dictionary keys are the enumeration names.

## Findings

| source | as written | input that shows it | evidently intended | confidence | as-written member | corrected member |
|---|---|---|---|---|---|---|
| frontend/src/PoseCoach.jsx:19,71-87,101 | the frame loop is a closure created once by an effect that depends only on `speak`, so it reads `feedbackCooldown` from the first render (0) on every frame; the cooldown never takes effect and every defective frame speaks | two consecutive frames with a detected but empty landmark list (both depth defects) give a depth cue on both frames | after a correction, the next 90 frames are silent (the cooldown threaded from frame to frame) | not executed; read from the code | PoseCoach.StaleRun, PoseCoach.StaleLoopRepeatsCue | PoseCoach.Run, PoseCoach.CuesAreSpaced |
