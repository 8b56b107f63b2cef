/**
 * The Python capture loop around the angle tools: each camera frame's landmarks
 * are filtered down to the visible tracked ones, the angles are computed from
 * them, and while recording a reading is appended to the history at most once
 * every half second, for a session of fifteen seconds. At the end three
 * readings are drawn from the middle of the history for analysis.
 *
 * The camera, the pose detector and the clock are inputs: every frame carries
 * the detector's landmark list (or none) and the clock readings taken while the
 * frame was handled. The random draw is a parameter as well.
 */
module Capture {
  import opened Wrappers
  import opened Geometry
  import opened BodyAngles

  /** One landmark as the detector reports it: coordinates relative to the image, and a visibility score. */
  datatype RawLandmark = RawLandmark(x: real, y: real, z: real, visibility: real)

  /** Landmarks seen with a lower score than this are skipped. */
  const MinVisibility: real := 0.5

  /** The detector reports this many landmarks, indexed from 0. */
  const LandmarkCount: nat := 33

  /** `mp_pose.PoseLandmark(i)`: the landmark named by index `i` of the detector's list. */
  function LandmarkAt(i: nat): (k: PoseLandmark)
    requires i < LandmarkCount
    ensures Index(k) == i
  {
    if i < 11 then FaceLandmark(i) else if i < 23 then ArmLandmark(i) else LegLandmark(i)
  }

  function FaceLandmark(i: nat): (k: PoseLandmark)
    requires i < 11
    ensures Index(k) == i
  {
    if i == 0 then Nose else if i == 1 then LeftEyeInner else if i == 2 then LeftEye
    else if i == 3 then LeftEyeOuter else if i == 4 then RightEyeInner else if i == 5 then RightEye
    else if i == 6 then RightEyeOuter else if i == 7 then LeftEar else if i == 8 then RightEar
    else if i == 9 then MouthLeft else MouthRight
  }

  function ArmLandmark(i: nat): (k: PoseLandmark)
    requires 11 <= i < 23
    ensures Index(k) == i
  {
    if i == 11 then LeftShoulder else if i == 12 then RightShoulder else if i == 13 then LeftElbow
    else if i == 14 then RightElbow else if i == 15 then LeftWrist else if i == 16 then RightWrist
    else if i == 17 then LeftPinky else if i == 18 then RightPinky else if i == 19 then LeftIndex
    else if i == 20 then RightIndex else if i == 21 then LeftThumb else RightThumb
  }

  function LegLandmark(i: nat): (k: PoseLandmark)
    requires 23 <= i < LandmarkCount
    ensures Index(k) == i
  {
    if i == 23 then LeftHip else if i == 24 then RightHip else if i == 25 then LeftKnee
    else if i == 26 then RightKnee else if i == 27 then LeftAnkle else if i == 28 then RightAnkle
    else if i == 29 then LeftHeel else if i == 30 then RightHeel else if i == 31 then LeftFootIndex
    else RightFootIndex
  }

  /** The index of a landmark in the detector's list; the inverse of `LandmarkAt`. */
  function Index(k: PoseLandmark): (i: nat)
    ensures i < LandmarkCount
  {
    match k
    case Nose => 0 case LeftEyeInner => 1 case LeftEye => 2 case LeftEyeOuter => 3
    case RightEyeInner => 4 case RightEye => 5 case RightEyeOuter => 6
    case LeftEar => 7 case RightEar => 8 case MouthLeft => 9 case MouthRight => 10
    case LeftShoulder => 11 case RightShoulder => 12 case LeftElbow => 13 case RightElbow => 14
    case LeftWrist => 15 case RightWrist => 16 case LeftPinky => 17 case RightPinky => 18
    case LeftIndex => 19 case RightIndex => 20 case LeftThumb => 21 case RightThumb => 22
    case LeftHip => 23 case RightHip => 24 case LeftKnee => 25 case RightKnee => 26
    case LeftAnkle => 27 case RightAnkle => 28 case LeftHeel => 29 case RightHeel => 30
    case LeftFootIndex => 31 case RightFootIndex => 32
  }

  /** Each landmark is named by its own index. */
  lemma LandmarkAtIndex(k: PoseLandmark)
    ensures LandmarkAt(Index(k)) == k
  {
  }

  /**
   * MediaPipe numbers a body landmark's left instance oddly and its right one the
   * next even index: each symmetry pair is such a mirror pair.
   */
  lemma SymmetryPairsMirror(k: SymmetryName)
    ensures Index(SymmetryLandmarks(k).0) == Index(SymmetryLandmarks(k).1) + 1
    ensures Index(SymmetryLandmarks(k).1) % 2 == 1
  {
  }

  /** The three landmarks of an angle are all on one side of the body. */
  lemma AngleLandmarksOneSide(k: AngleName)
    ensures var t := AngleLandmarks(k);
      Index(t.first) % 2 == Index(t.vertex) % 2 == Index(t.last) % 2
  {
  }

  /** The stored entry for a landmark: pixel coordinates in a `width` by `height` frame. */
  function Scale(lm: RawLandmark, width: nat, height: nat): (p: Position)
    ensures p.visibility == lm.visibility && p.z == lm.z
  {
    Position(lm.x * width as real, lm.y * height as real, lm.z, lm.visibility)
  }

  /** Whether the loop body keeps the entry at index `i`. */
  predicate Kept(lms: seq<RawLandmark>, i: nat)
    requires i < |lms| <= LandmarkCount
  {
    lms[i].visibility >= MinVisibility && LandmarkAt(i) in TrackedLandmarks
  }

  /** The entries the filtering loop has written after visiting the first `count` landmarks. */
  function FilterPrefix(lms: seq<RawLandmark>, count: nat, width: nat, height: nat): (pos: Positions)
    requires count <= |lms| <= LandmarkCount
    ensures pos.Keys <= TrackedLandmarks
    ensures forall k :: k in pos ==> pos[k].visibility >= MinVisibility
  {
    if count == 0 then map[]
    else
      var prev := FilterPrefix(lms, count - 1, width, height);
      var i := count - 1;
      if Kept(lms, i) then prev[LandmarkAt(i) := Scale(lms[i], width, height)] else prev
  }

  /** `posiciones` as the loop over the detected landmarks builds it. */
  function Filter(lms: seq<RawLandmark>, width: nat, height: nat): (pos: Positions)
    requires |lms| <= LandmarkCount
    ensures pos.Keys <= TrackedLandmarks
    ensures forall k :: k in pos ==> pos[k].visibility >= MinVisibility
  {
    FilterPrefix(lms, |lms|, width, height)
  }

  /**
   * The landmarks a filter should keep, stated per landmark: a tracked landmark
   * whose index is in the list and whose visibility is at least one half.
   */
  predicate Visible(lms: seq<RawLandmark>, k: PoseLandmark) {
    k in TrackedLandmarks && Index(k) < |lms| && lms[Index(k)].visibility >= MinVisibility
  }

  /**
   * The filter keeps a landmark exactly when it is tracked and seen well enough,
   * and stores that landmark's own scaled coordinates.
   */
  lemma FilterKeepsVisible(lms: seq<RawLandmark>, width: nat, height: nat)
    requires |lms| <= LandmarkCount
    ensures forall k :: k in Filter(lms, width, height) <==> Visible(lms, k)
    ensures forall k :: k in Filter(lms, width, height) ==>
      Index(k) < |lms| && Filter(lms, width, height)[k] == Scale(lms[Index(k)], width, height)
  {
    FilterPrefixKeepsVisible(lms, |lms|, width, height);
  }

  lemma {:induction false} FilterPrefixKeepsVisible(lms: seq<RawLandmark>, count: nat, width: nat, height: nat)
    requires count <= |lms| <= LandmarkCount
    ensures forall k :: k in FilterPrefix(lms, count, width, height) <==> Visible(lms, k) && Index(k) < count
    ensures forall k :: k in FilterPrefix(lms, count, width, height) ==>
      FilterPrefix(lms, count, width, height)[k] == Scale(lms[Index(k)], width, height)
  {
    if count > 0 {
      FilterPrefixKeepsVisible(lms, count - 1, width, height);
      forall k | k in TrackedLandmarks && Index(k) == count - 1
        ensures k == LandmarkAt(count - 1)
      {
        LandmarkAtIndex(k);
      }
    }
  }

  /**
   * `procesar_frame`: no detected pose gives two empty dictionaries; otherwise the
   * readings of the filtered landmarks.
   */
  function ProcessFrame(n: Numerics, detection: Option<seq<RawLandmark>>, width: nat, height: nat): (r: BodyReading)
    requires Sound(n)
    requires detection.Some? ==> |detection.value| <= LandmarkCount
    ensures detection.None? ==> r == BodyReading(map[], map[])
  {
    match detection
    case None => BodyReading(map[], map[])
    case Some(lms) => BodyAngles.BodyAngles(n, Filter(lms, width, height))
  }

  /**
   * A frame's angle reading is present exactly when a pose was detected and all
   * three of its landmarks were seen with visibility at least one half; a symmetry
   * reading exactly when both landmarks of its pair were.
   */
  lemma ProcessFrameReadings(n: Numerics, detection: Option<seq<RawLandmark>>, width: nat, height: nat)
    requires Sound(n)
    requires detection.Some? ==> |detection.value| <= LandmarkCount
    ensures forall k :: k in ProcessFrame(n, detection, width, height).angles <==>
      detection.Some? && Visible(detection.value, AngleLandmarks(k).first)
      && Visible(detection.value, AngleLandmarks(k).vertex) && Visible(detection.value, AngleLandmarks(k).last)
    ensures forall k :: k in ProcessFrame(n, detection, width, height).symmetries <==>
      detection.Some? && Visible(detection.value, SymmetryLandmarks(k).0)
      && Visible(detection.value, SymmetryLandmarks(k).1)
  {
    if detection.Some? {
      FilterKeepsVisible(detection.value, width, height);
    }
  }

  /** The two switches of the loop; the key handling that would flip them is disabled in the source. */
  datatype Controls = Controls(paused: bool, recording: bool)

  /** `pausado = False`, `grabando = True`. */
  const InitialControls: Controls := Controls(false, true)

  /** The minimum time between two captures, in seconds. */
  const CaptureInterval: real := 0.5

  /** The loop stops at the first frame handled this many seconds after it started. */
  const SessionSeconds: real := 15.0

  /**
   * The clock readings taken while one frame is handled, in program order: the
   * throttle test, the capture's timestamp, the new reference point, the stop test.
   */
  datatype Clock = Clock(check: real, stamp: real, restart: real, stop: real)

  /** One camera frame: the detector's landmark list when a pose was found, and the clock readings. */
  datatype CameraFrame = CameraFrame(detection: Option<seq<RawLandmark>>, clock: Clock)

  /** One history entry: when it was taken and the readings. */
  datatype Entry = Entry(timestamp: real, reading: BodyReading)

  predicate FrameFits(f: CameraFrame) {
    f.detection.Some? ==> |f.detection.value| <= LandmarkCount
  }

  /** What one frame contributes to the history, and the throttle's reference point afterwards. */
  datatype Capture = Capture(entry: Option<Entry>, startPoint: real)

  /**
   * The loop body up to the history append: a frame is captured when the loop is
   * not paused, a pose was detected, recording is on and at least half a second has
   * passed since the reference point, which then moves to the current time.
   */
  function CaptureFrame(n: Numerics, controls: Controls, f: CameraFrame, width: nat, height: nat, startPoint: real): (c: Capture)
    requires Sound(n)
    requires FrameFits(f)
    ensures c.entry.Some? <==>
      !controls.paused && f.detection.Some? && controls.recording && f.clock.check - startPoint >= CaptureInterval
    ensures c.entry.Some? ==> c.entry.value == Entry(f.clock.stamp, ProcessFrame(n, f.detection, width, height))
    ensures c.startPoint == if c.entry.Some? then f.clock.restart else startPoint
  {
    if !controls.paused && f.detection.Some? && controls.recording && f.clock.check - startPoint >= CaptureInterval then
      Capture(Some(Entry(f.clock.stamp, ProcessFrame(n, f.detection, width, height))), f.clock.restart)
    else
      Capture(None, startPoint)
  }

  function EntryList(e: Option<Entry>): (s: seq<Entry>)
    ensures |s| <= 1 && (e.Some? <==> |s| == 1) && (e.Some? ==> s[0] == e.value)
  {
    if e.Some? then [e.value] else []
  }

  predicate AllFit(frames: seq<CameraFrame>) {
    forall i :: 0 <= i < |frames| ==> FrameFits(frames[i])
  }

  /**
   * The entries `run_opencv_process` appends to the history, given the frames the
   * camera delivers until it stops: the loop ends when the frames run out or after
   * the first frame whose stop test finds fifteen seconds gone since `startTime`.
   */
  function Session(n: Numerics, controls: Controls, frames: seq<CameraFrame>, width: nat, height: nat,
                   startTime: real, startPoint: real): (entries: seq<Entry>)
    requires Sound(n)
    requires AllFit(frames)
    ensures |entries| <= |frames|
  {
    if frames == [] then []
    else
      var c := CaptureFrame(n, controls, frames[0], width, height, startPoint);
      if frames[0].clock.stop - startTime >= SessionSeconds then EntryList(c.entry)
      else EntryList(c.entry) + Session(n, controls, frames[1..], width, height, startTime, c.startPoint)
  }

  /**
   * While paused or not recording, the history does not grow. The loop starts with
   * `InitialControls` and the keys that would flip either switch are commented out,
   * so this describes the loop's guards rather than a state the loop can reach.
   */
  lemma {:induction false} IdleSessionRecordsNothing(n: Numerics, controls: Controls, frames: seq<CameraFrame>,
                                                     width: nat, height: nat, startTime: real, startPoint: real)
    requires Sound(n)
    requires AllFit(frames)
    requires controls.paused || !controls.recording
    ensures Session(n, controls, frames, width, height, startTime, startPoint) == []
  {
    if frames != [] {
      var c := CaptureFrame(n, controls, frames[0], width, height, startPoint);
      IdleSessionRecordsNothing(n, controls, frames[1..], width, height, startTime, c.startPoint);
    }
  }

  /** The clock readings never go backwards, within a frame and from one frame to the next. */
  predicate Monotone(frames: seq<CameraFrame>) {
    && (forall i :: 0 <= i < |frames| ==>
          frames[i].clock.check <= frames[i].clock.stamp <= frames[i].clock.restart <= frames[i].clock.stop)
    && (forall i :: 0 <= i < |frames| - 1 ==> frames[i].clock.stop <= frames[i + 1].clock.check)
  }

  /** The first capture is half a second after `startPoint`, and each later one half a second after its predecessor. */
  predicate Spaced(entries: seq<Entry>, startPoint: real) {
    && (|entries| > 0 ==> entries[0].timestamp >= startPoint + CaptureInterval)
    && (forall i :: 0 <= i < |entries| - 1 ==> entries[i + 1].timestamp >= entries[i].timestamp + CaptureInterval)
  }

  predicate TakenFrom(entries: seq<Entry>, t: real) {
    forall i :: 0 <= i < |entries| ==> entries[i].timestamp >= t
  }

  predicate AllButLastBefore(entries: seq<Entry>, deadline: real) {
    forall i :: 0 <= i < |entries| - 1 ==> entries[i].timestamp < deadline
  }

  lemma MonotoneTail(frames: seq<CameraFrame>)
    requires frames != [] && Monotone(frames)
    ensures Monotone(frames[1..])
  {
    var tail := frames[1..];
    forall i | 0 <= i < |tail| - 1
      ensures tail[i].clock.stop <= tail[i + 1].clock.check
    {
      assert tail[i] == frames[i + 1] && tail[i + 1] == frames[i + 2];
    }
  }

  /**
   * With a clock that never goes backwards, the k-th capture (from 0) is taken at
   * least half a second after the previous one, the first at least half a second
   * after the reference point: so the k-th is at least (k + 1) / 2 seconds after it.
   */
  lemma {:induction false} CapturesAreSpaced(n: Numerics, controls: Controls, frames: seq<CameraFrame>,
                                             width: nat, height: nat, startTime: real, startPoint: real)
    requires Sound(n)
    requires AllFit(frames) && Monotone(frames)
    ensures Spaced(Session(n, controls, frames, width, height, startTime, startPoint), startPoint)
  {
    if frames != [] {
      var f := frames[0];
      var c := CaptureFrame(n, controls, f, width, height, startPoint);
      if f.clock.stop - startTime < SessionSeconds {
        MonotoneTail(frames);
        CapturesAreSpaced(n, controls, frames[1..], width, height, startTime, c.startPoint);
        CapturesFollowFrame(n, controls, frames, width, height, startTime, c.startPoint);
        var head, rest := EntryList(c.entry), Session(n, controls, frames[1..], width, height, startTime, c.startPoint);
        var entries := head + rest;
        forall i | 0 <= i < |entries| - 1
          ensures entries[i + 1].timestamp >= entries[i].timestamp + CaptureInterval
        {
          if i >= |head| {
            assert entries[i] == rest[i - |head|] && entries[i + 1] == rest[i - |head| + 1];
          } else {
            assert entries[i] == c.entry.value && entries[i + 1] == rest[0];
          }
        }
      }
    }
  }

  /** Captures of the later frames come after the first frame's stop test. */
  lemma CapturesFollowFrame(n: Numerics, controls: Controls, frames: seq<CameraFrame>,
                            width: nat, height: nat, startTime: real, startPoint: real)
    requires Sound(n)
    requires |frames| >= 1 && AllFit(frames) && Monotone(frames)
    ensures TakenFrom(Session(n, controls, frames[1..], width, height, startTime, startPoint), frames[0].clock.stop)
  {
    MonotoneTail(frames);
    CapturesAfter(n, controls, frames[1..], width, height, startTime, startPoint);
  }

  lemma {:induction false} CapturesAfter(n: Numerics, controls: Controls, frames: seq<CameraFrame>,
                                         width: nat, height: nat, startTime: real, startPoint: real)
    requires Sound(n)
    requires AllFit(frames) && Monotone(frames)
    ensures frames != [] ==> TakenFrom(Session(n, controls, frames, width, height, startTime, startPoint), frames[0].clock.check)
  {
    if frames != [] {
      var c := CaptureFrame(n, controls, frames[0], width, height, startPoint);
      if frames[0].clock.stop - startTime < SessionSeconds {
        MonotoneTail(frames);
        CapturesAfter(n, controls, frames[1..], width, height, startTime, c.startPoint);
        var head, rest := EntryList(c.entry), Session(n, controls, frames[1..], width, height, startTime, c.startPoint);
        var entries := head + rest;
        forall i | 0 <= i < |entries|
          ensures entries[i].timestamp >= frames[0].clock.check
        {
          if i >= |head| {
            assert entries[i] == rest[i - |head|];
            assert frames[1..][0] == frames[1];
            assert frames[0].clock.check <= frames[0].clock.stop <= frames[1].clock.check;
          } else {
            assert entries[i] == c.entry.value;
            assert frames[0].clock.check <= frames[0].clock.stamp;
          }
        }
      }
    }
  }

  /** Every capture except the last is taken before the fifteen seconds are up. */
  lemma {:induction false} CapturesWithinSession(n: Numerics, controls: Controls, frames: seq<CameraFrame>,
                                                 width: nat, height: nat, startTime: real, startPoint: real)
    requires Sound(n)
    requires AllFit(frames) && Monotone(frames)
    ensures AllButLastBefore(Session(n, controls, frames, width, height, startTime, startPoint), startTime + SessionSeconds)
  {
    if frames != [] {
      var c := CaptureFrame(n, controls, frames[0], width, height, startPoint);
      if frames[0].clock.stop - startTime < SessionSeconds {
        MonotoneTail(frames);
        CapturesWithinSession(n, controls, frames[1..], width, height, startTime, c.startPoint);
        var head, rest := EntryList(c.entry), Session(n, controls, frames[1..], width, height, startTime, c.startPoint);
        var entries := head + rest;
        forall i | 0 <= i < |entries| - 1
          ensures entries[i].timestamp < startTime + SessionSeconds
        {
          if i >= |head| {
            assert entries[i] == rest[i - |head|];
          } else {
            assert entries[i] == c.entry.value;
            assert frames[0].clock.stamp <= frames[0].clock.stop;
          }
        }
      }
    }
  }

  /** The k-th capture is at least (k + 1) half seconds after the reference point. */
  lemma {:induction false} CaptureTimesGrow(entries: seq<Entry>, startPoint: real, k: nat)
    requires Spaced(entries, startPoint)
    requires k < |entries|
    ensures entries[k].timestamp >= startPoint + CaptureInterval * (k + 1) as real
  {
    if k > 0 {
      CaptureTimesGrow(entries, startPoint, k - 1);
    }
  }

  /**
   * With a clock that never goes backwards, one session captures at most thirty
   * readings: fifteen seconds at one capture per half second.
   */
  lemma AtMostThirtyCaptures(n: Numerics, controls: Controls, frames: seq<CameraFrame>,
                             width: nat, height: nat, startTime: real, startPoint: real)
    requires Sound(n)
    requires AllFit(frames) && Monotone(frames)
    requires startTime <= startPoint
    ensures |Session(n, controls, frames, width, height, startTime, startPoint)| <= 30
  {
    var entries := Session(n, controls, frames, width, height, startTime, startPoint);
    if |entries| >= 2 {
      CapturesAreSpaced(n, controls, frames, width, height, startTime, startPoint);
      CapturesWithinSession(n, controls, frames, width, height, startTime, startPoint);
      var k := |entries| - 2;
      CaptureTimesGrow(entries, startPoint, k);
      assert startPoint + CaptureInterval * (k + 1) as real < startTime + SessionSeconds;
    }
  }

  /** Why the final draw can fail. */
  datatype SampleError = SampleLargerThanPopulation

  /**
   * Python's `s[start:stop]` for a slice with constant bounds: a negative bound
   * counts from the end, and both bounds are clamped to the sequence.
   */
  function PySlice<T>(s: seq<T>, start: int, stop: int): (r: seq<T>)
    ensures var a := PyBound(|s|, start); var b := PyBound(|s|, stop);
      if a <= b then r == s[a..b] else r == []
  {
    var a := PyBound(|s|, start);
    var b := PyBound(|s|, stop);
    if a <= b then s[a..b] else []
  }

  function PyBound(len: nat, bound: int): (i: nat)
    ensures i <= len
    ensures 0 <= bound <= len ==> i == bound
    ensures bound < 0 && len + bound >= 0 ==> i == len + bound
  {
    if bound < 0 then (if len + bound < 0 then 0 else len + bound)
    else if bound > len then len
    else bound
  }

  /**
   * `history[5:-6]`: the captures without the first five and the last six, so
   * eleven fewer than the history holds, in their order.
   */
  function SampleWindow<T>(history: seq<T>): (window: seq<T>)
    ensures |window| == if |history| >= 11 then |history| - 11 else 0
    ensures forall i :: 0 <= i < |window| ==> window[i] == history[i + 5]
  {
    PySlice(history, 5, -6)
  }

  /** Valid choices for `random.sample`: distinct positions inside the population. */
  predicate DistinctPositions(picks: seq<nat>, size: nat) {
    && (forall i :: 0 <= i < |picks| ==> picks[i] < size)
    && (forall i, j :: 0 <= i < j < |picks| ==> picks[i] != picks[j])
  }

  /**
   * `random.sample(population, len(picks))` with the random choice given as
   * `picks`: it fails when asked for more elements than the population has.
   */
  function Sample<T>(population: seq<T>, picks: seq<nat>): (r: Result<seq<T>, SampleError>)
    requires |picks| <= |population| ==> DistinctPositions(picks, |population|)
    ensures r.Failure? <==> |picks| > |population|
    ensures r.Success? ==> |r.value| == |picks| && forall i :: 0 <= i < |picks| ==> r.value[i] == population[picks[i]]
  {
    if |picks| > |population| then Failure(SampleLargerThanPopulation)
    else Success(seq(|picks|, i requires 0 <= i < |picks| => population[picks[i]]))
  }

  /** The number of captures sent for analysis. */
  const SampleSize: nat := 3

  /**
   * The draw after the session: three captures from the middle of the history.
   * `history` is the whole module-level list, which earlier sessions have also
   * appended to. The draw succeeds exactly when the history holds at least
   * fourteen captures, and then returns captures from positions 5 to |history| - 7.
   */
  function FinalSample(history: seq<Entry>, picks: seq<nat>): (r: Result<seq<Entry>, SampleError>)
    requires |picks| == SampleSize
    requires |picks| <= |SampleWindow(history)| ==> DistinctPositions(picks, |SampleWindow(history)|)
    ensures r.Success? <==> |history| >= 14
    ensures r.Success? ==> |r.value| == SampleSize
    ensures r.Success? ==>
      forall i :: 0 <= i < SampleSize ==> 5 <= picks[i] + 5 < |history| - 6 && r.value[i] == history[picks[i] + 5]
  {
    Sample(SampleWindow(history), picks)
  }

  /**
   * `run_opencv_process` up to the analysis call: the session's captures are
   * appended to the history, and the draw is made from the whole history.
   */
  function RunSession(n: Numerics, frames: seq<CameraFrame>, width: nat, height: nat,
                      startTime: real, startPoint: real, history: seq<Entry>, picks: seq<nat>)
    : (r: Result<seq<Entry>, SampleError>)
    requires Sound(n)
    requires AllFit(frames)
    requires |picks| == SampleSize
    requires var all := history + Session(n, InitialControls, frames, width, height, startTime, startPoint);
      |picks| <= |SampleWindow(all)| ==> DistinctPositions(picks, |SampleWindow(all)|)
    ensures r.Success? <==>
      |history| + |Session(n, InitialControls, frames, width, height, startTime, startPoint)| >= 14
  {
    var all := history + Session(n, InitialControls, frames, width, height, startTime, startPoint);
    FinalSample(all, picks)
  }
}
