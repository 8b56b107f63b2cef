/**
 * The squat coach of the browser front end: per video frame it derives a back
 * angle and two knee angles from the detected landmarks, classifies the frame
 * as one form defect (or none), and lets a cooldown counter decide whether a
 * spoken cue goes out.
 *
 * The random draw behind the occasional encouragement is a parameter of every
 * step, and the pose detector's output is the input of every frame.
 */
module PoseCoach {
  import opened Wrappers
  import opened Geometry

  /**
   * The landmark list of the first detected pose, indexed by body-part number.
   * An index past the end, or holding `None`, is a landmark that was not detected.
   */
  type Pose = seq<Option<Point>>

  const LeftShoulder: nat := 11
  const RightShoulder: nat := 12
  const LeftHip: nat := 23
  const RightHip: nat := 24
  const LeftKnee: nat := 25
  const RightKnee: nat := 26
  const LeftAnkle: nat := 27
  const RightAnkle: nat := 28

  function Landmark(pose: Pose, i: nat): Option<Point> {
    if i < |pose| then pose[i] else None
  }

  /** The angle assumed for a joint whose landmarks were not all detected. */
  const Straight: real := 180.0

  /** Below this mean back angle the back counts as rounded. */
  const RoundedBackBelow: real := 165.0

  /** Above this knee angle (on both sides) the squat counts as not deep enough. */
  const ShallowKneeAbove: real := 90.0

  /** The four joint angles of one frame. */
  datatype FormAngles = FormAngles(backLeft: real, backRight: real, kneeLeft: real, kneeRight: real)

  /** The mean of the two back angles, which lies between them. */
  function BackAngle(f: FormAngles): (r: real)
    ensures f.backLeft <= r <= f.backRight || f.backRight <= r <= f.backLeft
    ensures r < RoundedBackBelow ==> f.backLeft < RoundedBackBelow || f.backRight < RoundedBackBelow
  {
    (f.backLeft + f.backRight) / 2.0
  }

  function Min(a: real, b: real): real {
    if a <= b then a else b
  }

  /** Angle at the hip between the shoulder and a point one unit straight above the hip. */
  function BackSideAngle(n: Numerics, shoulder: Option<Point>, hip: Option<Point>): (r: real)
    requires Sound(n)
    ensures 0.0 <= r <= Straight
    ensures shoulder.None? || hip.None? ==> r == Straight
  {
    if hip.Some? && shoulder.Some?
    then AngleDeg(n, shoulder.value, hip.value, Point(hip.value.x, hip.value.y - 1.0))
    else Straight
  }

  /** The knee angle is measured between shoulder and ankle, with the knee as vertex. */
  function KneeAngle(n: Numerics, shoulder: Option<Point>, knee: Option<Point>, ankle: Option<Point>): (r: real)
    requires Sound(n)
    ensures 0.0 <= r <= Straight
    ensures shoulder.None? || knee.None? || ankle.None? ==> r == Straight
  {
    if shoulder.Some? && knee.Some? && ankle.Some?
    then AngleDeg(n, shoulder.value, knee.value, ankle.value)
    else Straight
  }

  function DeriveAngles(n: Numerics, pose: Pose): (f: FormAngles)
    requires Sound(n)
    ensures 0.0 <= f.backLeft <= Straight && 0.0 <= f.backRight <= Straight
    ensures 0.0 <= f.kneeLeft <= Straight && 0.0 <= f.kneeRight <= Straight
    ensures 0.0 <= BackAngle(f) <= Straight
    ensures Landmark(pose, LeftShoulder).None? || Landmark(pose, LeftHip).None? ==> f.backLeft == Straight
    ensures Landmark(pose, RightShoulder).None? || Landmark(pose, RightHip).None? ==> f.backRight == Straight
    ensures Landmark(pose, LeftShoulder).None? || Landmark(pose, LeftKnee).None? || Landmark(pose, LeftAnkle).None?
            ==> f.kneeLeft == Straight
    ensures Landmark(pose, RightShoulder).None? || Landmark(pose, RightKnee).None? || Landmark(pose, RightAnkle).None?
            ==> f.kneeRight == Straight
  {
    FormAngles(
      BackSideAngle(n, Landmark(pose, LeftShoulder), Landmark(pose, LeftHip)),
      BackSideAngle(n, Landmark(pose, RightShoulder), Landmark(pose, RightHip)),
      KneeAngle(n, Landmark(pose, LeftShoulder), Landmark(pose, LeftKnee), Landmark(pose, LeftAnkle)),
      KneeAngle(n, Landmark(pose, RightShoulder), Landmark(pose, RightKnee), Landmark(pose, RightAnkle)))
  }

  datatype Defect = NoDefect | BackRounded | InsufficientDepth

  /** The back check is made first; depth only matters for a straight enough back. */
  function Classify(f: FormAngles): (d: Defect)
    ensures d == BackRounded <==> BackAngle(f) < RoundedBackBelow
    ensures d == InsufficientDepth <==>
      BackAngle(f) >= RoundedBackBelow && f.kneeLeft > ShallowKneeAbove && f.kneeRight > ShallowKneeAbove
    ensures d == NoDefect <==>
      BackAngle(f) >= RoundedBackBelow && (f.kneeLeft <= ShallowKneeAbove || f.kneeRight <= ShallowKneeAbove)
  {
    if BackAngle(f) < RoundedBackBelow then BackRounded
    else if Min(f.kneeLeft, f.kneeRight) > ShallowKneeAbove then InsufficientDepth
    else NoDefect
  }

  /** A pose in which none of the eight landmarks the coach uses was detected. */
  predicate NothingVisible(pose: Pose) {
    forall i :: i in {LeftShoulder, RightShoulder, LeftHip, RightHip, LeftKnee, RightKnee, LeftAnkle, RightAnkle}
      ==> Landmark(pose, i).None?
  }

  /**
   * With nothing visible every angle defaults to 180 degrees, and 180 > 90 makes the
   * frame a depth defect rather than a frame without defect.
   */
  lemma NothingVisibleIsDepthDefect(n: Numerics, pose: Pose)
    requires Sound(n)
    requires NothingVisible(pose)
    ensures Classify(DeriveAngles(n, pose)) == InsufficientDepth
  {
    assert Landmark(pose, LeftShoulder).None? && Landmark(pose, RightShoulder).None?;
  }

  /**
   * A side whose landmarks are missing is classified as if that side were perfectly
   * straight: hiding it gives the same defect as showing it at 180 degrees.
   */
  lemma MissingSideReadsAsStraight(n: Numerics, pose: Pose)
    requires Sound(n)
    requires Landmark(pose, LeftShoulder).None?
    ensures var f := DeriveAngles(n, pose);
      Classify(f) == Classify(FormAngles(Straight, f.backRight, Straight, f.kneeRight))
  {
  }

  /** The spoken cues. */
  datatype Cue = BackCue | DepthCue | Encouragement {
    predicate IsCorrection() {
      !Encouragement?
    }

    function Message(): (m: string)
      ensures |m| > 0
    {
      match this
      case BackCue => "Coaching tip: keep your back straighter as you descend."
      case DepthCue => "Try to go a bit deeper—aim for thighs parallel to the floor."
      case Encouragement => "Nice form—keep breathing and stay tall through your chest."
    }
  }

  /** The three sentences have different lengths. */
  lemma MessageLength(c: Cue)
    ensures |c.Message()| == match c case BackCue => 55 case DepthCue => 60 case Encouragement => 58
  {
    match c
    case BackCue =>
    case DepthCue =>
    case Encouragement =>
  }

  /** Each cue has its own sentence, so the spoken text tells the cues apart. */
  lemma CueMessagesDistinct(c: Cue, d: Cue)
    requires c != d
    ensures c.Message() != d.Message()
  {
    MessageLength(c);
    MessageLength(d);
  }

  const InitialCooldown: int := 0
  const CorrectionCooldown: int := 90
  const EncouragementCooldown: int := 60

  /** An encouragement goes out when the draw in [0, 1) falls below this. */
  const EncouragementChance: real := 0.01

  /** What one frame produced: at most one cue, and the cooldown for the next frame. */
  datatype Outcome = Outcome(cue: Option<Cue>, cooldown: int)

  /** The cooldown scheduler: one decision per frame with a detected pose. */
  function Step(defect: Defect, cooldown: int, draw: real): (o: Outcome)
    ensures cooldown > 0 ==> o == Outcome(None, cooldown - 1)
    ensures o.cue == Some(BackCue) <==> cooldown <= 0 && defect == BackRounded
    ensures o.cue == Some(DepthCue) <==> cooldown <= 0 && defect == InsufficientDepth
    ensures o.cue == Some(Encouragement) <==> cooldown <= 0 && defect == NoDefect && draw < EncouragementChance
    ensures o.cue.Some? && o.cue.value.IsCorrection() ==> o.cooldown == CorrectionCooldown
    ensures o.cue == Some(Encouragement) ==> o.cooldown == EncouragementCooldown
    ensures cooldown <= 0 && o.cue.None? ==> o.cooldown == cooldown
  {
    if cooldown <= 0 then
      match defect
      case BackRounded => Outcome(Some(BackCue), CorrectionCooldown)
      case InsufficientDepth => Outcome(Some(DepthCue), CorrectionCooldown)
      case NoDefect =>
        if draw < EncouragementChance then Outcome(Some(Encouragement), EncouragementCooldown)
        else Outcome(None, cooldown)
    else
      Outcome(None, cooldown - 1)
  }

  /** The cooldown never leaves [0, 90] once it starts there. */
  predicate CooldownInRange(c: int) {
    0 <= c <= CorrectionCooldown
  }

  /**
   * One frame of the loop. A frame in which the detector found no pose skips the
   * whole classify-and-schedule block: nothing is said and the cooldown stays.
   */
  function Frame(n: Numerics, detection: Option<Pose>, cooldown: int, draw: real): (o: Outcome)
    requires Sound(n)
    ensures detection.None? ==> o == Outcome(None, cooldown)
    ensures o.cue.Some? ==> detection.Some? && cooldown <= 0
    ensures CooldownInRange(cooldown) ==> CooldownInRange(o.cooldown)
  {
    match detection
    case None => Outcome(None, cooldown)
    case Some(pose) => Step(Classify(DeriveAngles(n, pose)), cooldown, draw)
  }

  /** One frame's input: what the detector returned and the random draw of that frame. */
  datatype FrameInput = FrameInput(detection: Option<Pose>, draw: real)

  /** The cues of a sequence of frames, one entry per frame, and the cooldown left after them. */
  datatype Session = Session(cues: seq<Option<Cue>>, cooldown: int)

  function Run(n: Numerics, frames: seq<FrameInput>, cooldown: int): (s: Session)
    requires Sound(n)
    ensures |s.cues| == |frames|
    decreases |frames|
  {
    if frames == [] then Session([], cooldown)
    else
      var o := Frame(n, frames[0].detection, cooldown, frames[0].draw);
      var rest := Run(n, frames[1..], o.cooldown);
      Session([o.cue] + rest.cues, rest.cooldown)
  }

  /** The number of frames in which a pose was detected. */
  function Detected(frames: seq<FrameInput>): (k: nat)
    ensures k <= |frames|
  {
    if frames == [] then 0
    else (if frames[0].detection.Some? then 1 else 0) + Detected(frames[1..])
  }

  predicate Silent(cues: seq<Option<Cue>>) {
    forall i :: 0 <= i < |cues| ==> cues[i].None?
  }

  /** Starting from a cooldown in [0, 90] (a new session starts at 0), it stays there. */
  lemma {:induction false} RunKeepsCooldownInRange(n: Numerics, frames: seq<FrameInput>, cooldown: int)
    requires Sound(n)
    requires CooldownInRange(cooldown)
    ensures CooldownInRange(Run(n, frames, cooldown).cooldown)
    decreases |frames|
  {
    if frames != [] {
      var o := Frame(n, frames[0].detection, cooldown, frames[0].draw);
      RunKeepsCooldownInRange(n, frames[1..], o.cooldown);
    }
  }

  /**
   * While the cooldown is at least the number of frames, every frame is silent and each
   * frame with a detected pose takes exactly one off the cooldown.
   */
  lemma {:induction false} QuietWhileCooling(n: Numerics, frames: seq<FrameInput>, cooldown: int)
    requires Sound(n)
    requires |frames| <= cooldown
    ensures Silent(Run(n, frames, cooldown).cues)
    ensures Run(n, frames, cooldown).cooldown == cooldown - Detected(frames)
    decreases |frames|
  {
    if frames != [] {
      var o := Frame(n, frames[0].detection, cooldown, frames[0].draw);
      QuietWhileCooling(n, frames[1..], o.cooldown);
    }
  }

  /** Running two stretches of frames one after the other is running their concatenation. */
  lemma {:induction false} RunConcat(n: Numerics, a: seq<FrameInput>, b: seq<FrameInput>, cooldown: int)
    requires Sound(n)
    ensures var first := Run(n, a, cooldown);
      Run(n, a + b, cooldown) == Session(first.cues + Run(n, b, first.cooldown).cues, Run(n, b, first.cooldown).cooldown)
    decreases |a|
  {
    if a != [] {
      var ab := a + b;
      var o := Frame(n, a[0].detection, cooldown, a[0].draw);
      assert ab[0] == a[0] && ab[1..] == a[1..] + b;
      RunConcat(n, a[1..], b, o.cooldown);
      var restA := Run(n, a[1..], o.cooldown);
      var restB := Run(n, b, restA.cooldown);
      calc {
        Run(n, ab, cooldown);
        Session([o.cue] + Run(n, a[1..] + b, o.cooldown).cues, Run(n, a[1..] + b, o.cooldown).cooldown);
        Session([o.cue] + (restA.cues + restB.cues), restB.cooldown);
        { assert [o.cue] + (restA.cues + restB.cues) == ([o.cue] + restA.cues) + restB.cues; }
        Session(([o.cue] + restA.cues) + restB.cues, restB.cooldown);
      }
      assert Run(n, a, cooldown) == Session([o.cue] + restA.cues, restA.cooldown);
    } else {
      assert a + b == b;
      assert [] + Run(n, b, cooldown).cues == Run(n, b, cooldown).cues;
    }
  }

  /**
   * After a correction the next 90 frames are silent whatever happens in them, and if a
   * pose was detected in all 90 the cooldown is back at 0 for the frame after.
   */
  lemma CorrectionSilencesNinetyFrames(n: Numerics, frame: FrameInput, cooldown: int, next: seq<FrameInput>)
    requires Sound(n)
    requires |next| <= CorrectionCooldown
    requires var o := Frame(n, frame.detection, cooldown, frame.draw); o.cue.Some? && o.cue.value.IsCorrection()
    ensures Silent(Run(n, [frame] + next, cooldown).cues[1..])
    ensures |next| == CorrectionCooldown && Detected(next) == |next| ==> Run(n, [frame] + next, cooldown).cooldown == 0
  {
    var o := Frame(n, frame.detection, cooldown, frame.draw);
    assert ([frame] + next)[1..] == next;
    QuietWhileCooling(n, next, o.cooldown);
  }

  /** A frame within the cooldown is silent, whatever the frames before it did. */
  lemma QuietWithin(n: Numerics, frames: seq<FrameInput>, cooldown: int, k: nat)
    requires Sound(n)
    requires k < |frames| && k < cooldown
    ensures Run(n, frames, cooldown).cues[k].None?
  {
    RunConcat(n, frames[..k + 1], frames[k + 1..], cooldown);
    assert frames[..k + 1] + frames[k + 1..] == frames;
    QuietWhileCooling(n, frames[..k + 1], cooldown);
  }

  /** The cue of frame `i` is decided with the cooldown the frames before it left, and later cues follow from its own. */
  lemma CueAfterPrefix(n: Numerics, frames: seq<FrameInput>, cooldown: int, i: nat, j: nat)
    requires Sound(n)
    requires i < j < |frames|
    ensures var o := Frame(n, frames[i].detection, Run(n, frames[..i], cooldown).cooldown, frames[i].draw);
      && Run(n, frames, cooldown).cues[i] == o.cue
      && Run(n, frames, cooldown).cues[j] == Run(n, frames[i + 1..], o.cooldown).cues[j - i - 1]
  {
    var before := Run(n, frames[..i], cooldown);
    RunConcat(n, frames[..i], frames[i..], cooldown);
    assert frames[..i] + frames[i..] == frames;
    var tail := frames[i..];
    assert tail[1..] == frames[i + 1..];
    var o := Frame(n, tail[0].detection, before.cooldown, tail[0].draw);
    var afterCue := Run(n, tail[1..], o.cooldown);
    assert Run(n, frames, cooldown).cues[i..] == [o.cue] + afterCue.cues;
  }

  /**
   * Two cues of one session are more than 60 frames apart, and more than 90 when the
   * earlier one is a correction.
   */
  lemma CuesAreSpaced(n: Numerics, frames: seq<FrameInput>, cooldown: int, i: nat, j: nat)
    requires Sound(n)
    requires i < j < |frames|
    requires Run(n, frames, cooldown).cues[i].Some? && Run(n, frames, cooldown).cues[j].Some?
    ensures j - i > EncouragementCooldown
    ensures Run(n, frames, cooldown).cues[i].value.IsCorrection() ==> j - i > CorrectionCooldown
  {
    var o := Frame(n, frames[i].detection, Run(n, frames[..i], cooldown).cooldown, frames[i].draw);
    CueAfterPrefix(n, frames, cooldown, i, j);
    if j - i <= o.cooldown {
      QuietWithin(n, frames[i + 1..], o.cooldown, j - i - 1);
      assert false;
    }
  }

  /**
   * The loop as the component writes it: the frame callback is created once, so it
   * keeps reading the cooldown of the first render, which is 0, and every frame is
   * scheduled as if no cue had been given before.
   */
  function StaleRun(n: Numerics, frames: seq<FrameInput>): (cues: seq<Option<Cue>>)
    requires Sound(n)
    ensures |cues| == |frames|
    ensures forall i :: 0 <= i < |frames| ==> cues[i] == Frame(n, frames[i].detection, InitialCooldown, frames[i].draw).cue
    decreases |frames|
  {
    if frames == [] then []
    else [Frame(n, frames[0].detection, InitialCooldown, frames[0].draw).cue] + StaleRun(n, frames[1..])
  }

  /**
   * Two consecutive frames with a detected but empty landmark list are both depth
   * defects: the stale loop speaks twice in a row, the threaded cooldown only once.
   */
  lemma StaleLoopRepeatsCue(n: Numerics)
    requires Sound(n)
    ensures var frames := [FrameInput(Some([]), 0.5), FrameInput(Some([]), 0.5)];
      && StaleRun(n, frames) == [Some(DepthCue), Some(DepthCue)]
      && Run(n, frames, InitialCooldown).cues == [Some(DepthCue), None]
  {
    NothingVisibleIsDepthDefect(n, []);
  }
}
