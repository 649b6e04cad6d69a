/**
 * The stillness tracker as a pure state machine: the state main.js keeps in
 * `lastPosition` and `stillCount`, the transition one detection tick makes
 * (Step), and runs of ticks (Run). The class Tracker in tracker.dfy is the
 * imperative form and is proved to follow Step.
 */
module Stillness {

  import opened Wrappers
  import opened Geometry
  import opened Display

  /** What the detector reports on one tick: a face box, or no face. */
  datatype Sample = NoFace | Face(box: Box)

  /** The centre seen on the previous tick (if any) and the number of still ticks since. */
  datatype State = State(lastPosition: Option<Point>, stillCount: nat)

  /** What changes the tracker: a detection tick, or a click on the dismiss button. */
  datatype Event = Tick(sample: Sample) | DismissClick

  /** The state at startup and after a reset. */
  const Initial: State := State(None, 0)

  /** No still ticks are counted while there is no previous centre. */
  predicate Consistent(s: State)
  {
    s.lastPosition.None? ==> s.stillCount == 0
  }

  /** One detection tick. */
  function Step(s: State, sample: Sample): State
  {
    match sample
    case NoFace => Initial
    case Face(b) =>
      var current := MidPoint(b);
      var count := if s.lastPosition.Some? && Near(s.lastPosition.value, current) then s.stillCount + 1 else 0;
      State(Some(current), count)
  }

  /** The ticks of `samples`, in order, starting from `s`. */
  function Run(s: State, samples: seq<Sample>): State
  {
    if samples == [] then s else Step(Run(s, samples[..|samples| - 1]), samples[|samples| - 1])
  }

  /** One event: a tick steps the tracker, a dismiss click resets it. */
  function Apply(s: State, e: Event): State
  {
    match e
    case Tick(x) => Step(s, x)
    case DismissClick => Initial
  }

  /** The events of `events`, in order, starting from `s`. */
  function Replay(s: State, events: seq<Event>): State
  {
    if events == [] then s else Apply(Replay(s, events[..|events| - 1]), events[|events| - 1])
  }

  /** The samples the events amount to, with a dismiss click read as a tick without a face. */
  function AsSamples(events: seq<Event>): (samples: seq<Sample>)
    ensures |samples| == |events|
  {
    if events == [] then []
    else
      var e := events[|events| - 1];
      AsSamples(events[..|events| - 1]) + [if e.Tick? then e.sample else NoFace]
  }

  /** The number of ticks among `events` on which a face was detected. */
  function DetectedTicks(events: seq<Event>): nat
  {
    if events == [] then 0
    else
      var detected := match events[|events| - 1] case Tick(Face(_)) => 1 case _ => 0;
      DetectedTicks(events[..|events| - 1]) + detected
  }

  /** The number of ticks on which a face was detected. */
  function Detections(samples: seq<Sample>): nat
  {
    if samples == [] then 0
    else Detections(samples[..|samples| - 1]) + (if samples[|samples| - 1].Face? then 1 else 0)
  }

  /** The number of detections at the end of `samples` since the last tick without a face. */
  function TrailingDetections(samples: seq<Sample>): nat
  {
    if samples == [] || samples[|samples| - 1].NoFace? then 0
    else TrailingDetections(samples[..|samples| - 1]) + 1
  }

  /** `n` copies of the same sample. */
  function Repeat(x: Sample, n: nat): (r: seq<Sample>)
    ensures |r| == n
    ensures forall i :: 0 <= i < n ==> r[i] == x
  {
    seq(n, _ => x)
  }

  /** A tick without a face resets the tracker, whatever it held before. */
  lemma NoFaceResets(s: State)
    ensures Step(s, NoFace) == Initial
    ensures Step(s, NoFace).lastPosition.None? && Step(s, NoFace).stillCount == 0
  {
  }

  /** A detection with no previous centre never counts as still. */
  lemma FirstDetectionNotStill(s: State, b: Box)
    requires s.lastPosition.None?
    ensures Step(s, Face(b)) == State(Some(MidPoint(b)), 0)
  {
  }

  /**
   * A detection `d` pixels from the previous centre, where `d` is the Euclidean
   * distance: closer than 10 pixels adds exactly one still tick, 10 pixels or
   * more resets the count; either way the new centre is remembered.
   */
  lemma DetectionByDistance(s: State, b: Box, d: real)
    requires s.lastPosition.Some?
    requires IsDistance(d, s.lastPosition.value, MidPoint(b))
    ensures Step(s, Face(b)).lastPosition == Some(MidPoint(b))
    ensures d < Epsilon ==> Step(s, Face(b)).stillCount == s.stillCount + 1
    ensures Epsilon <= d ==> Step(s, Face(b)).stillCount == 0
  {
    NearIffDistanceBelowEpsilon(s.lastPosition.value, MidPoint(b), d);
  }

  /** After any detection the remembered centre is the centre of the detected box. */
  lemma DetectionRemembersCentre(s: State, b: Box)
    ensures Step(s, Face(b)).lastPosition == Some(MidPoint(b))
    ensures Step(s, Face(b)).lastPosition.value.x == b.x + b.width / 2.0
    ensures Step(s, Face(b)).lastPosition.value.y == b.y + b.height / 2.0
  {
  }

  /** Every tick either adds one still tick or resets the count, and leaves a consistent state. */
  lemma StepCountsOrResets(s: State, x: Sample)
    ensures Step(s, x).stillCount == s.stillCount + 1 || Step(s, x).stillCount == 0
    ensures Consistent(Step(s, x))
  {
  }

  /** The reminder, once due, stays due while the face stays in place. */
  lemma ReminderPersistsWhileStill(s: State, b: Box)
    requires s.lastPosition.Some? && Near(s.lastPosition.value, MidPoint(b))
    requires ReminderDue(s.stillCount)
    ensures ReminderDue(Step(s, Face(b)).stillCount)
  {
  }

  /** A run of ticks keeps a consistent state consistent: every tick ends in one. */
  lemma RunConsistent(s: State, samples: seq<Sample>)
    requires Consistent(s)
    ensures Consistent(Run(s, samples))
  {
  }

  /**
   * From startup, a centre is remembered exactly when the last tick saw a face,
   * and the still count is below the number of detections since the last tick
   * without one: the first of them is never still.
   */
  lemma {:induction false} StillCountBelowTrailingDetections(samples: seq<Sample>)
    ensures Run(Initial, samples).lastPosition.Some? <==> 0 < TrailingDetections(samples)
    ensures TrailingDetections(samples) == 0 ==> Run(Initial, samples) == Initial
    ensures 0 < TrailingDetections(samples) ==> Run(Initial, samples).stillCount < TrailingDetections(samples)
  {
    if samples != [] {
      StillCountBelowTrailingDetections(samples[..|samples| - 1]);
    }
  }

  lemma {:induction false} TrailingAtMostDetections(samples: seq<Sample>)
    ensures TrailingDetections(samples) <= Detections(samples)
  {
    if samples != [] {
      TrailingAtMostDetections(samples[..|samples| - 1]);
    }
  }

  /** From startup, the still count never exceeds the number of detected ticks minus one. */
  lemma {:induction false} StillCountBelowDetections(samples: seq<Sample>)
    ensures Detections(samples) == 0 ==> Run(Initial, samples).stillCount == 0
    ensures 0 < Detections(samples) ==> Run(Initial, samples).stillCount <= Detections(samples) - 1
  {
    StillCountBelowTrailingDetections(samples);
    TrailingAtMostDetections(samples);
  }

  /**
   * n + 1 detections of the same box: the first one counts as still or not
   * according to the previous centre, each of the following n adds one.
   */
  lemma {:induction false} IdenticalDetections(s: State, b: Box, n: nat)
    ensures Run(s, Repeat(Face(b), n + 1)) == State(Some(MidPoint(b)), Step(s, Face(b)).stillCount + n)
  {
    var xs := Repeat(Face(b), n + 1);
    assert xs[..n] == Repeat(Face(b), n);
    if n == 0 {
      assert xs[..0] == [];
    } else {
      IdenticalDetections(s, b, n - 1);
      NearReflexive(MidPoint(b));
    }
  }

  /**
   * From startup, k identical detections give a still count of k - 1, so the
   * reminder first becomes due on the 17th of them.
   */
  lemma ReminderOnSeventeenthIdentical(b: Box, k: nat)
    requires 1 <= k
    ensures Run(Initial, Repeat(Face(b), k)).stillCount == k - 1
    ensures ReminderDue(Run(Initial, Repeat(Face(b), k)).stillCount) <==> 17 <= k
  {
    IdenticalDetections(Initial, b, k - 1);
  }

  /**
   * Twenty identical detections centred at (100, 100) leave a count of 19 and the
   * reminder due; one more detection centred at (200, 200) resets the count.
   */
  lemma TwentyStillThenMove()
    ensures var s := Run(Initial, Repeat(Face(Box(80.0, 80.0, 40.0, 40.0)), 20));
      s == State(Some(Point(100.0, 100.0)), 19) && ReminderDue(s.stillCount)
    ensures Run(Initial, Repeat(Face(Box(80.0, 80.0, 40.0, 40.0)), 20) + [Face(Box(180.0, 180.0, 40.0, 40.0))])
      == State(Some(Point(200.0, 200.0)), 0)
  {
    var still := Repeat(Face(Box(80.0, 80.0, 40.0, 40.0)), 20);
    var moved := still + [Face(Box(180.0, 180.0, 40.0, 40.0))];
    IdenticalDetections(Initial, Box(80.0, 80.0, 40.0, 40.0), 19);
    assert moved[..|moved| - 1] == still;
  }

  /** A dismiss click acts on the counting state exactly as a tick without a face. */
  lemma DismissActsAsNoFace(s: State)
    ensures Apply(s, DismissClick) == Step(s, NoFace)
  {
  }

  /** Replaying events is running the samples they amount to. */
  lemma {:induction false} ReplayIsRun(s: State, events: seq<Event>)
    ensures Replay(s, events) == Run(s, AsSamples(events))
    ensures DetectedTicks(events) == Detections(AsSamples(events))
  {
    if events != [] {
      var prefix := events[..|events| - 1];
      ReplayIsRun(s, prefix);
      assert AsSamples(events)[..|events| - 1] == AsSamples(prefix);
    }
  }

  /**
   * From startup, through any mix of ticks and dismiss clicks, the still count
   * never exceeds the number of detected ticks minus one.
   */
  lemma StillCountBelowDetectedTicks(events: seq<Event>)
    ensures DetectedTicks(events) == 0 ==> Replay(Initial, events).stillCount == 0
    ensures 0 < DetectedTicks(events) ==> Replay(Initial, events).stillCount <= DetectedTicks(events) - 1
  {
    ReplayIsRun(Initial, events);
    StillCountBelowDetections(AsSamples(events));
  }

  /**
   * On the tick on which the reminder for a run of identical detections first
   * appears, the frame main.js draws from the previous counter (15) is still
   * orange, not red.
   */
  lemma FrameLagsReminder(b: Box)
    ensures OverlayColour(Run(Initial, Repeat(Face(b), 16)).stillCount) == Orange
    ensures ReminderDue(Run(Initial, Repeat(Face(b), 17)).stillCount)
  {
    ReminderOnSeventeenthIdentical(b, 16);
    ReminderOnSeventeenthIdentical(b, 17);
  }
}
