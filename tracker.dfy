/**
 * The tracker as main.js runs it: module-level state that every detection
 * tick and every click on the dismiss button update in place. Besides the
 * still counter and the previous centre it holds the page state the tick
 * decides: the colour of the frame drawn around the face (if any), whether
 * the reminder banner is shown and which status line is displayed.
 */
module FaceReminder {

  import opened Wrappers
  import opened Geometry
  import opened Display
  import opened Stillness

  class Tracker {
    var lastPosition: Option<Point>
    var stillCount: nat
    var reminderShown: bool
    var status: Status
    var frame: Option<Colour>
    /** The ticks and dismiss clicks since the page started. */
    ghost var history: seq<Event>

    /**
     * The counting state is what the events so far lead to, there are no
     * still ticks without a previous centre, the banner is shown exactly
     * while the reminder is due, and while the user is still the status line
     * says for how long (or asks for a rest).
     */
    ghost predicate Valid()
      reads this
    {
      && Snapshot() == Replay(Initial, history)
      && (lastPosition.None? ==> stillCount == 0)
      && (reminderShown <==> ReminderDue(stillCount))
      && (0 < stillCount ==> status == StatusAfterDetection(stillCount))
    }

    /** The tracker's counting state. */
    function Snapshot(): State
      reads this
    {
      State(lastPosition, stillCount)
    }

    /** The page as detection starts: nothing seen yet, nothing drawn, the banner hidden. */
    constructor ()
      ensures Valid() && history == []
      ensures Snapshot() == Initial && !reminderShown && status == Ready && frame == None
    {
      lastPosition := None;
      stillCount := 0;
      reminderShown := false;
      status := Ready;
      frame := None;
      history := [];
    }

    /**
     * One detection tick with the detector's result. The frame is drawn from
     * the counter as it was before this tick; the counting state follows Step;
     * the banner and the status follow the updated counter.
     */
    method Observe(sample: Sample)
      requires Valid()
      modifies this
      ensures Valid() && history == old(history) + [Tick(sample)]
      ensures Snapshot() == Step(old(Snapshot()), sample)
      ensures frame == if sample.Face? then Some(OverlayColour(old(stillCount))) else None
      ensures reminderShown <==> sample.Face? && ReminderDue(stillCount)
      ensures status == if sample.Face? then StatusAfterDetection(stillCount) else FaceNotFound
      ensures 0 < stillCount ==> stillCount < DetectedTicks(history)
    {
      match sample {
      case Face(b) =>
        frame := Some(OverlayColour(stillCount));
        var current := MidPoint(b);
        if lastPosition.Some? && Near(lastPosition.value, current) {
          stillCount := stillCount + 1;
        } else {
          stillCount := 0;
        }
        lastPosition := Some(current);
        if stillCount > StillThreshold {
          reminderShown := true;
          status := RestNeeded;
        } else {
          reminderShown := false;
          if stillCount == 0 {
            status := FaceDetecting;
          } else {
            status := StillFor(stillCount);
          }
        }
      case NoFace =>
        frame := None;
        status := FaceNotFound;
        stillCount := 0;
        lastPosition := None;
        reminderShown := false;
      }
      history := history + [Tick(sample)];
      assert history[..|history| - 1] == old(history);
      StillCountBelowDetectedTicks(history);
    }

    /**
     * The dismiss button: hide the banner and start counting afresh, which for
     * the counting state is the same as a tick without a face. The frame on the
     * canvas is left as it is.
     */
    method Dismiss()
      requires Valid()
      modifies this
      ensures Valid() && history == old(history) + [DismissClick]
      ensures Snapshot() == Step(old(Snapshot()), NoFace) == Initial
      ensures !reminderShown && status == DetectionRestarted && frame == old(frame)
      ensures 0 < stillCount ==> stillCount < DetectedTicks(history)
    {
      reminderShown := false;
      stillCount := 0;
      lastPosition := None;
      status := DetectionRestarted;
      history := history + [DismissClick];
      assert history[..|history| - 1] == old(history);
    }
  }

  /** Dismissing a tracker that was just dismissed changes nothing on the page. */
  method DismissIdempotent(t: Tracker)
    requires t.Valid()
    requires t.Snapshot() == Initial && !t.reminderShown && t.status == DetectionRestarted
    modifies t
    ensures unchanged(t`lastPosition, t`stillCount, t`reminderShown, t`status, t`frame)
  {
    assert t.lastPosition == None && t.stillCount == 0;
    t.Dismiss();
  }

  /**
   * Seventeen ticks on which the detector reports the same box, starting from
   * the page's initial state: the banner stays hidden for sixteen of them and
   * appears on the seventeenth, while the frame drawn on that tick is still
   * orange; a dismiss then hides the banner again.
   */
  method SeventeenStillTicks(b: Box)
    returns (shownBefore: bool, shownAfter: bool, frameWhenShown: Option<Colour>, shownAfterDismiss: bool)
    ensures !shownBefore && shownAfter && !shownAfterDismiss
    ensures frameWhenShown == Some(Orange)
  {
    var t := new Tracker();
    var i := 0;
    while i < 16
      invariant 0 <= i <= 16
      invariant t.Valid()
      invariant t.Snapshot() == Run(Initial, Repeat(Face(b), i))
      invariant !t.reminderShown
    {
      t.Observe(Face(b));
      assert Repeat(Face(b), i + 1)[..i] == Repeat(Face(b), i);
      i := i + 1;
      ReminderOnSeventeenthIdentical(b, i);
    }
    shownBefore := t.reminderShown;
    t.Observe(Face(b));
    assert Repeat(Face(b), 17)[..16] == Repeat(Face(b), 16);
    ReminderOnSeventeenthIdentical(b, 17);
    shownAfter := t.reminderShown;
    frameWhenShown := t.frame;
    t.Dismiss();
    shownAfterDismiss := t.reminderShown;
  }
}
