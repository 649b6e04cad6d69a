/**
 * The pure classifications of the still counter that drive what the page
 * shows: the still/moving label and its colour in the statistics panel
 * (updateStats), the warning band drawn over the face box
 * (drawFaceDetection) and the status line after a detection (detectLoop).
 * The page's Korean texts are represented by the constructors of Status.
 */
module Display {

  /** Still ticks the user may spend before the reminder is raised. */
  const StillThreshold: nat := 15

  /** The label of the statistics panel. */
  datatype Movement = Moving | Still

  /** The colours the page uses: #3182f6, #f6ad55 and #f56565. */
  datatype Colour = Blue | Orange | Red

  /** The status line. */
  datatype Status =
    | Ready               // the page is ready and detection starts
    | FaceDetecting       // a face is seen and has just moved (or was just found)
    | StillFor(seconds: nat) // a face has been still for `seconds` ticks
    | RestNeeded          // the reminder is shown
    | FaceNotFound        // the detector saw no face on this tick
    | DetectionRestarted  // the user dismissed the reminder

  /** The reminder is due once the still counter exceeds the threshold. */
  predicate ReminderDue(count: nat)
  {
    count > StillThreshold
  }

  /** The still/moving label of the statistics panel. */
  function MovementOf(count: nat): (m: Movement)
    ensures m == Still <==> 0 < count
    ensures m == Moving <==> count == 0
  {
    if count > 0 then Still else Moving
  }

  /**
   * The colour of the still/moving label. main.js compares the counter with
   * half the threshold in floating point (7.5), so the warning colour starts at 8.
   */
  function StatsColour(count: nat): (c: Colour)
    ensures c != Orange
    ensures c == Red <==> 8 <= count
  {
    if count as real > StillThreshold as real / 2.0 then Red else Blue
  }

  /**
   * The colour of the frame drawn around a detected face for a given counter:
   * the plain frame up to half the threshold, orange above it and red above
   * the threshold. main.js draws the frame before it updates the counter, so
   * on each tick this is applied to the previous tick's counter.
   */
  function OverlayColour(count: nat): (c: Colour)
    ensures c == Blue <==> count < 8
    ensures c == Orange <==> 8 <= count <= StillThreshold
    ensures c == Red <==> ReminderDue(count)
  {
    if count as real > StillThreshold as real / 2.0 then
      (if count > StillThreshold then Red else Orange)
    else
      Blue
  }

  /** The status line after a tick on which a face was detected. */
  function StatusAfterDetection(count: nat): (s: Status)
    ensures s == RestNeeded <==> ReminderDue(count)
    ensures s == FaceDetecting <==> count == 0
    ensures s.StillFor? <==> 0 < count <= StillThreshold
    ensures s.StillFor? ==> s.seconds == count
    ensures s != Ready && s != FaceNotFound && s != DetectionRestarted
  {
    if count > StillThreshold then RestNeeded
    else if count == 0 then FaceDetecting
    else StillFor(count)
  }

  /**
   * The statistics label and the status line, which main.js both derive from
   * the updated counter, agree: a status asking for a rest comes with the red
   * "still" label, and a status counting still seconds with the "still" label.
   */
  lemma LabelAgreesWithStatus(count: nat)
    ensures StatusAfterDetection(count) == RestNeeded ==> MovementOf(count) == Still && StatsColour(count) == Red
    ensures StatusAfterDetection(count).StillFor? ==> MovementOf(count) == Still
    ensures StatusAfterDetection(count) == FaceDetecting <==> MovementOf(count) == Moving
  {
  }
}
