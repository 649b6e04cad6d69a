# FaceReminder stillness tracker

FaceReminder watches the user's face through the camera once a second and
shows a "take a break" banner when the face has stayed in the same place for
too long. Its decision logic, in `main.js`, is a small state machine over two
module-level variables: the centre of the face box seen on the previous tick
(`lastPosition`, or nothing) and the number of consecutive still ticks
(`stillCount`). This project models that state machine and the pure
classifications of the counter that decide what the page shows.

- `wrappers.dfy` — `Option`, for the source's `null`.
- `geometry.dfy` (module `Geometry`) — points and face boxes with real
  coordinates, the box centre (`getMidPoint`), the squared Euclidean distance
  and the "same place" test (`distance(...) < 10`).
- `display.dfy` (module `Display`) — `STILL_THRESHOLD` (15), the still/moving
  label and its colour, the colour band of the face frame, and the status line
  after a detection. The page's texts are constructors of `Status`.
- `stillness.dfy` (module `Stillness`) — the tracker as a pure transition
  `Step` on `State(lastPosition, stillCount)`, runs of ticks (`Run`), runs of
  ticks mixed with dismiss clicks (`Replay`), and their properties.
- `tracker.dfy` (module `FaceReminder`) — class `Tracker`, whose fields are the
  variables main.js updates in place, plus the page state a tick decides: the
  colour of the frame drawn around the face, the banner's visibility and the
  status line. `Observe` is one tick of `detectLoop` and `Dismiss` the dismiss
  button. For the counting state both are proved to follow `Step`, with a
  dismiss acting as a tick without a face. A ghost history of events ties the
  object to `Replay`.

The detector's result is an input of `Observe`: a `Sample` that is either a
face box or no face. `Math.sqrt` is replaced by the squared comparison
`dx² + dy² < 100`; `Geometry.NearIffDistanceBelowEpsilon` proves that for any
non-negative `d` whose square is the squared distance, `d < 10` holds exactly
when the squared comparison does.

The counting follows the code: the first detection after a reset has no
previous centre, so a run of identical detections gives still counts 0, 1, 2,
… and the reminder (due when the count exceeds 15) first appears on the 17th
identical detection, not the 16th.

`detectLoop` draws the face frame (`drawFaceDetection`) before it updates the
counter, and updates the statistics label and the status line after. The frame
colour therefore lags one tick behind: on the tick the banner first appears
the frame is still orange (`Stillness.FrameLagsReminder`, and the `frame`
field of `Tracker`).

## Model

| member | source | states |
|---|---|---|
| `Geometry.MidPoint` | main.js:108-110 | the centre is equidistant from the left and right edges and from the top and bottom edges, so it lies inside any box of non-negative size |
| `Geometry.SquaredDistance` | main.js:112-114 | the squared Euclidean distance of two points is never negative |
| `Geometry.NearIffDistanceBelowEpsilon` | main.js:112-114 | for the Euclidean distance d of two centres (d ≥ 0, d² = squared distance), `d < 10` holds exactly when the two are Near |
| `Geometry.NearReflexive` | main.js:112-114 | a centre is at distance 0 from itself, so it is always Near itself |
| `Geometry.NearSymmetric` | main.js:112-114 | the same-place test does not depend on the order of its arguments |
| `Display.MovementOf` | main.js:24-25 | the label is "still" exactly when the counter is positive and "moving" exactly when it is 0 |
| `Display.StatsColour` | main.js:26-27 | the label is never orange; it is red exactly when the counter exceeds 15 / 2 = 7.5, i.e. is at least 8, blue otherwise |
| `Display.OverlayColour` | main.js:51-52 | for the counter it is drawn from, the face frame is plain below 8, orange exactly for 8..15, red exactly above 15 |
| `Display.StatusAfterDetection` | main.js:138-147 | after a detection the status asks for a rest exactly when the reminder is due, says "face detecting" exactly when the counter is 0, and "n seconds still" with n the counter exactly for 1..15 |
| `Display.LabelAgreesWithStatus` | main.js:136-147 | label and status, both drawn from the updated counter, agree: "rest needed" comes with the red "still" label, a still-seconds status with the "still" label, and "face detecting" exactly with the "moving" label |
| `Stillness.NoFaceResets` | main.js:149-157 | a tick without a face resets the tracker to no previous centre and a count of 0, whatever it held |
| `Stillness.FirstDetectionNotStill` | main.js:126-133 | a detection with no previous centre gives a count of 0 and remembers the new centre |
| `Stillness.DetectionByDistance` | main.js:126-133 | for a detection at Euclidean distance d from the previous centre: d < 10 adds exactly one to the count, d ≥ 10 resets it to 0, and the new centre is remembered |
| `Stillness.DetectionRemembersCentre` | main.js:126-133 | after any detection the remembered centre is (x + width/2, y + height/2) of the detected box |
| `Stillness.StepCountsOrResets` | main.js:127-133 | every tick either adds exactly one to the count or resets it to 0, and leaves no count without a previous centre |
| `Stillness.ReminderPersistsWhileStill` | main.js:127-142 | once the reminder is due it stays due on every tick on which the face stays in place |
| `Stillness.RunConsistent` | main.js:122-157 | any sequence of ticks keeps "count is 0 when there is no previous centre" |
| `Stillness.StillCountBelowTrailingDetections` | main.js:11-12 | from startup, a centre is remembered exactly when the last tick saw a face, the state is the initial one otherwise, and the count is below the number of detections since the last tick without a face |
| `Stillness.StillCountBelowDetections` | main.js:122-157 | from startup, the count never exceeds the number of detected ticks minus one (and is 0 when nothing was detected) |
| `Stillness.IdenticalDetections` | main.js:127-133 | n + 1 detections of one box leave its centre remembered and a count of n more than the first of them gave |
| `Stillness.ReminderOnSeventeenthIdentical` | main.js:127-142 | from startup, k ≥ 1 identical detections give a count of k − 1, and the reminder is due exactly when k ≥ 17 |
| `Stillness.DismissActsAsNoFace` | main.js:149-169 | a dismiss click leaves the counting state exactly as a tick without a face does |
| `Stillness.ReplayIsRun` | main.js:122-169 | replaying ticks and dismiss clicks is running the samples they amount to, a click read as a tick without a face, with the same number of detected ticks |
| `Stillness.StillCountBelowDetectedTicks` | main.js:122-169 | from startup, through any mix of ticks and dismiss clicks, the count never exceeds the number of detected ticks minus one (and is 0 when nothing was detected) |
| `Stillness.FrameLagsReminder` | main.js:51-52 | on the 17th identical detection the reminder is due while the frame, drawn from the previous count of 15, is orange |
| `Stillness.TwentyStillThenMove` | main.js:122-142 | twenty detections centred at (100, 100) give a count of 19 with the reminder due; one more centred at (200, 200) resets the count to 0 |
| `FaceReminder.Tracker.constructor` | main.js:11-12 | the tracker starts with no previous centre, a count of 0, nothing drawn, the banner hidden, the "ready" status and an empty history |
| `FaceReminder.Tracker.Observe` | main.js:122-157 | one tick draws the frame from the counter before the tick (nothing when no face), updates the centre and count as `Step` does, shows the banner exactly when a face was seen and the reminder is due, sets the status from the updated count after a detection and "face not found" otherwise, keeps `Valid()`, and keeps the count below the detected ticks so far |
| `FaceReminder.Tracker.Dismiss` | main.js:163-169 | dismiss changes the counting state as a tick without a face does (no centre, count 0), hides the banner, sets the "detection restarted" status, leaves the frame, keeps `Valid()` |
| `FaceReminder.DismissIdempotent` | main.js:163-169 | dismissing a tracker that was just dismissed changes nothing on the page |
| `FaceReminder.SeventeenStillTicks` | main.js:116-169 | starting a tracker and feeding it the same box: the banner is hidden after 16 ticks and shown after the 17th, on which the frame is still orange, and hidden again after a dismiss |

## Left out

- Camera acquisition (`setupCamera`): browser I/O.
- Model loading and its CDN fallback (`loadModels`): foreign network calls.
- The face detector itself (`faceapi.detectSingleFace`): its result is the `Sample` given to `Observe`.
- Canvas drawing in `drawFaceDetection`: only the colour of the frame is modelled (`Display.OverlayColour`, the `frame` field of `Tracker`); the plain frame and the centre dot are not.
- The statistics panel's text (`stillTimeElement`), which shows the counter itself, and the page's Korean strings: the status line is the enumeration `Display.Status`.
- The `setTimeout` rescheduling (one tick is one call of `Observe`), `CHECK_INTERVAL`, and the asynchronous startup code; the page's initial banner visibility comes from the HTML page, which is not part of this model, and is taken to be hidden.
- Floating-point behaviour of `Math.sqrt` and of JavaScript numbers: coordinates are exact reals (so NaN coordinates are not represented), and the counter is an unbounded natural number rather than a double.
- `Geometry.SquaredDistance`: states only that the result is non-negative, not that it is zero exactly for equal points; reflexivity, which the tracker needs, is `Geometry.NearReflexive`.
