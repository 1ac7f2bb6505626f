# Face-alignment checkpoint tracker

A Dafny model of the liveness check in the React Native `App` component (`App.js`).
While the app records, each camera frame gives the yaw angle of the first detected face.
That angle, rounded to whole degrees, is classified into one of four checkpoints:

| rounded yaw | checkpoint |
|---|---|
| -1 .. 0 | bottom |
| -4 .. -3 | top |
| -40 .. -35 | right |
| 36 and above | left |

Any other angle is unclassified. A checkpoint is marked once. When all four are marked, the
recording stops by itself. The Start button clears the marks and starts recording. The Stop
button raises a "user stopped" flag and then stops. Stopping clears the marks. When the
camera later reports the finished video, its path is shown only if the user did not stop the
recording.

The model has four modules:

- `Options`: the `Option` type, used for the app's `null` values.
- `Checkpoints`: the `Checkpoint` datatype, the range table (`Low`, `High`, `InRange`) and the
  classifier `Classify`. `Classify` is written as the source's chain of four `if` tests, where
  the last test that holds wins. The module proves that chain equal to the table, and proves
  that any order of the tests gives the same result.
- `Tracker`: the `Session` record and the app's handlers. The record holds the logic copy of
  the marks (`faceValuesRef`), the display copy (`faceRecVal`), `isRecording` and
  `isUserStoppedRef`. The handlers are `Mark`, `OnFaceAngles`, `Stop`, `PressStart`,
  `PressStop`, `CompletionEffect`, `Frame`, `FinishReport` and `Progress`.
- `Sessions`: sequences of events (button presses, frames, the finished callback). It holds
  the invariant kept between events and the main theorem `CompletesIffAllSeen`: after Start,
  a run of frames stops the session by itself exactly when all four checkpoints were seen.

Points where the model follows the code:

- The handler's early return tests `data.length < 1 && data.length > 1 && !isRecording`.
  That is always false, so it never skips (`GuardNeverSkips`). Frames are filtered in two
  other places. The frame processor is attached only while recording. It passes on only
  non-empty face lists. A frame with more than one face is classified by its first face.
- An angle of -36 lies in the right range [-40, -35], so it classifies as right
  (`ClassifyBoundaries`, `ScenarioAllFour`).
- The user-stop flag is read when the finished callback runs, not when the recording ends.
  So a completion that arrives after Start was pressed again is reported, even though the
  recording it belongs to was cancelled (`ScenarioLateFinishAfterRestart`).
- The comparison `<= -0` in the bottom test is the same as `<= 0` on integers.

## Model

| member | source | states |
|---|---|---|
| Checkpoints.Classify | App.js:60-81 | the result is a checkpoint exactly when the angle lies in that checkpoint's inclusive range, and none exactly when it lies in no range |
| Checkpoints.ClassifyMatchesTable | App.js:60-81 | the classification, seen as a set, is the set of ranges that hold the angle, and that set has at most one element |
| Checkpoints.RangesDisjoint | App.js:61-81 | no angle lies in two of the four ranges |
| Checkpoints.ClassifyBoundaries | App.js:61-81 | -1 and 0 are bottom, -4 and -3 are top, -40, -36 and -35 are right, 36 is left; 35, 1, -2, -5, -34 and -41 are unclassified |
| Checkpoints.ClassifyInOrderPicksHolder | App.js:60-81 | the last-test-wins chain, run in any order, picks a checkpoint exactly when that checkpoint is tested and its range holds the angle |
| Checkpoints.ReorderedTestsAgree | App.js:60-81 | any order of the four tests classifies every angle as the source's order does |
| Checkpoints.CheckpointSetBound | App.js:82-87 | a set of marked checkpoints holds at most four, and holds four only when it holds all four |
| Checkpoints.KeyCount | App.js:119-121 | the number of keys recorded in the marks object equals the number of marked checkpoints |
| Tracker.Mark | App.js:82-88 | marking leaves the state unchanged exactly when nothing was classified or the logic copy already holds the checkpoint; otherwise both copies gain that one checkpoint and the size grows by one; copies in agreement stay in agreement; the flags are untouched |
| Tracker.MarkClassified | App.js:60-87 | marking the classification of an angle adds to the logic copy exactly the checkpoints whose range holds the angle, and to the display copy those the logic copy lacked |
| Tracker.MarkIdempotent | App.js:82-88 | marking the same classification a second time changes nothing |
| Tracker.OnFaceAngles | App.js:54-89 | for a non-empty face list the logic copy gains exactly the checkpoints whose range holds the first face's angle; the display copy gains them only when the logic copy lacked them; an empty list changes nothing |
| Tracker.GuardNeverSkips | App.js:55-57 | the early-return test is false for every face count and recording flag, so a non-empty list is always classified and marked |
| Tracker.Stop | App.js:124-129 | stopping empties both copies and ends recording, and leaves the user-stop flag as it was |
| Tracker.StopIdempotent | App.js:124-129 | stopping twice is stopping once, and after a stop no progress is shown |
| Tracker.CompletionEffect | App.js:30-34 | four displayed checkpoints trigger a stop; fewer leave the state alone; the result never displays four |
| Tracker.Frame | App.js:111-117 | a frame while idle or without faces changes nothing; a recording frame with faces ends the session exactly when the display copy, after marking, holds four checkpoints; a frame that keeps the session recording adds to the logic copy exactly the checkpoints whose range holds the first face's angle, and to the display copy those the logic copy lacked; a frame that ends the session leaves exactly the stopped state; the user-stop flag is kept |
| Tracker.PressStart | App.js:131-136 | Start empties both copies, shows no progress, lowers the user-stop flag and begins recording, so a later finished video is reported |
| Tracker.PressStop | App.js:138-141 | Stop performs the reset of a stop with the user-stop flag raised, so no finished video is reported afterwards |
| Tracker.FinishReport | App.js:94-98 | the video path is reported exactly when the user-stop flag is down |
| Tracker.Progress | App.js:119-122 | progress is none exactly when nothing is displayed; otherwise it is a quarter of the number of recorded keys and lies in {1/4, 1/2, 3/4, 1} |
| Sessions.Step | App.js:171-181 | a Start press while recording and a Stop press while idle change nothing, as the disabled buttons do; otherwise Start leaves the app recording and Stop leaves it idle; a frame is handled by the frame step and the finished callback changes no state |
| Sessions.Reports | App.js:94-98 | no more reports than finished callbacks among the events, and every reported path is the path of one of them |
| Sessions.ReportsComeFromUnstoppedFinishes | App.js:94-98 | every reported path comes from a finished callback that arrived while the user-stop flag was down |
| Sessions.UnstoppedFinishesAreReported | App.js:94-98 | every finished callback that arrives while the user-stop flag is down is reported with its path |
| Sessions.InitialInv | App.js:21-25 | the state at mount satisfies the invariant between events |
| Sessions.StepPreservesInv | App.js:124-149 | every event keeps both copies equal, fewer than four marks, no marks while idle and the user-stop flag down while recording; no progress is shown while idle |
| Sessions.RunPreservesInv | App.js:124-149 | any sequence of events keeps that invariant |
| Sessions.ProgressBetweenEvents | App.js:119-122 | between events progress is none exactly when idle or nothing is marked, and otherwise one, two or three quarters |
| Sessions.FrameAccumulates | App.js:111-117 | one frame to a recording session adds the checkpoint of its first face, or stops the session when that makes four |
| Sessions.AfterSeeingCompose | App.js:30-34 | seeing one set of checkpoints and then another is the same as seeing both at once, including the stop at four |
| Sessions.FramesAccumulate | App.js:30-88 | a run of frames to a recording session adds every checkpoint seen, or has stopped once the held and seen checkpoints make four |
| Sessions.IdleIgnoresFrames | App.js:143-149 | frames reaching an idle app change nothing, because no frame processor is attached |
| Sessions.CompletesIffAllSeen | App.js:30-34 | after Start, a run of frames ends the session exactly when all four checkpoints were seen, in any order and with any repeats; until then it records and holds exactly the checkpoints seen |
| Sessions.UserStopSuppressesReports | App.js:94-98 | once the user has stopped, no video path is reported until Start is pressed again |
| Sessions.CompletedSessionReports | App.js:94-98 | a session ended by its fourth checkpoint reports the finished video |
| Sessions.ScenarioSeen | App.js:61-81 | frames at 0, -3, -36 and -37 degrees see bottom, top and right; adding 40 sees all four |
| Sessions.ScenarioAllFour | App.js:30-34 | with those frames the session still records after four frames and stops on the fifth, and its video is reported |
| Sessions.ScenarioUserCancel | App.js:138-141 | Start, Stop and then a late finished callback leave the app idle with nothing marked and no report |
| Sessions.ScenarioNoFace | App.js:114-116 | a frame without faces while recording changes nothing and reports nothing |
| Sessions.ScenarioLateFinishAfterRestart | App.js:94-98 | a finished callback arriving after Start, Stop and Start again is reported |

## Left out

- Camera permission, device selection, and starting and stopping the capture through the camera reference (App.js:27-28, 36-44, 91-101, 125): these are hardware and library calls. The finished callback is an event that carries the video path.
- Tracker.Stop: always resets. In the source the reset runs only after the awaited camera stop returns (App.js:125-128); if that call fails, for example on a Stop inside the one-second window before capture has started (App.js:105-107), the marks and the recording flag survive. The model does not cover a failed camera stop, and `ScenarioUserCancel` relies on the reset.
- The unmount cleanup that calls `stopRecording` (App.js:40-43): component lifecycle, not tracker logic.
- Face detection by `scanFaces` and the hop between threads through `runOnJS` (App.js:111-117): the detector is a black box. A frame is modelled as the list of rounded yaw angles of its faces. In the source, a face list already queued through `runOnJS` before the frame processor is detached can still reach `onFaceAngles` after a stop; since the early return never fires, that call marks an idle app until the next Start clears it. The model delivers no frame after a stop, so the "no marks while idle" part of `Sessions.Inv` holds of the model only.
- `Math.round` of the floating-point yaw: angles enter the model as integers. A missing first face, which yields NaN in the source and fails every range test, is an empty list and changes nothing.
- The one-second delay before capture starts and the `await` in `stopRecording` (App.js:103-109, 125): timing. Each handler, and the completion effect after a frame, is one atomic transition.
- React rendering and batching of state updates: the display copy is updated in the same step as the logic copy.
- The progress-bar layout arithmetic, buttons, styles, the alert and console logging (App.js:151-197, 47, 51, 58): interface only. The alert is the reported path; the disabled buttons are the ignored presses in `Sessions.Step`.
- Recording errors (App.js:99): reported by the camera library and never fed back into the tracker.
