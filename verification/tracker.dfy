/** The checkpoint tracker of the App component (App.js): the session record and the
    handlers that change it. Each handler is one atomic transition; the camera calls
    they make are outside the model. */
module Tracker {
  import opened Options
  import opened Checkpoints

  /** The tracker's state. The satisfied checkpoints are kept twice, as in the app:
      `marksRef` is the copy read by the marking logic (`faceValuesRef`) and
      `marksShown` the copy that drives rendering and the completion effect
      (`faceRecVal`). `recording` is `isRecording`; `userStopped` is `isUserStoppedRef`. */
  datatype Session = Session(
    marksRef: set<Checkpoint>,
    marksShown: set<Checkpoint>,
    recording: bool,
    userStopped: bool)

  /** The state at mount: both copies empty, not recording, no user stop. */
  const Initial := Session({}, {}, false, false)

  /** True iff the two copies of the satisfied checkpoints agree. */
  predicate InSync(s: Session) {
    s.marksRef == s.marksShown
  }

  /** Records a classified checkpoint unless none was classified or the logic copy
      already holds it; both copies gain the checkpoint together. */
  function Mark(s: Session, checked: Option<Checkpoint>): (r: Session)
    ensures r == s <==> checked.None? || checked.value in s.marksRef
    ensures s.marksRef <= r.marksRef <= s.marksRef + AsSet(checked)
    ensures s.marksShown <= r.marksShown <= s.marksShown + AsSet(checked)
    ensures r != s ==> |r.marksRef| == |s.marksRef| + 1
    ensures r != s ==> r.marksRef == s.marksRef + AsSet(checked) && r.marksShown == s.marksShown + AsSet(checked)
    ensures InSync(s) ==> InSync(r)
    ensures r.recording == s.recording && r.userStopped == s.userStopped
  {
    if checked.Some? && checked.value !in s.marksRef then
      s.(marksRef := s.marksRef + {checked.value},
         marksShown := s.marksShown + {checked.value})
    else
      s
  }

  /** Marking the same classification twice is marking it once. */
  lemma MarkIdempotent(s: Session, checked: Option<Checkpoint>)
    ensures Mark(Mark(s, checked), checked) == Mark(s, checked)
  {
  }

  /** The early-return test of the face handler: skip when there are fewer than one
      and more than one faces and the app is not recording. */
  predicate GuardSkips(faceCount: nat, recording: bool) {
    faceCount < 1 && faceCount > 1 && !recording
  }

  /** The face handler (`onFaceAngles`) on the rounded yaw angles of the detected
      faces: the first face's angle is classified and marked. An empty list makes the
      angle undefined, which fails every range test, so nothing is marked. */
  function OnFaceAngles(s: Session, faces: seq<int>): (r: Session)
    ensures |faces| == 0 ==> r == s
    ensures |faces| > 0 ==> r.marksRef == s.marksRef + RangesHolding(faces[0])
    ensures |faces| > 0 ==> r.marksShown == s.marksShown + (RangesHolding(faces[0]) - s.marksRef)
    ensures r.recording == s.recording && r.userStopped == s.userStopped
  {
    if GuardSkips(|faces|, s.recording) then s
    else if |faces| == 0 then s
    else
      MarkClassified(s, faces[0]);
      Mark(s, Classify(faces[0]))
  }

  /** Marking the classification of an angle adds to the logic copy the checkpoints whose
      range holds the angle, and to the display copy those the logic copy lacked. */
  lemma MarkClassified(s: Session, angle: int)
    ensures Mark(s, Classify(angle)).marksRef == s.marksRef + RangesHolding(angle)
    ensures Mark(s, Classify(angle)).marksShown == s.marksShown + (RangesHolding(angle) - s.marksRef)
  {
    ClassifyMatchesTable(angle);
    match Classify(angle)
    case None =>
      assert RangesHolding(angle) == {};
    case Some(c) =>
      assert RangesHolding(angle) == {c};
  }

  /** The early return never fires, whatever the face count and the recording flag:
      the handler marks on every non-empty list, recording or not. */
  lemma GuardNeverSkips(s: Session, faces: seq<int>)
    ensures !GuardSkips(|faces|, s.recording)
    ensures |faces| > 0 ==> OnFaceAngles(s, faces) == Mark(s, Classify(faces[0]))
  {
  }

  /** `stopRecording`: both copies cleared and recording off; the user-stop flag is
      left as it is. */
  function Stop(s: Session): (r: Session)
    ensures r.marksRef == {} && r.marksShown == {} && !r.recording
    ensures r.userStopped == s.userStopped
  {
    Session({}, {}, false, s.userStopped)
  }

  /** Stopping a stopped session changes nothing, and nothing is left to display. */
  lemma StopIdempotent(s: Session)
    ensures Stop(Stop(s)) == Stop(s)
    ensures Progress(Stop(s)).None?
  {
  }

  /** The effect watching the shown copy: when it holds four checkpoints, stop. */
  function CompletionEffect(s: Session): (r: Session)
    ensures |s.marksShown| == 4 ==> r == Stop(s)
    ensures |s.marksShown| != 4 ==> r == s
    ensures |r.marksShown| != 4
  {
    if |s.marksShown| == 4 then Stop(s) else s
  }

  /** One camera frame while the detector reports `faces`. The frame processor is
      attached only while recording and hands over only non-empty face lists; the
      completion effect runs after the handler's update. */
  function Frame(s: Session, faces: seq<int>): (r: Session)
    ensures !s.recording || |faces| == 0 ==> r == s
    ensures s.recording && |faces| > 0 ==>
      (!r.recording <==> |s.marksShown + (RangesHolding(faces[0]) - s.marksRef)| == 4)
    ensures s.recording && r.recording && |faces| > 0 ==>
      r.marksRef == s.marksRef + RangesHolding(faces[0])
    ensures s.recording && r.recording && |faces| > 0 ==>
      r.marksShown == s.marksShown + (RangesHolding(faces[0]) - s.marksRef)
    ensures s.recording && !r.recording ==> r == Stop(s)
    ensures r.userStopped == s.userStopped
  {
    if !s.recording then s
    else if |faces| == 0 then s
    else
      MarkClassified(s, faces[0]);
      CompletionEffect(OnFaceAngles(s, faces))
  }

  /** `onPressStart`: both copies cleared, user-stop flag cleared, recording on. */
  function PressStart(s: Session): (r: Session)
    ensures r.marksRef == {} && r.marksShown == {} && Progress(r).None?
    ensures r.recording && !r.userStopped
    ensures forall path :: FinishReport(r, path) == Some(path)
  {
    Session({}, {}, true, false)
  }

  /** `onPressStop`: the user-stop flag is raised, then the session stops. */
  function PressStop(s: Session): (r: Session)
    ensures r == Stop(s).(userStopped := true)
    ensures r.marksRef == {} && r.marksShown == {} && !r.recording
    ensures forall path :: FinishReport(r, path).None?
  {
    Stop(s.(userStopped := true))
  }

  /** `onRecordingFinished`: the recorded video's path is reported unless the user
      stopped the recording. */
  function FinishReport(s: Session, path: string): (r: Option<string>)
    ensures r.Some? <==> !s.userStopped
    ensures r.Some? ==> r.value == path
  {
    if !s.userStopped then Some(path) else None
  }

  /** The displayed progress (`progress`): none while nothing is marked, otherwise
      the fraction of the four checkpoints shown as satisfied. */
  function Progress(s: Session): (r: Option<real>)
    ensures r.None? <==> s.marksShown == {}
    ensures r.Some? ==> r.value in {0.25, 0.5, 0.75, 1.0}
    ensures r.Some? ==> 4.0 * r.value == |KeyNames(s.marksShown)| as real
  {
    CheckpointSetBound(s.marksShown);
    KeyCount(s.marksShown);
    var length := |s.marksShown|;
    if length > 0 then Some(length as real / 4.0) else None
  }
}
