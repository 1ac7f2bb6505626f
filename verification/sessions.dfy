/** Sequences of events reaching the App component: button presses, camera frames and
    the camera's recording-finished callback. Disabled buttons ignore presses. */
module Sessions {
  import opened Options
  import opened Checkpoints
  import opened Tracker

  datatype Event =
    | StartPressed                  // the Start button, disabled while recording
    | StopPressed                   // the Stop button, disabled while not recording
    | FrameArrived(faces: seq<int>) // rounded yaw angles of the faces in one frame
    | RecordingFinished(path: string)

  /** The state after one event. A press on a disabled button changes nothing, and the
      finished callback only reports. */
  function Step(s: Session, e: Event): (r: Session)
    ensures e.StartPressed? ==> r.recording && (s.recording ==> r == s) && (!s.recording ==> r == PressStart(s))
    ensures e.StopPressed? ==> !r.recording && (!s.recording ==> r == s) && (s.recording ==> r == PressStop(s))
    ensures e.FrameArrived? ==> r == Frame(s, e.faces)
    ensures e.RecordingFinished? ==> r == s
  {
    match e
    case StartPressed => if s.recording then s else PressStart(s)
    case StopPressed => if s.recording then PressStop(s) else s
    case FrameArrived(faces) => Frame(s, faces)
    case RecordingFinished(_) => s
  }

  /** The number of finished callbacks among the events. */
  function FinishedCount(es: seq<Event>): nat
    decreases |es|
  {
    if |es| == 0 then 0
    else (if es[0].RecordingFinished? then 1 else 0) + FinishedCount(es[1..])
  }

  /** The video paths reported while the events are processed in order. */
  function Reports(s: Session, es: seq<Event>): (r: seq<string>)
    ensures |r| <= FinishedCount(es) <= |es|
    ensures forall p :: p in r ==> RecordingFinished(p) in es
    decreases |es|
  {
    if |es| == 0 then [] else Announce(s, es[0]) + Reports(Step(s, es[0]), es[1..])
  }

  /** The path one event reports: a finished callback's path unless the user stopped. */
  function Announce(s: Session, e: Event): seq<string> {
    match e
    case RecordingFinished(path) =>
      (match FinishReport(s, path) case Some(p) => [p] case None => [])
    case _ => []
  }

  /** The state after the events are processed in order. */
  function Run(s: Session, es: seq<Event>): Session
    decreases |es|
  {
    if |es| == 0 then s else Run(Step(s, es[0]), es[1..])
  }

  /** Running a non-empty prefix is running the first event, then the rest of the prefix. */
  lemma RunPrefix(s: Session, es: seq<Event>, j: nat)
    requires j < |es|
    ensures Run(s, es[..j + 1]) == Run(Step(s, es[0]), es[1..][..j])
  {
    assert es[..j + 1][1..] == es[1..][..j];
  }

  /** Every reported path comes from a finished callback that arrived while the user-stop
      flag was down. */
  lemma {:induction false} ReportsComeFromUnstoppedFinishes(s: Session, es: seq<Event>)
    ensures forall p :: p in Reports(s, es) ==>
      exists i :: 0 <= i < |es| && es[i] == RecordingFinished(p) && !Run(s, es[..i]).userStopped
    decreases |es|
  {
    if |es| > 0 {
      var s1 := Step(s, es[0]);
      ReportsComeFromUnstoppedFinishes(s1, es[1..]);
      forall p | p in Reports(s, es)
        ensures exists i :: 0 <= i < |es| && es[i] == RecordingFinished(p) && !Run(s, es[..i]).userStopped
      {
        if p in Reports(s1, es[1..]) {
          var j :| 0 <= j < |es[1..]| && es[1..][j] == RecordingFinished(p) && !Run(s1, es[1..][..j]).userStopped;
          RunPrefix(s, es, j);
          assert es[j + 1] == RecordingFinished(p);
        } else {
          assert es[..0] == [];
          assert es[0] == RecordingFinished(p) && !s.userStopped;
        }
      }
    }
  }

  /** Every finished callback that arrives while the user-stop flag is down is reported. */
  lemma {:induction false} UnstoppedFinishesAreReported(s: Session, es: seq<Event>)
    ensures forall i :: 0 <= i < |es| && es[i].RecordingFinished? && !Run(s, es[..i]).userStopped ==>
      es[i].path in Reports(s, es)
    decreases |es|
  {
    if |es| > 0 {
      var s1 := Step(s, es[0]);
      UnstoppedFinishesAreReported(s1, es[1..]);
      forall i | 0 <= i < |es| && es[i].RecordingFinished? && !Run(s, es[..i]).userStopped
        ensures es[i].path in Reports(s, es)
      {
        if i == 0 {
          assert es[..0] == [];
        } else {
          RunPrefix(s, es, i - 1);
          assert es[1..][i - 1] == es[i];
        }
      }
    }
  }

  /** The states the app can be in between events: both copies agree, fewer than four
      checkpoints are held (four triggers a stop), nothing is held while idle, and the
      user-stop flag is down while recording. */
  predicate Inv(s: Session) {
    && InSync(s)
    && |s.marksShown| < 4
    && (!s.recording ==> s.marksShown == {})
    && (s.recording ==> !s.userStopped)
  }

  lemma InitialInv()
    ensures Inv(Initial)
  {
  }

  /** Every event keeps the invariant; the checkpoint count never exceeds three between
      events and the progress shown is none while idle. */
  lemma StepPreservesInv(s: Session, e: Event)
    requires Inv(s)
    ensures Inv(Step(s, e))
    ensures |Step(s, e).marksRef| <= 3
    ensures !Step(s, e).recording ==> Progress(Step(s, e)).None?
  {
  }

  lemma {:induction false} RunPreservesInv(s: Session, es: seq<Event>)
    requires Inv(s)
    ensures Inv(Run(s, es))
    decreases |es|
  {
    if |es| > 0 {
      StepPreservesInv(s, es[0]);
      RunPreservesInv(Step(s, es[0]), es[1..]);
    }
  }

  /** In the model's states between events the progress is none when idle or when
      nothing is marked, and otherwise one, two or three quarters: a progress of one
      exists only inside the frame that completes the session. */
  lemma ProgressBetweenEvents(s: Session)
    requires Inv(s)
    ensures Progress(s).None? <==> !s.recording || s.marksShown == {}
    ensures Progress(s).Some? ==> Progress(s).value in {0.25, 0.5, 0.75}
  {
  }

  // ---------------------------------------------------------------------------
  // Accumulation of checkpoints over a run of frames.

  /** One frame event per face list. */
  function Frames(fs: seq<seq<int>>): (es: seq<Event>)
    ensures |es| == |fs|
  {
    seq(|fs|, i requires 0 <= i < |fs| => FrameArrived(fs[i]))
  }

  /** The checkpoints the first face of some non-empty face list falls in. */
  function Seen(fs: seq<seq<int>>): set<Checkpoint> {
    set i, c | 0 <= i < |fs| && c in AllCheckpoints && |fs[i]| > 0 && InRange(c, fs[i][0]) :: c
  }

  /** The checkpoints the first face of a face list falls in. */
  function FirstFaceRanges(faces: seq<int>): set<Checkpoint> {
    if |faces| > 0 then RangesHolding(faces[0]) else {}
  }

  lemma SeenCons(fs: seq<seq<int>>)
    requires |fs| > 0
    ensures Seen(fs) == FirstFaceRanges(fs[0]) + Seen(fs[1..])
  {
  }

  /** A recording session after it has seen the checkpoints `seen`: they are added to
      both copies, or the session has stopped when that makes four. */
  function AfterSeeing(s: Session, seen: set<Checkpoint>): Session {
    if |s.marksShown + seen| < 4 then
      s.(marksRef := s.marksRef + seen, marksShown := s.marksShown + seen)
    else
      Stop(s)
  }

  /** One frame to a recording session adds the checkpoint of its first face, or stops
      the session when that makes four. */
  lemma FrameAccumulates(s: Session, faces: seq<int>)
    requires Inv(s) && s.recording
    ensures Frame(s, faces) == AfterSeeing(s, FirstFaceRanges(faces))
  {
  }

  /** Seeing `a` and then `b` is seeing both at once. */
  lemma AfterSeeingCompose(s: Session, a: set<Checkpoint>, b: set<Checkpoint>)
    requires Inv(s) && s.recording
    ensures AfterSeeing(s, a).recording ==> Inv(AfterSeeing(s, a))
    ensures AfterSeeing(s, a).recording ==> AfterSeeing(AfterSeeing(s, a), b) == AfterSeeing(s, a + b)
    ensures !AfterSeeing(s, a).recording ==> AfterSeeing(s, a + b) == Stop(s)
  {
    var m := s.marksShown;
    assert m + a + b == m + (a + b);
    CheckpointSetBound(m + a);
    CheckpointSetBound(m + (a + b));
    if |m + a| >= 4 {
      assert m + (a + b) == AllCheckpoints;
    }
  }

  /** A recording session fed frames holds the checkpoints seen so far, or, once those
      together with the ones already held make four, has stopped. */
  lemma {:induction false} FramesAccumulate(s: Session, fs: seq<seq<int>>)
    requires Inv(s) && s.recording
    ensures Run(s, Frames(fs)) == AfterSeeing(s, Seen(fs))
    decreases |fs|
  {
    if |fs| == 0 {
      assert Seen(fs) == {};
    } else {
      var es := Frames(fs);
      assert es[0] == FrameArrived(fs[0]);
      assert es[1..] == Frames(fs[1..]);
      SeenCons(fs);
      var head := FirstFaceRanges(fs[0]);
      var s1 := Frame(s, fs[0]);
      assert Run(s, es) == Run(s1, Frames(fs[1..]));
      FrameAccumulates(s, fs[0]);
      AfterSeeingCompose(s, head, Seen(fs[1..]));
      if s1.recording {
        FramesAccumulate(s1, fs[1..]);
      } else {
        IdleIgnoresFrames(s1, fs[1..]);
      }
    }
  }

  /** Frames reaching an idle app change nothing: no frame processor is attached. */
  lemma {:induction false} IdleIgnoresFrames(s: Session, fs: seq<seq<int>>)
    requires !s.recording
    ensures Run(s, Frames(fs)) == s
    decreases |fs|
  {
    if |fs| > 0 {
      assert Frames(fs)[1..] == Frames(fs[1..]);
      IdleIgnoresFrames(s, fs[1..]);
    }
  }

  /** After Start, a run of frames ends the session by itself exactly when every one of
      the four checkpoints was seen, in whatever order and with whatever repetitions;
      until then the session records and holds exactly the checkpoints seen. */
  lemma CompletesIffAllSeen(s: Session, fs: seq<seq<int>>)
    ensures var t := Run(PressStart(s), Frames(fs));
      && (!t.recording <==> Seen(fs) == AllCheckpoints)
      && (t.recording ==> t == Session(Seen(fs), Seen(fs), true, false))
      && (!t.recording ==> t == Stop(PressStart(s)))
  {
    FramesAccumulate(PressStart(s), fs);
    CheckpointSetBound(Seen(fs));
    assert {} + Seen(fs) == Seen(fs);
  }

  // ---------------------------------------------------------------------------
  // The recording-finished report.

  /** Once the user has stopped, no video path is reported until Start is pressed again,
      whatever frames and completion callbacks arrive. */
  lemma {:induction false} UserStopSuppressesReports(s: Session, es: seq<Event>)
    requires s.userStopped
    requires forall i :: 0 <= i < |es| ==> es[i] != StartPressed
    ensures Reports(s, es) == []
    ensures Run(s, es).userStopped
    decreases |es|
  {
    if |es| > 0 {
      var s1 := Step(s, es[0]);
      assert s1.userStopped;
      UserStopSuppressesReports(s1, es[1..]);
    }
  }

  /** A session that the fourth checkpoint ended reports the finished video. */
  lemma CompletedSessionReports(s: Session, fs: seq<seq<int>>, path: string)
    requires Seen(fs) == AllCheckpoints
    ensures Reports(PressStart(s), Frames(fs) + [RecordingFinished(path)]) == [path]
  {
    CompletesIffAllSeen(s, fs);
    ReportsAppend(PressStart(s), Frames(fs), RecordingFinished(path));
    FramesReportNothing(PressStart(s), fs);
  }

  lemma {:induction false} ReportsAppend(s: Session, es: seq<Event>, e: Event)
    ensures Reports(s, es + [e]) == Reports(s, es) + Reports(Run(s, es), [e])
    decreases |es|
  {
    if |es| > 0 {
      var s1 := Step(s, es[0]);
      assert (es + [e])[0] == es[0];
      assert (es + [e])[1..] == es[1..] + [e];
      assert Run(s, es) == Run(s1, es[1..]);
      ReportsAppend(s1, es[1..], e);
      var now := Announce(s, es[0]);
      assert Reports(s, es + [e]) == now + Reports(s1, es[1..] + [e]);
    }
  }

  lemma {:induction false} FramesReportNothing(s: Session, fs: seq<seq<int>>)
    ensures Reports(s, Frames(fs)) == []
    decreases |fs|
  {
    if |fs| > 0 {
      assert Frames(fs)[1..] == Frames(fs[1..]);
      FramesReportNothing(Step(s, Frames(fs)[0]), fs[1..]);
    }
  }

  // ---------------------------------------------------------------------------
  // Concrete runs.

  /** The checkpoints seen in the frames of the first scenario below. */
  lemma ScenarioSeen(fs: seq<seq<int>>)
    requires fs == [[0], [-3], [-36], [-37], [40]]
    ensures Seen(fs[..4]) == {Bottom, Top, Right}
    ensures Seen(fs) == AllCheckpoints
  {
    var first := fs[..4];
    forall c | c in Seen(first) ensures c in {Bottom, Top, Right} {
      var i: int :| 0 <= i < 4 && c in AllCheckpoints && |first[i]| > 0 && InRange(c, first[i][0]);
      assert first[i][0] in {0, -3, -36, -37};
    }
    assert InRange(Bottom, first[0][0]) && InRange(Top, first[1][0]) && InRange(Right, first[2][0]);
    assert Bottom in Seen(first) && Top in Seen(first) && Right in Seen(first);
    assert InRange(Left, fs[4][0]);
    assert Left in Seen(fs);
    assert Seen(first) <= Seen(fs);
    CheckpointSetBound(Seen(fs));
  }

  /** Frames at 0, -3, -36, -37 and 40 degrees: -36 lies in the right range, so after
      four frames three checkpoints are held and the fifth, left, ends the session,
      whose video is then reported. */
  lemma ScenarioAllFour(fs: seq<seq<int>>)
    requires fs == [[0], [-3], [-36], [-37], [40]]
    ensures Run(PressStart(Initial), Frames(fs[..4])) == Session({Bottom, Top, Right}, {Bottom, Top, Right}, true, false)
    ensures Run(PressStart(Initial), Frames(fs)) == Stop(PressStart(Initial))
    ensures Reports(PressStart(Initial), Frames(fs) + [RecordingFinished("v.mp4")]) == ["v.mp4"]
  {
    ScenarioSeen(fs);
    assert Seen(fs[..4]) != AllCheckpoints by {
      assert Left !in Seen(fs[..4]);
    }
    CompletesIffAllSeen(Initial, fs[..4]);
    CompletesIffAllSeen(Initial, fs);
    CompletedSessionReports(Initial, fs, "v.mp4");
  }

  /** Start, then Stop with no frames, then the late callback: nothing is held, the app
      is idle and no video is reported. */
  lemma ScenarioUserCancel(path: string)
    ensures var es := [StartPressed, StopPressed, RecordingFinished(path)];
      && Run(Initial, es) == Session({}, {}, false, true)
      && Reports(Initial, es) == []
  {
    var es := [StartPressed, StopPressed, RecordingFinished(path)];
    var s1 := Step(Initial, StartPressed);
    var s2 := Step(s1, StopPressed);
    assert s2 == Session({}, {}, false, true);
    assert es[1..] == [StopPressed, RecordingFinished(path)];
    assert es[1..][1..] == [RecordingFinished(path)];
    assert [RecordingFinished(path)][1..] == [];
    assert Run(s2, [RecordingFinished(path)]) == s2;
    assert Run(Initial, es) == Run(s1, es[1..]) == Run(s2, es[1..][1..]);
    assert Reports(s2, [RecordingFinished(path)]) == [];
    assert Reports(s1, es[1..]) == [] + Reports(s2, es[1..][1..]);
  }

  /** A frame without faces while recording changes nothing. */
  lemma ScenarioNoFace(s: Session)
    requires s.recording
    ensures Run(s, [FrameArrived([])]) == s
    ensures Reports(s, [FrameArrived([])]) == []
  {
  }

  /** The flag is read when the callback runs: a completion arriving after Start was
      pressed again is reported, even though the recording it belongs to was cancelled. */
  lemma ScenarioLateFinishAfterRestart(path: string)
    ensures Reports(Initial, [StartPressed, StopPressed, StartPressed, RecordingFinished(path)]) == [path]
  {
    var es := [StartPressed, StopPressed, StartPressed, RecordingFinished(path)];
    assert es[1..] == [StopPressed, StartPressed, RecordingFinished(path)];
    assert es[1..][1..] == [StartPressed, RecordingFinished(path)];
    assert es[1..][1..][1..] == [RecordingFinished(path)];
    var s1 := Step(Initial, StartPressed);
    var s2 := Step(s1, StopPressed);
    var s3 := Step(s2, StartPressed);
    assert !s3.userStopped;
    assert [RecordingFinished(path)][1..] == [];
    assert Reports(s3, [RecordingFinished(path)]) == [path] + [];
    assert Reports(s2, es[1..][1..]) == [] + Reports(s3, es[1..][1..][1..]);
    assert Reports(s1, es[1..]) == [] + Reports(s2, es[1..][1..]);
  }
}
