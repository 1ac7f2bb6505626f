/** The four head-orientation checkpoints and the classification of a rounded
    yaw angle (App.js, `onFaceAngles`). Angles are whole degrees: the rounding
    of the detector's floating-point yaw happens before this model. */
module Checkpoints {
  import opened Options

  /** A head-orientation target of the liveness check. */
  datatype Checkpoint = Bottom | Top | Right | Left

  const AllCheckpoints: set<Checkpoint> := {Bottom, Top, Right, Left}

  /** The key under which the app records a satisfied checkpoint. */
  function KeyName(c: Checkpoint): string {
    match c
    case Bottom => "bottomRecognized"
    case Top => "topRecognized"
    case Right => "rightRecognized"
    case Left => "leftRecognized"
  }

  /** The keys recorded for a set of satisfied checkpoints. */
  function KeyNames(marks: set<Checkpoint>): set<string> {
    set c | c in marks :: KeyName(c)
  }

  // ---------------------------------------------------------------------------
  // The range table: inclusive bounds in rounded degrees, the left range open above.

  function Low(c: Checkpoint): int {
    match c
    case Bottom => -1
    case Top => -4
    case Right => -40
    case Left => 36
  }

  function High(c: Checkpoint): Option<int> {
    match c
    case Bottom => Some(0)
    case Top => Some(-3)
    case Right => Some(-35)
    case Left => None
  }

  /** True iff `angle` lies in the range of checkpoint `c`. */
  predicate InRange(c: Checkpoint, angle: int) {
    Low(c) <= angle && (High(c).None? || angle <= High(c).value)
  }

  /** The checkpoints whose range holds `angle`. */
  function RangesHolding(angle: int): set<Checkpoint> {
    set c | c in AllCheckpoints && InRange(c, angle)
  }

  /** The classified checkpoint as a set: empty when none was classified. */
  function AsSet(checked: Option<Checkpoint>): set<Checkpoint> {
    match checked
    case None => {}
    case Some(c) => {c}
  }

  // ---------------------------------------------------------------------------
  // Classification as written: four independent tests, the last one that holds wins.

  /** The checkpoint a rounded yaw angle satisfies, if any. */
  function Classify(angle: int): (r: Option<Checkpoint>)
    ensures forall c :: r == Some(c) <==> InRange(c, angle)
    ensures r.None? <==> forall c :: !InRange(c, angle)
  {
    var checked := None;
    var checked := if -1 <= angle && angle <= 0 then Some(Bottom) else checked;
    var checked := if -4 <= angle && angle <= -3 then Some(Top) else checked;
    var checked := if -40 <= angle && angle <= -35 then Some(Right) else checked;
    var checked := if angle >= 36 then Some(Left) else checked;
    checked
  }

  /** No angle lies in two ranges. */
  lemma RangesDisjoint(c1: Checkpoint, c2: Checkpoint, angle: int)
    requires InRange(c1, angle) && InRange(c2, angle)
    ensures c1 == c2
  {
  }

  /** The classification the app derives from an angle is the set of ranges holding it:
      at most one checkpoint, exactly the one whose range holds the angle. */
  lemma ClassifyMatchesTable(angle: int)
    ensures AsSet(Classify(angle)) == RangesHolding(angle)
    ensures |RangesHolding(angle)| <= 1
  {
    var r := Classify(angle);
    assert forall c :: c in AsSet(r) <==> c in RangesHolding(angle);
  }

  /** The boundary cases of the range table. */
  lemma ClassifyBoundaries()
    ensures Classify(-1) == Some(Bottom) && Classify(0) == Some(Bottom)
    ensures Classify(-4) == Some(Top) && Classify(-3) == Some(Top)
    ensures Classify(-40) == Some(Right) && Classify(-36) == Some(Right) && Classify(-35) == Some(Right)
    ensures Classify(36) == Some(Left) && Classify(1000) == Some(Left)
    ensures Classify(35) == None && Classify(1) == None && Classify(-2) == None
    ensures Classify(-5) == None && Classify(-34) == None && Classify(-41) == None
  {
  }

  // ---------------------------------------------------------------------------
  // Reordering the tests does not change the classification.

  /** The same chain of tests performed in the given order, the last holding test winning. */
  function ClassifyInOrder(order: seq<Checkpoint>, angle: int): Option<Checkpoint>
    decreases |order|
  {
    if |order| == 0 then None
    else if InRange(order[|order| - 1], angle) then Some(order[|order| - 1])
    else ClassifyInOrder(order[..|order| - 1], angle)
  }

  /** Whatever the order, the chain picks a tested checkpoint whose range holds the
      angle, and picks nothing only when no tested range holds it. */
  lemma {:induction false} ClassifyInOrderPicksHolder(order: seq<Checkpoint>, angle: int)
    ensures forall c :: ClassifyInOrder(order, angle) == Some(c) <==> c in order && InRange(c, angle)
    decreases |order|
  {
    if |order| > 0 {
      var init := order[..|order| - 1];
      ClassifyInOrderPicksHolder(init, angle);
      assert order == init + [order[|order| - 1]];
      forall c | c in order && InRange(c, angle)
        ensures ClassifyInOrder(order, angle) == Some(c)
      {
        if !InRange(order[|order| - 1], angle) {
          assert c in init;
        }
      }
    }
  }

  /** Any order that tests all four ranges classifies like the source's chain. */
  lemma ReorderedTestsAgree(order: seq<Checkpoint>, angle: int)
    requires forall c :: c in order
    ensures ClassifyInOrder(order, angle) == Classify(angle)
  {
    ClassifyInOrderPicksHolder(order, angle);
  }

  // ---------------------------------------------------------------------------
  // Cardinality facts about sets of checkpoints.

  /** A set of checkpoints holds at most four, and holds four exactly when it holds all. */
  lemma {:induction false} CheckpointSetBound(marks: set<Checkpoint>)
    ensures marks <= AllCheckpoints && |marks| <= 4
    ensures |marks| == 4 <==> marks == AllCheckpoints
  {
    assert forall c :: c in marks ==> c in AllCheckpoints by {
      forall c | c in marks ensures c in AllCheckpoints {
        match c
        case Bottom =>
        case Top =>
        case Right =>
        case Left =>
      }
    }
    var missing := AllCheckpoints - marks;
    assert marks == AllCheckpoints - missing;
  }

  /** Distinct checkpoints have distinct keys, so the number of recorded keys is the
      number of satisfied checkpoints. */
  lemma {:induction false} KeyCount(marks: set<Checkpoint>)
    ensures |KeyNames(marks)| == |marks|
    decreases marks
  {
    if marks != {} {
      var x :| x in marks;
      var rest := marks - {x};
      KeyCount(rest);
      assert KeyNames(marks) == KeyNames(rest) + {KeyName(x)};
      assert KeyName(x) !in KeyNames(rest);
    }
  }
}
