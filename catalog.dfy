/** The two fixed tables of the tracker: the joints whose angle it can measure,
    each with the three landmarks spanning the angle (`JOINT_TRIPLES`), and the
    default optimal bands of the built-in exercises (`OPTIMAL_RANGES`). Joint and
    exercise names are strings, as in the stored exercise definitions. */
module Catalog {

  import opened Util

  /** Landmarks (first, vertex, last): the angle is measured at the vertex. */
  datatype Triple = Triple(first: string, vertex: string, last: string)

  /** `JOINT_TRIPLES`, in declaration order. */
  const JointTriples: seq<(string, Triple)> := [
    ("LEFT_ELBOW", Triple("LEFT_SHOULDER", "LEFT_ELBOW", "LEFT_WRIST")),
    ("RIGHT_ELBOW", Triple("RIGHT_SHOULDER", "RIGHT_ELBOW", "RIGHT_WRIST")),
    ("LEFT_SHOULDER", Triple("LEFT_HIP", "LEFT_SHOULDER", "LEFT_ELBOW")),
    ("RIGHT_SHOULDER", Triple("RIGHT_HIP", "RIGHT_SHOULDER", "RIGHT_ELBOW")),
    ("LEFT_KNEE", Triple("LEFT_HIP", "LEFT_KNEE", "LEFT_ANKLE")),
    ("RIGHT_KNEE", Triple("RIGHT_HIP", "RIGHT_KNEE", "RIGHT_ANKLE")),
    ("LEFT_HIP", Triple("LEFT_SHOULDER", "LEFT_HIP", "LEFT_KNEE")),
    ("RIGHT_HIP", Triple("RIGHT_SHOULDER", "RIGHT_HIP", "RIGHT_KNEE"))
  ]

  /** `OPTIMAL_RANGES`, in declaration order. */
  const OptimalRanges: seq<(string, (real, real))> := [
    ("squat", (60.0, 180.0)),
    ("pushup", (80.0, 160.0)),
    ("curl", (20.0, 170.0)),
    ("raise", (15.0, 95.0))
  ]

  /** `JOINT_TRIPLES.get(joint)` */
  function TripleOf(joint: string): (r: Option<Triple>)
  {
    Lookup(JointTriples, joint)
  }

  /** The table is a dictionary of eight joints, and each joint's angle is taken at
      the joint itself. */
  lemma JointTriplesWellFormed()
    ensures |JointTriples| == 8 && DistinctKeys(JointTriples)
    ensures forall i :: 0 <= i < |JointTriples| ==> JointTriples[i].1.vertex == JointTriples[i].0
  {
  }

  /** Every joint of the table is measurable: its triple is found by name. */
  lemma TripleOfKnownJoint(i: nat)
    requires i < |JointTriples|
    ensures TripleOf(JointTriples[i].0) == Some(JointTriples[i].1)
    ensures TripleOf(JointTriples[i].0).value.vertex == JointTriples[i].0
  {
    JointTriplesWellFormed();
    LookupAt(JointTriples, i);
  }

  /** A joint with a landmark triple has a non-empty name. */
  lemma KnownJointsAreNamed(joint: string)
    requires TripleOf(joint).Some?
    ensures joint != ""
  {
    var i :| 0 <= i < |JointTriples| && JointTriples[i] == (joint, TripleOf(joint).value);
    assert |JointTriples[i].0| >= 8 by {
      if i == 0 { assert |JointTriples[0].0| == 10; }
      else if i == 1 { assert |JointTriples[1].0| == 11; }
      else if i == 2 { assert |JointTriples[2].0| == 13; }
      else if i == 3 { assert |JointTriples[3].0| == 14; }
      else if i == 4 { assert |JointTriples[4].0| == 9; }
      else if i == 5 { assert |JointTriples[5].0| == 10; }
      else if i == 6 { assert |JointTriples[6].0| == 8; }
      else { assert |JointTriples[7].0| == 9; }
    }
  }

  /** The default bands are proper sub-ranges of [0, 180], keyed by distinct
      exercise names. */
  lemma OptimalRangesWellFormed()
    ensures DistinctKeys(OptimalRanges)
    ensures forall i :: 0 <= i < |OptimalRanges| ==>
      0.0 <= OptimalRanges[i].1.0 < OptimalRanges[i].1.1 <= 180.0
  {
  }

  /** Every default band is keyed by a name of at most six characters, so a
      longer name has none. */
  lemma NoDefaultBandForLongNames(name: string)
    requires |name| > 6
    ensures Lookup(OptimalRanges, name) == None
  {
    forall i | 0 <= i < |OptimalRanges|
      ensures OptimalRanges[i].0 != name
    {
      if i == 0 {
        assert |OptimalRanges[0].0| == 5;
      } else if i == 1 {
        assert |OptimalRanges[1].0| == 6;
      } else if i == 2 {
        assert |OptimalRanges[2].0| == 4;
      } else {
        assert |OptimalRanges[3].0| == 5;
      }
    }
  }
}
