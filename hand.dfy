/** The finger-count classifier: how many fingers of one tracked hand are
    extended, judged from its 21 landmarks (index 0 is the wrist, 1-4 the
    thumb, then four landmarks per finger, ending at the tip). */
module Hand {

  /** One landmark in normalized image coordinates. The vertical coordinate
      grows downwards, so a smaller y is higher on the image. Coordinates are
      only compared, never computed with. */
  datatype Landmark = Landmark(x: real, y: real, z: real)

  /** The number of landmarks the detector produces for one hand. */
  const LandmarkCount: nat := 21

  /** Tip landmarks of the index, middle, ring and little fingers, in the
      order the classifier visits them. */
  const FingerTipIds: seq<nat> := [8, 12, 16, 20]

  /** Tip and interphalangeal joint of the thumb. */
  const ThumbTip: nat := 4
  const ThumbIp: nat := 3

  datatype Finger = Thumb | Index | Middle | Ring | Pinky

  /** The landmark at the tip of each finger. */
  function TipIndex(f: Finger): (t: nat)
    ensures t < LandmarkCount
    ensures f == Thumb <==> t == ThumbTip
  {
    match f
    case Thumb => 4
    case Index => 8
    case Middle => 12
    case Ring => 16
    case Pinky => 20
  }

  /** The joint each tip is compared with: the thumb's IP joint, and the
      second (PIP) joint of every other finger. */
  function JointIndex(f: Finger): (j: nat)
    ensures j < TipIndex(f)
  {
    match f
    case Thumb => 3
    case Index => 6
    case Middle => 10
    case Ring => 14
    case Pinky => 18
  }

  /** The extension rule for one finger: the thumb's tip lies strictly left of
      its IP joint; any other tip lies strictly above its PIP joint. The rule is
      calibrated for a right hand held upright. */
  predicate Extended(landmarks: seq<Landmark>, f: Finger)
    requires |landmarks| >= LandmarkCount
  {
    if f == Thumb then landmarks[TipIndex(f)].x < landmarks[JointIndex(f)].x
    else landmarks[TipIndex(f)].y < landmarks[JointIndex(f)].y
  }

  function Indicator(b: bool): nat
  {
    if b then 1 else 0
  }

  /** The classifier's specification: one indicator term per finger. */
  function FingerSpec(landmarks: seq<Landmark>): nat
    requires |landmarks| >= LandmarkCount
  {
    Indicator(Extended(landmarks, Index)) + Indicator(Extended(landmarks, Middle))
    + Indicator(Extended(landmarks, Ring)) + Indicator(Extended(landmarks, Pinky))
    + Indicator(Extended(landmarks, Thumb))
  }

  /** Every tip id in `tips` can be read together with the landmark two
      places before it. */
  ghost predicate ValidTips(landmarks: seq<Landmark>, tips: seq<nat>)
  {
    forall k :: 0 <= k < |tips| ==> 2 <= tips[k] < |landmarks|
  }

  /** The per-finger test of the classifier's loop: the tip lies strictly
      above the landmark two indices before it. */
  predicate TipAbovePip(landmarks: seq<Landmark>, tip: nat)
    requires 2 <= tip < |landmarks|
  {
    landmarks[tip].y < landmarks[tip - 2].y
  }

  /** How many of the tips in `tips` pass the loop's test; this is what the
      accumulator holds after visiting `tips`. */
  function ExtendedAmong(landmarks: seq<Landmark>, tips: seq<nat>): (r: nat)
    requires ValidTips(landmarks, tips)
    ensures r <= |tips|
    ensures r == 0 <==> forall k :: 0 <= k < |tips| ==> !TipAbovePip(landmarks, tips[k])
    ensures r == |tips| <==> forall k :: 0 <= k < |tips| ==> TipAbovePip(landmarks, tips[k])
    decreases |tips|
  {
    if tips == [] then 0
    else ExtendedAmong(landmarks, tips[..|tips| - 1]) + Indicator(TipAbovePip(landmarks, tips[|tips| - 1]))
  }

  /** Visiting one more tip adds its indicator to the count. */
  lemma ExtendedAmongStep(landmarks: seq<Landmark>, tips: seq<nat>, i: nat)
    requires ValidTips(landmarks, tips) && i < |tips|
    ensures ValidTips(landmarks, tips[..i + 1])
    ensures ExtendedAmong(landmarks, tips[..i + 1])
            == ExtendedAmong(landmarks, tips[..i]) + Indicator(TipAbovePip(landmarks, tips[i]))
  {
    assert tips[..i + 1][..i] == tips[..i];
  }

  /** The count over four tips is the sum of their four indicators. */
  lemma ExtendedAmongFour(landmarks: seq<Landmark>, tips: seq<nat>)
    requires ValidTips(landmarks, tips) && |tips| == 4
    ensures ExtendedAmong(landmarks, tips)
            == Indicator(TipAbovePip(landmarks, tips[0])) + Indicator(TipAbovePip(landmarks, tips[1]))
               + Indicator(TipAbovePip(landmarks, tips[2])) + Indicator(TipAbovePip(landmarks, tips[3]))
  {
    assert tips[..0] == [] && tips[..4] == tips;
    ExtendedAmongStep(landmarks, tips, 0);
    ExtendedAmongStep(landmarks, tips, 1);
    ExtendedAmongStep(landmarks, tips, 2);
    ExtendedAmongStep(landmarks, tips, 3);
  }

  /** The loop over the tip table computes the four non-thumb terms of the
      specification: the joint two places before tips 8, 12, 16 and 20 is
      landmark 6, 10, 14 and 18. */
  lemma TableMatchesFingers(landmarks: seq<Landmark>)
    requires |landmarks| >= LandmarkCount
    ensures ValidTips(landmarks, FingerTipIds)
    ensures ExtendedAmong(landmarks, FingerTipIds)
            == Indicator(Extended(landmarks, Index)) + Indicator(Extended(landmarks, Middle))
               + Indicator(Extended(landmarks, Ring)) + Indicator(Extended(landmarks, Pinky))
  {
    ExtendedAmongFour(landmarks, FingerTipIds);
  }

  /** count_fingers: visits the four tip ids, counting each tip above its PIP
      joint, then counts the thumb when its tip is left of its IP joint. */
  method CountFingers(landmarks: seq<Landmark>) returns (count: nat)
    requires |landmarks| >= LandmarkCount
    ensures count == FingerSpec(landmarks)
    ensures count <= 5
    ensures count == 5 <==> forall f :: Extended(landmarks, f)
    ensures count == 0 <==> forall f :: !Extended(landmarks, f)
  {
    count := 0;
    for i := 0 to |FingerTipIds|
      invariant ValidTips(landmarks, FingerTipIds[..i])
      invariant count == ExtendedAmong(landmarks, FingerTipIds[..i])
      invariant count <= i
    {
      var tipId := FingerTipIds[i];
      var tip := landmarks[tipId];
      var pip := landmarks[tipId - 2];
      if tip.y < pip.y {
        count := count + 1;
      }
      ExtendedAmongStep(landmarks, FingerTipIds, i);
    }
    assert FingerTipIds[..|FingerTipIds|] == FingerTipIds;
    ghost var loopCount := count;
    var thumbTip := landmarks[ThumbTip];
    var thumbIp := landmarks[ThumbIp];
    if thumbTip.x < thumbIp.x {
      count := count + 1;
    }
    LoopThenThumb(landmarks, loopCount, count);
  }

  /** The loop's count over the whole tip table, plus the thumb's indicator,
      is the reference count. */
  lemma LoopThenThumb(landmarks: seq<Landmark>, loopCount: nat, count: nat)
    requires |landmarks| >= LandmarkCount && ValidTips(landmarks, FingerTipIds)
    requires loopCount == ExtendedAmong(landmarks, FingerTipIds)
    requires count == loopCount + Indicator(Extended(landmarks, Thumb))
    ensures count == FingerSpec(landmarks)
    ensures count <= 5
    ensures count == 5 <==> forall f :: Extended(landmarks, f)
    ensures count == 0 <==> forall f :: !Extended(landmarks, f)
  {
    TableMatchesFingers(landmarks);
    AllOrNone(landmarks);
  }

  /** The count is 5 exactly when every finger is extended, and 0 exactly when
      none is. */
  lemma AllOrNone(landmarks: seq<Landmark>)
    requires |landmarks| >= LandmarkCount
    ensures FingerSpec(landmarks) <= 5
    ensures FingerSpec(landmarks) == 5 <==> forall f :: Extended(landmarks, f)
    ensures FingerSpec(landmarks) == 0 <==> forall f :: !Extended(landmarks, f)
  {
  }

  /** The comparisons are strict: a tip level with its joint does not count. */
  lemma LevelTipDoesNotCount(landmarks: seq<Landmark>, f: Finger)
    requires |landmarks| >= LandmarkCount
    requires f == Thumb ==> landmarks[TipIndex(f)].x == landmarks[JointIndex(f)].x
    requires f != Thumb ==> landmarks[TipIndex(f)].y == landmarks[JointIndex(f)].y
    ensures !Extended(landmarks, f)
  {
  }

  /** The loop's count depends only on the y coordinates of each tip and of
      the landmark two places before it. */
  lemma {:induction false} ExtendedAmongFrame(a: seq<Landmark>, b: seq<Landmark>, tips: seq<nat>)
    requires ValidTips(a, tips) && ValidTips(b, tips)
    requires forall k :: 0 <= k < |tips| ==> a[tips[k]].y == b[tips[k]].y
    requires forall k :: 0 <= k < |tips| ==> a[tips[k] - 2].y == b[tips[k] - 2].y
    ensures ExtendedAmong(a, tips) == ExtendedAmong(b, tips)
    decreases |tips|
  {
    if tips != [] {
      var init := tips[..|tips| - 1];
      assert forall k :: 0 <= k < |init| ==> init[k] == tips[k];
      ExtendedAmongFrame(a, b, init);
      assert TipAbovePip(a, tips[|tips| - 1]) == TipAbovePip(b, tips[|tips| - 1]);
    }
  }

  /** Only landmarks 3, 4, 6, 8, 10, 12, 14, 16, 18 and 20 are read: two hands
      that agree on those give the same count. */
  lemma ClassifierReads(a: seq<Landmark>, b: seq<Landmark>)
    requires |a| >= LandmarkCount && |b| >= LandmarkCount
    requires forall f :: a[TipIndex(f)] == b[TipIndex(f)] && a[JointIndex(f)] == b[JointIndex(f)]
    ensures FingerSpec(a) == FingerSpec(b)
  {
  }

  /** Moving any landmark the classifier does not read leaves the count as it
      was. */
  lemma UnreadLandmarkIrrelevant(landmarks: seq<Landmark>, i: nat, p: Landmark)
    requires |landmarks| >= LandmarkCount && i < |landmarks|
    requires forall f :: i != TipIndex(f) && i != JointIndex(f)
    ensures FingerSpec(landmarks[i := p]) == FingerSpec(landmarks)
  {
    ClassifierReads(landmarks[i := p], landmarks);
  }

  /** A hand whose index tip is above its PIP joint while every other finger is
      folded shows one finger. */
  lemma IndexFingerOnly(landmarks: seq<Landmark>)
    requires |landmarks| >= LandmarkCount
    requires landmarks[8].y < landmarks[6].y
    requires landmarks[12].y >= landmarks[10].y && landmarks[16].y >= landmarks[14].y
    requires landmarks[20].y >= landmarks[18].y && landmarks[4].x >= landmarks[3].x
    ensures FingerSpec(landmarks) == 1
  {
  }
}
