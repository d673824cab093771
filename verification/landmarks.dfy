/** The hand model the classifiers read: the 21 landmarks of one detected
    hand, of which only the vertical image coordinate (y) is ever consulted.
    Image y grows downwards, so a smaller y is HIGHER on screen. */
module Landmarks {

  /** Number of landmarks the hand tracker reports for each hand. */
  const LandmarkCount: nat := 21

  /** Landmark indices the classifiers use. */
  const ThumbTip: nat := 4
  const IndexMcp: nat := 5
  const IndexTip: nat := 8
  const MiddleTip: nat := 12
  const RingTip: nat := 16
  const PinkyTip: nat := 20

  /** A fingertip is compared with the joint this many positions before it. */
  const JointOffset: nat := 2

  /** The y-coordinates of one hand's landmarks, indexed as the tracker does. */
  type Hand = ys: seq<real> | |ys| == LandmarkCount witness seq(21, _ => 0.0)

  /** Tip indices whose joint (tip - 2) is also a landmark. */
  predicate ValidTips(tips: seq<int>) {
    forall i :: 0 <= i < |tips| ==> JointOffset <= tips[i] < LandmarkCount
  }

  /** The finger scan shared by the classifiers: walk the tips in order and
      stop with false at the first tip whose y and joint y fail `ok`;
      true when every tip passes. */
  function AllTips(h: Hand, tips: seq<int>, ok: (real, real) -> bool): (r: bool)
    requires ValidTips(tips)
    ensures r <==> forall i :: 0 <= i < |tips| ==> ok(h[tips[i]], h[tips[i] - JointOffset])
  {
    if |tips| == 0 then true
    else if !ok(h[tips[0]], h[tips[0] - JointOffset]) then false
    else AllTips(h, tips[1..], ok)
  }

  /** Early exit: once a prefix of the tips has failed, no later tip can
      change the answer. */
  lemma {:induction false} FailureIsFinal(h: Hand, failed: seq<int>, rest: seq<int>, ok: (real, real) -> bool)
    requires ValidTips(failed) && ValidTips(rest)
    requires !AllTips(h, failed, ok)
    ensures ValidTips(failed + rest)
    ensures !AllTips(h, failed + rest, ok)
  {
    var all := failed + rest;
    assert forall i :: 0 <= i < |failed| ==> all[i] == failed[i];
    var i :| 0 <= i < |failed| && !ok(h[failed[i]], h[failed[i] - JointOffset]);
    assert all[i] == failed[i];
  }
}
