/** The four static pose predicates, each written the way the program
    computes it. The three finger scans carry contracts that state the same
    pose as an explicit conjunction of comparisons, landmark by landmark;
    thumbs up is a single comparison. */
module Classifiers {
  import opened Landmarks

  const FistTips: seq<int> := [ThumbTip, IndexTip, MiddleTip, RingTip, PinkyTip]
  const OpenHandTips: seq<int> := [IndexTip, MiddleTip, RingTip, PinkyTip]
  const CurledTips: seq<int> := [MiddleTip, RingTip, PinkyTip]

  /** Tip not strictly above its joint (fist scan rejects tip < joint). */
  function NotAbove(tip: real, joint: real): bool { !(tip < joint) }

  /** Tip not strictly below its joint (open-hand scan rejects tip > joint). */
  function NotBelow(tip: real, joint: real): bool { !(tip > joint) }

  /** Tip strictly below its joint (the curled-finger test of pointing). */
  function Below(tip: real, joint: real): bool { tip > joint }

  /** Fist: no fingertip, thumb included, is above its joint. */
  predicate IsFist(h: Hand)
    ensures IsFist(h) <==>
      && h[4] >= h[2] && h[8] >= h[6] && h[12] >= h[10]
      && h[16] >= h[14] && h[20] >= h[18]
  {
    assert ValidTips(FistTips);
    var r := AllTips(h, FistTips, NotAbove);
    assert FistTips[0] == 4 && FistTips[1] == 8 && FistTips[2] == 12 && FistTips[3] == 16 && FistTips[4] == 20;
    r
  }

  /** Thumbs up: the thumb tip is above the index fingertip; nothing else is
      looked at. */
  predicate IsThumbsUp(h: Hand) {
    h[ThumbTip] < h[IndexTip]
  }

  /** Open hand: none of the four non-thumb fingertips is below its joint.
      The thumb is never inspected. */
  predicate IsOpenHand(h: Hand)
    ensures IsOpenHand(h) <==>
      && h[8] <= h[6] && h[12] <= h[10] && h[16] <= h[14] && h[20] <= h[18]
  {
    assert ValidTips(OpenHandTips);
    var r := AllTips(h, OpenHandTips, NotBelow);
    assert OpenHandTips[0] == 8 && OpenHandTips[1] == 12 && OpenHandTips[2] == 16 && OpenHandTips[3] == 20;
    r
  }

  /** Pointing: the index fingertip is above the index knuckle and the
      middle, ring and little fingertips are all strictly below their joints. */
  predicate IsPointing(h: Hand)
    ensures IsPointing(h) <==>
      && h[8] < h[5]
      && h[12] > h[10] && h[16] > h[14] && h[20] > h[18]
  {
    assert ValidTips(CurledTips);
    assert CurledTips[0] == 12 && CurledTips[1] == 16 && CurledTips[2] == 20;
    h[IndexTip] < h[IndexMcp] && AllTips(h, CurledTips, Below)
  }

  /** Open hand and pointing disagree on the middle finger, so no hand is
      both; the pointing branch is never shadowed by the open-hand branch. */
  lemma OpenHandExcludesPointing(h: Hand)
    ensures !(IsOpenHand(h) && IsPointing(h))
  {
  }

  /** Thumbs up reads only the thumb tip and the index fingertip: two hands
      that agree there are classified alike, whatever their other fingers. */
  lemma ThumbsUpReadsOnlyThumbAndIndex(h1: Hand, h2: Hand)
    requires h1[4] == h2[4] && h1[8] == h2[8]
    ensures IsThumbsUp(h1) == IsThumbsUp(h2)
  {
  }

  /** A hand whose every fingertip sits exactly level with its joint is both
      a fist and an open hand. */
  lemma LevelHandIsFistAndOpen(h: Hand)
    requires h[4] == h[2] && h[8] == h[6] && h[12] == h[10]
    requires h[16] == h[14] && h[20] == h[18]
    ensures IsFist(h) && IsOpenHand(h)
  {
  }
}
