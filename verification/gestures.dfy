/** Gesture labels and the first-match-wins precedence chain that picks at
    most one gesture per detected hand. */
module Gestures {
  import opened Landmarks
  import opened Classifiers
  import opened Options

  /** The gestures the classifier chain can report. */
  datatype Gesture = Fist | ThumbsUp | OpenHand | Pointing

  /** The name under which a gesture is looked up in the key mapping. */
  function Name(g: Gesture): (name: string) {
    match g
    case Fist => "fist"
    case ThumbsUp => "thumbs_up"
    case OpenHand => "open_hand"
    case Pointing => "pointing"
  }

  const GestureNames: set<string> := {"fist", "thumbs_up", "open_hand", "pointing"}

  /** Distinct gestures are dispatched under distinct names, and every name
      the chain can produce is one of the four. */
  lemma NameIsInjective(g1: Gesture, g2: Gesture)
    ensures Name(g1) in GestureNames
    ensures Name(g1) == Name(g2) <==> g1 == g2
  {
  }

  /** The pose predicate belonging to each gesture. */
  predicate Matches(g: Gesture, h: Hand) {
    match g
    case Fist => IsFist(h)
    case ThumbsUp => IsThumbsUp(h)
    case OpenHand => IsOpenHand(h)
    case Pointing => IsPointing(h)
  }

  /** The order in which the chain tries the gestures. */
  const Priority: seq<Gesture> := [Fist, ThumbsUp, OpenHand, Pointing]

  /** The per-hand if/elif chain: fist, then thumbs up, then open hand, then
      pointing; no gesture when none matches. */
  function Classify(h: Hand): (r: Option<Gesture>)
    ensures r == Some(Fist) <==> IsFist(h)
    ensures r == Some(ThumbsUp) <==> !IsFist(h) && IsThumbsUp(h)
    ensures r == Some(OpenHand) <==> !IsFist(h) && !IsThumbsUp(h) && IsOpenHand(h)
    ensures r == Some(Pointing) <==>
      !IsFist(h) && !IsThumbsUp(h) && !IsOpenHand(h) && IsPointing(h)
    ensures r.Some? ==> Matches(r.value, h)
    ensures r == None <==> forall g: Gesture :: !Matches(g, h)
  {
    if IsFist(h) then assert Matches(Fist, h); Some(Fist)
    else if IsThumbsUp(h) then assert Matches(ThumbsUp, h); Some(ThumbsUp)
    else if IsOpenHand(h) then assert Matches(OpenHand, h); Some(OpenHand)
    else if IsPointing(h) then assert Matches(Pointing, h); Some(Pointing)
    else None
  }

  /** Reference semantics of a priority list: the first gesture in `rules`
      whose predicate holds. */
  function FirstMatch(rules: seq<Gesture>, h: Hand): (r: Option<Gesture>) {
    if |rules| == 0 then None
    else if Matches(rules[0], h) then Some(rules[0])
    else FirstMatch(rules[1..], h)
  }

  /** Rule i is the one FirstMatch picks: it matches and no earlier rule
      does. */
  predicate PickedAt(rules: seq<Gesture>, h: Hand, i: nat)
    requires i < |rules|
  {
    Matches(rules[i], h) && forall j :: 0 <= j < i ==> !Matches(rules[j], h)
  }

  /** FirstMatch returns g exactly when g sits at a position that matches
      with no earlier match, and returns nothing exactly when no rule
      matches. */
  lemma {:induction false} FirstMatchSpec(rules: seq<Gesture>, h: Hand, g: Gesture)
    ensures FirstMatch(rules, h) == Some(g) <==>
      exists i :: 0 <= i < |rules| && rules[i] == g && PickedAt(rules, h, i)
    ensures FirstMatch(rules, h) == None <==>
      forall j :: 0 <= j < |rules| ==> !Matches(rules[j], h)
  {
    if |rules| > 0 {
      var tail := rules[1..];
      assert forall j :: 1 <= j < |rules| ==> rules[j] == tail[j - 1];
      if Matches(rules[0], h) {
        assert PickedAt(rules, h, 0);
        if FirstMatch(rules, h) != Some(g) {
          forall i | 0 <= i < |rules| && rules[i] == g
            ensures !PickedAt(rules, h, i)
          {
            assert i != 0;
          }
        }
      } else {
        FirstMatchSpec(tail, h, g);
        if FirstMatch(rules, h) == Some(g) {
          var k :| 0 <= k < |tail| && tail[k] == g && PickedAt(tail, h, k);
          assert PickedAt(rules, h, k + 1);
        } else {
          forall i | 0 <= i < |rules| && rules[i] == g
            ensures !PickedAt(rules, h, i)
          {
            if i > 0 && PickedAt(rules, h, i) {
              assert PickedAt(tail, h, i - 1);
            }
          }
        }
      }
    }
  }

  /** The if/elif chain is exactly the first match over the priority list. */
  lemma ChainIsFirstMatch(h: Hand)
    ensures Classify(h) == FirstMatch(Priority, h)
  {
    var p1 := Priority[1..];
    var p2 := p1[1..];
    var p3 := p2[1..];
    assert p1 == [ThumbsUp, OpenHand, Pointing];
    assert p2 == [OpenHand, Pointing];
    assert p3 == [Pointing];
    assert FirstMatch(p3[1..], h) == None;
    assert FirstMatch(p3, h) == if IsPointing(h) then Some(Pointing) else None;
    assert FirstMatch(p2, h) == if IsOpenHand(h) then Some(OpenHand) else FirstMatch(p3, h);
    assert FirstMatch(p1, h) == if IsThumbsUp(h) then Some(ThumbsUp) else FirstMatch(p2, h);
  }

  /** Every gesture label is produced by some hand, so no branch of the
      chain is dead; in particular open hand never hides pointing. */
  lemma EveryGestureReachable(g: Gesture)
    ensures exists h: Hand :: Classify(h) == Some(g)
  {
    match g
    case Fist =>
      var h: Hand := seq(21, _ => 0.0);
      assert IsFist(h);
      assert Classify(h) == Some(Fist);
    case ThumbsUp =>
      var h: Hand := seq(21, i => if i == 4 then 0.0 else 1.0);
      assert h[4] < h[2] && IsThumbsUp(h);
      assert Classify(h) == Some(ThumbsUp);
    case OpenHand =>
      var h: Hand := seq(21, i => if i == 4 then 1.0
                                  else if i == 8 || i == 12 || i == 16 || i == 20 then 0.0 else 0.5);
      assert h[8] < h[6] && h[4] > h[8] && IsOpenHand(h);
      assert Classify(h) == Some(OpenHand);
    case Pointing =>
      var h: Hand := seq(21, i => if i == 4 || i == 12 || i == 16 || i == 20 then 1.0
                                  else if i == 8 then 0.0 else 0.5);
      assert h[8] < h[6] && h[4] > h[8] && IsPointing(h);
      assert Classify(h) == Some(Pointing);
  }

  /** A pose level at every fingertip, which satisfies both fist and open
      hand, is resolved by the chain to fist. */
  lemma LevelHandResolvesToFist(h: Hand)
    requires h[4] == h[2] && h[8] == h[6] && h[12] == h[10]
    requires h[16] == h[14] && h[20] == h[18]
    ensures Classify(h) == Some(Fist)
  {
    LevelHandIsFistAndOpen(h);
  }
}
