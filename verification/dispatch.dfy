/** Dispatching a recognised gesture to a key press, and the camera loop
    abstracted to a function from the hands seen in each frame to the trace
    of dispatch events. A key press and a "not mapped" report are events in
    the trace rather than effects. */
module Dispatch {
  import opened Options
  import opened Landmarks
  import opened Classifiers
  import opened Gestures
  import opened KeyMapping

  /** One dispatch outcome: a key pressed for a gesture, or a gesture name
      with no binding. */
  datatype Event = Pressed(gesture: string, key: string) | NotMapped(gesture: string)

  /** Handles one gesture name: presses its bound key exactly once when the
      name is in the table, and otherwise only reports it as not mapped. */
  function HandleGesture(m: KeyMap, gesture: string): (e: Event)
    ensures e.gesture == gesture
    ensures e.Pressed? <==> Lookup(m, gesture).Some?
    ensures e.Pressed? ==> Lookup(m, gesture) == Some(e.key)
  {
    if gesture in m then Pressed(gesture, m[gesture]) else NotMapped(gesture)
  }

  /** A remapping is seen by the very next dispatch: the remapped name now
      presses the new key, whether or not it was bound before, and every
      other name dispatches exactly as it did. */
  lemma RemapThenDispatch(m: KeyMap, gesture: string, key: string, other: string)
    ensures HandleGesture(SetMapping(m, gesture, key), gesture) == Pressed(gesture, key)
    ensures other != gesture ==>
      HandleGesture(SetMapping(m, gesture, key), other) == HandleGesture(m, other)
  {
    SetThenLookup(m, gesture, key, other);
  }

  /** What one detected hand contributes to the trace: the dispatch of the
      gesture the chain picks, or nothing. */
  function DispatchHand(m: KeyMap, h: Hand): (t: seq<Event>)
    ensures |t| <= 1
    ensures t == [] <==> forall g: Gesture :: !Matches(g, h)
    ensures forall g: Gesture :: Classify(h) == Some(g) ==> t == [HandleGesture(m, Name(g))]
  {
    match Classify(h)
    case None => []
    case Some(g) => [HandleGesture(m, Name(g))]
  }

  /** The events of one frame: each hand's dispatch, in the order the
      tracker lists the hands. */
  function ProcessFrame(m: KeyMap, hands: seq<Hand>): (t: seq<Event>)
    ensures |t| <= |hands|
    ensures forall i :: 0 <= i < |t| ==> t[i].gesture in GestureNames
  {
    if |hands| == 0 then []
    else
      var h := hands[0];
      assert forall g: Gesture :: Name(g) in GestureNames;
      DispatchHand(m, h) + ProcessFrame(m, hands[1..])
  }

  /** A frame yields one event per hand exactly when the chain classifies
      every hand of the frame. */
  lemma {:induction false} FrameLengthCountsClassifiedHands(m: KeyMap, hands: seq<Hand>)
    ensures |ProcessFrame(m, hands)| == |hands| <==>
      forall i :: 0 <= i < |hands| ==> Classify(hands[i]).Some?
  {
    if |hands| > 0 {
      FrameLengthCountsClassifiedHands(m, hands[1..]);
      assert forall i :: 1 <= i < |hands| ==> hands[i] == hands[1..][i - 1];
    }
  }

  /** A frame's trace is the concatenation of the traces of its parts. */
  lemma {:induction false} ProcessFrameAppend(m: KeyMap, a: seq<Hand>, b: seq<Hand>)
    ensures ProcessFrame(m, a + b) == ProcessFrame(m, a) + ProcessFrame(m, b)
  {
    if |a| > 0 {
      assert (a + b)[1..] == a[1..] + b;
      ProcessFrameAppend(m, a[1..], b);
    } else {
      assert a + b == b;
    }
  }

  /** The trace of a whole camera session: the frames' traces in order. */
  function Session(m: KeyMap, frames: seq<seq<Hand>>): (t: seq<Event>)
    ensures frames == [] ==> t == []
  {
    if |frames| == 0 then []
    else ProcessFrame(m, frames[0]) + Session(m, frames[1..])
  }

  /** A session's trace is the concatenation of the traces of its parts. */
  lemma {:induction false} SessionAppend(m: KeyMap, a: seq<seq<Hand>>, b: seq<seq<Hand>>)
    ensures Session(m, a + b) == Session(m, a) + Session(m, b)
  {
    if |a| > 0 {
      assert (a + b)[1..] == a[1..] + b;
      SessionAppend(m, a[1..], b);
    } else {
      assert a + b == b;
    }
  }

  /** Extending a prefix of a frame's hands by one hand extends its trace by
      that hand's dispatch. */
  lemma {:induction false} ProcessFrameSnoc(m: KeyMap, hands: seq<Hand>, j: nat)
    requires j < |hands|
    ensures ProcessFrame(m, hands[..j + 1]) == ProcessFrame(m, hands[..j]) + DispatchHand(m, hands[j])
  {
    assert hands[..j + 1] == hands[..j] + [hands[j]];
    ProcessFrameAppend(m, hands[..j], [hands[j]]);
  }

  /** The body of the per-hand loop as the program writes it: try fist,
      thumbs up, open hand and pointing in turn and dispatch the first that
      matches. */
  method HandleHand(m: KeyMap, h: Hand) returns (events: seq<Event>)
    ensures events == DispatchHand(m, h)
  {
    if IsFist(h) {
      events := [HandleGesture(m, "fist")];
    } else if IsThumbsUp(h) {
      events := [HandleGesture(m, "thumbs_up")];
    } else if IsOpenHand(h) {
      events := [HandleGesture(m, "open_hand")];
    } else if IsPointing(h) {
      events := [HandleGesture(m, "pointing")];
    } else {
      events := [];
    }
  }

  /** The per-hand loop over one frame's detected hands, in the tracker's
      order. */
  method RunFrame(m: KeyMap, hands: seq<Hand>) returns (events: seq<Event>)
    ensures events == ProcessFrame(m, hands)
  {
    events := [];
    var j := 0;
    assert hands[..0] == [];
    while j < |hands|
      invariant 0 <= j <= |hands|
      invariant events == ProcessFrame(m, hands[..j])
    {
      var step := HandleHand(m, hands[j]);
      ProcessFrameSnoc(m, hands, j);
      events := events + step;
      j := j + 1;
    }
    assert hands[..j] == hands;
  }

  /** Extending a prefix of a session by one frame extends its trace by that
      frame's events. */
  lemma {:induction false} SessionSnoc(m: KeyMap, frames: seq<seq<Hand>>, i: nat)
    requires i < |frames|
    ensures Session(m, frames[..i + 1]) == Session(m, frames[..i]) + ProcessFrame(m, frames[i])
  {
    assert frames[..i + 1] == frames[..i] + [frames[i]];
    SessionAppend(m, frames[..i], [frames[i]]);
    SessionCons(m, frames[i], []);
    assert [frames[i]] + [] == [frames[i]];
  }

  /** The camera loop: every frame in turn. */
  method RunCamera(m: KeyMap, frames: seq<seq<Hand>>) returns (trace: seq<Event>)
    ensures trace == Session(m, frames)
  {
    trace := [];
    var i := 0;
    while i < |frames|
      invariant 0 <= i <= |frames|
      invariant trace == Session(m, frames[..i])
    {
      var events := RunFrame(m, frames[i]);
      SessionSnoc(m, frames, i);
      trace := trace + events;
      i := i + 1;
    }
    assert frames[..i] == frames;
  }

  /** The keys pressed in a trace, in order. */
  function PressedKeys(t: seq<Event>): (keys: seq<string>) {
    if |t| == 0 then []
    else (if t[0].Pressed? then [t[0].key] else []) + PressedKeys(t[1..])
  }

  /** Under any table that binds all four gesture names, no frame reports a
      gesture as not mapped: every hand the chain classifies presses exactly
      one key, the key bound to its gesture. */
  lemma {:induction false} MappedTablePressesPerHand(m: KeyMap, hands: seq<Hand>)
    requires GestureNames <= m.Keys
    ensures forall i :: 0 <= i < |ProcessFrame(m, hands)| ==> ProcessFrame(m, hands)[i].Pressed?
    ensures forall i :: 0 <= i < |ProcessFrame(m, hands)| ==>
      ProcessFrame(m, hands)[i].key == m[ProcessFrame(m, hands)[i].gesture]
    ensures |PressedKeys(ProcessFrame(m, hands))| == |ProcessFrame(m, hands)|
  {
    if |hands| > 0 {
      var h := hands[0];
      MappedTablePressesPerHand(m, hands[1..]);
      var d := DispatchHand(m, h);
      var rest := ProcessFrame(m, hands[1..]);
      var t := d + rest;
      if Classify(h).Some? {
        NameIsInjective(Classify(h).value, Classify(h).value);
        assert d[0].Pressed? && d[0].key == m[d[0].gesture];
      }
      assert forall i :: 0 <= i < |t| ==> t[i].Pressed?;
      assert forall i :: 0 <= i < |t| ==> t[i].key == m[t[i].gesture];
      PressedKeysAppend(d, rest);
    }
  }

  /** Keys pressed distribute over concatenation of traces. */
  lemma {:induction false} PressedKeysAppend(a: seq<Event>, b: seq<Event>)
    ensures PressedKeys(a + b) == PressedKeys(a) + PressedKeys(b)
  {
    if |a| > 0 {
      assert (a + b)[1..] == a[1..] + b;
      PressedKeysAppend(a[1..], b);
    } else {
      assert a + b == b;
    }
  }

  /** A frame with one hand carries exactly that hand's dispatch. */
  lemma SingleHandFrame(m: KeyMap, h: Hand)
    ensures ProcessFrame(m, [h]) == DispatchHand(m, h)
  {
    assert [h][1..] == [];
  }

  /** With the default table, a session that sees a fist, a thumbs up, no
      hand, then a fist presses p, space, p, and reports nothing else. */
  lemma DefaultSessionExample(fist: Hand, thumbs: Hand)
    requires IsFist(fist)
    requires !IsFist(thumbs) && IsThumbsUp(thumbs)
    ensures Session(DefaultMapping, [[fist], [thumbs], [], [fist]])
      == [Pressed("fist", "p"), Pressed("thumbs_up", "space"), Pressed("fist", "p")]
    ensures PressedKeys(Session(DefaultMapping, [[fist], [thumbs], [], [fist]]))
      == ["p", "space", "p"]
  {
    var f := [Pressed("fist", "p")];
    var u := [Pressed("thumbs_up", "space")];
    SingleHandFrame(DefaultMapping, fist);
    SingleHandFrame(DefaultMapping, thumbs);
    assert ProcessFrame(DefaultMapping, [fist]) == f;
    assert ProcessFrame(DefaultMapping, [thumbs]) == u;
    SessionCons(DefaultMapping, [fist], []);
    SessionCons(DefaultMapping, [], [[fist]]);
    SessionCons(DefaultMapping, [thumbs], [[], [fist]]);
    SessionCons(DefaultMapping, [fist], [[thumbs], [], [fist]]);
    var t := f + u + f;
    assert t == [Pressed("fist", "p"), Pressed("thumbs_up", "space"), Pressed("fist", "p")];
    assert PressedKeys(t[2..]) == ["p"];
    assert PressedKeys(t[1..]) == ["space", "p"];
  }

  /** Session unfolded at its first frame. */
  lemma SessionCons(m: KeyMap, f: seq<Hand>, rest: seq<seq<Hand>>)
    ensures Session(m, [f] + rest) == ProcessFrame(m, f) + Session(m, rest)
  {
    assert ([f] + rest)[1..] == rest;
  }
}
