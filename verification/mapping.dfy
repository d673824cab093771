/** The gesture-name to key-name table and its single update operation. */
module KeyMapping {
  import opened Options
  import opened Gestures

  type KeyMap = map<string, string>

  /** The table the program starts with. */
  const DefaultMapping: KeyMap := map[
    "thumbs_up" := "space",
    "fist" := "p",
    "open_hand" := "esc",
    "pointing" := "enter"
  ]

  /** The key a gesture name is bound to, if any. */
  function Lookup(m: KeyMap, gesture: string): (r: Option<string>)
    ensures r.Some? <==> gesture in m
    ensures r.Some? ==> r.value == m[gesture]
  {
    if gesture in m then Some(m[gesture]) else None
  }

  /** Binds `gesture` to `key`, adding the entry when it is absent and
      overwriting it otherwise; every other entry is left as it was. */
  function SetMapping(m: KeyMap, gesture: string, key: string): (m': KeyMap)
    ensures m'.Keys == m.Keys + {gesture}
    ensures m'[gesture] == key
    ensures forall g :: g in m && g != gesture ==> m'[g] == m[g]
  {
    m[gesture := key]
  }

  /** After an update the updated name looks up to the new key and every
      other name looks up as before. */
  lemma SetThenLookup(m: KeyMap, gesture: string, key: string, other: string)
    ensures Lookup(SetMapping(m, gesture, key), gesture) == Some(key)
    ensures other != gesture ==>
      Lookup(SetMapping(m, gesture, key), other) == Lookup(m, other)
  {
  }

  /** The later of two updates to the same name wins. */
  lemma LastWriteWins(m: KeyMap, gesture: string, k1: string, k2: string)
    ensures SetMapping(SetMapping(m, gesture, k1), gesture, k2) == SetMapping(m, gesture, k2)
  {
  }

  /** Updates to different names commute. */
  lemma UpdatesCommute(m: KeyMap, g1: string, k1: string, g2: string, k2: string)
    requires g1 != g2
    ensures SetMapping(SetMapping(m, g1, k1), g2, k2) == SetMapping(SetMapping(m, g2, k2), g1, k1)
  {
  }

  /** With the default table every gesture the classifier chain can report
      has a key: fist p, thumbs up space, open hand esc, pointing enter. */
  lemma DefaultsCoverEveryGesture(g: Gesture)
    ensures Name(g) in DefaultMapping
    ensures DefaultMapping.Keys == GestureNames
    ensures DefaultMapping[Name(g)] ==
      match g
      case Fist => "p"
      case ThumbsUp => "space"
      case OpenHand => "esc"
      case Pointing => "enter"
  {
  }

  /** An update never removes a binding, so a table that maps every gesture
      still does after any update. */
  lemma SetKeepsGesturesMapped(m: KeyMap, gesture: string, key: string, g: Gesture)
    requires GestureNames <= m.Keys
    ensures Name(g) in SetMapping(m, gesture, key)
  {
    NameIsInjective(g, g);
  }
}
