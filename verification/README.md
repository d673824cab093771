# GestureMap gesture classification and dispatch, in Dafny

GestureMap watches a camera, lets a hand tracker find the hands in each
frame, and turns each hand's pose into a key press. This project models its
decision logic, all of which lives in `main.py`:

- the four static pose predicates `is_fist`, `is_thumbs_up`, `is_open_hand`
  and `is_pointing`. They read only the vertical coordinate (y) of the
  tracker's 21 landmarks. Image y grows downwards, so a smaller y is higher
  on screen;
- the first-match-wins if/elif chain in `start_camera`. For each hand it
  picks fist, then thumbs up, then open hand, then pointing, or nothing;
- the mutable table from gesture name to key name (`gesture_to_key_mapping`)
  and its update `set_gesture_mapping`;
- `handle_gesture`. It presses the bound key once when the name is in the
  table. Otherwise it reports the name as not mapped;
- the camera loop, as a pure function from the hands seen in each frame to
  the trace of dispatch events.

Modules:

- `Landmarks` (landmarks.dfy) holds the 21-value hand. It also holds
  `AllTips`, the one fingertip scan behind the three finger loops.
- `Classifiers` (classifiers.dfy) holds the four pose predicates. The
  three finger scans state their pose as an explicit comparison per
  landmark; thumbs up is one comparison, and a lemma shows it reads only
  the thumb and index tips.
- `Gestures` (gestures.dfy) holds the gesture labels, the chain
  (`Classify`) and a reference priority-list semantics (`FirstMatch`), with
  proofs that the two agree.
- `KeyMapping` (mapping.dfy) holds the default table, lookup and update.
- `Dispatch` (dispatch.dfy) holds `handle_gesture`, the per-hand, per-frame
  and per-session dispatch, and the loops as methods.

Coordinates are `real`. The tracker yields finite coordinates and the
classifiers only compare them with each other, so comparing them as reals
is exact. (A NaN coordinate, for which `not (a < b)` and `a >= b` would
disagree, is outside the model.) A key press is a `Pressed(gesture, key)`
event and a "not mapped" message is a `NotMapped(gesture)` event; both are
appended to a trace.

The open-hand scan at main.py:46-48 rejects only `tip > joint`, so a tip
level with its joint counts as extended.

## Model

| member | source | states |
|---|---|---|
| Landmarks.AllTips | main.py:33-57 | the early-return finger scan is true exactly when every listed tip passes the comparison with the landmark two positions before it |
| Landmarks.FailureIsFinal | main.py:35-37 | once a tip has failed, no later tip can make the scan true (the loop returns False at the first failing tip) |
| Classifiers.IsFist | main.py:33-38 | fist holds exactly when y[t] >= y[t-2] for each of the tips 4, 8, 12, 16 and 20 |
| Classifiers.ThumbsUpReadsOnlyThumbAndIndex | main.py:40-43 | thumbs up depends only on the y of the thumb tip (4) and the index tip (8): hands that agree there agree on thumbs up, whatever the other fingers do |
| Classifiers.IsOpenHand | main.py:45-49 | open hand holds exactly when y[t] <= y[t-2] for tips 8, 12, 16 and 20; the thumb is not inspected |
| Classifiers.IsPointing | main.py:51-57 | pointing holds exactly when y[8] < y[5] and y[t] > y[t-2] for tips 12, 16 and 20 |
| Classifiers.OpenHandExcludesPointing | main.py:45-57 | no hand is both an open hand and pointing |
| Classifiers.LevelHandIsFistAndOpen | main.py:33-49 | a hand with every tip level with its joint is both a fist and an open hand |
| Gestures.NameIsInjective | main.py:84-91 | the four gestures are dispatched under four distinct names from the fixed set |
| Gestures.Classify | main.py:84-91 | fist is picked exactly when is_fist holds; thumbs up only when fist fails; open hand only when both fail; pointing only when all three fail; the pick always matches its predicate; nothing is picked exactly when no predicate holds |
| Gestures.FirstMatchSpec | main.py:84-91 | first-match over a priority list returns g exactly when g is at a position that matches with no earlier match, and nothing exactly when no rule matches |
| Gestures.ChainIsFirstMatch | main.py:84-91 | the if/elif chain equals first-match over the order fist, thumbs up, open hand, pointing |
| Gestures.EveryGestureReachable | main.py:84-91 | each of the four branches is taken for some hand, so the earlier branches never hide a later one completely |
| Gestures.LevelHandResolvesToFist | main.py:84-89 | a hand level at every tip, which satisfies both fist and open hand, is resolved by the chain to fist |
| KeyMapping.Lookup | main.py:61-62 | a lookup finds a key exactly when the name is in the table, and that key is the bound one |
| KeyMapping.SetMapping | main.py:28-30 | after an update the name is bound to the new key, the keys are the old keys plus that name, and every other binding is unchanged |
| KeyMapping.SetThenLookup | main.py:28-30 | after an update, looking up the updated name gives the new key and looking up any other name gives what it gave before |
| KeyMapping.LastWriteWins | main.py:28-30 | of two updates to the same name, the later one wins |
| KeyMapping.UpdatesCommute | main.py:28-30 | updates to two different names can be applied in either order |
| KeyMapping.DefaultsCoverEveryGesture | main.py:20-25 | the default table binds exactly the four gesture names: fist to p, thumbs up to space, open hand to esc, pointing to enter |
| KeyMapping.SetKeepsGesturesMapped | main.py:28-30 | an update never removes a binding, so a table that maps every gesture still does afterwards |
| Dispatch.HandleGesture | main.py:59-66 | a name in the table presses exactly its bound key; a name not in the table yields only a not-mapped report |
| Dispatch.RemapThenDispatch | main.py:59-66 | right after an update, the updated name presses the new key and every other name dispatches as before |
| Dispatch.DispatchHand | main.py:84-91 | a hand yields at most one event; it yields none exactly when no predicate holds, and otherwise the dispatch of the picked gesture's name |
| Dispatch.ProcessFrame | main.py:79-91 | a frame yields at most one event per hand (none when there are no hands), and each event names one of the four gestures |
| Dispatch.FrameLengthCountsClassifiedHands | main.py:80-91 | a frame yields exactly one event per hand if and only if the chain classifies every hand of the frame |
| Dispatch.ProcessFrameAppend | main.py:79-91 | a frame's events are the events of its hands concatenated in order |
| Dispatch.SingleHandFrame | main.py:80-91 | a frame with one hand yields exactly that hand's dispatch |
| Dispatch.SessionAppend | main.py:71-95 | a session's events are its frames' events concatenated in order |
| Dispatch.HandleHand | main.py:84-91 | the imperative if/elif chain produces the same events as the per-hand dispatch |
| Dispatch.RunFrame | main.py:79-91 | the loop over a frame's hands produces that frame's events |
| Dispatch.RunCamera | main.py:71-95 | the loop over frames produces the session's events |
| Dispatch.MappedTablePressesPerHand | main.py:59-63 | under a table that binds all four gesture names, every event of a frame is a key press of the key bound to its gesture |
| Dispatch.DefaultSessionExample | main.py:79-91 | with the default table, a session of fist, thumbs up, no hand, fist presses p, space, p and nothing else |

## Left out

- Camera capture, frame flipping and colour conversion, `imshow`/`waitKey`: I/O. A session is a finite list of frames. The loop's exits on a failed read or the ESC key end that list.
- MediaPipe hand tracking and landmark drawing: a foreign library. Each frame's detected hands are an input list; a missing hand list and an empty one both mean no hands.
- Landmark x and z coordinates: no classifier reads them.
- Dispatch.HandleGesture: assumes every key press returns. In the program a press that raises (for instance through pyautogui's corner fail-safe) is not caught anywhere in main.py:59-91: it ends the camera session mid-frame, skips the frame's remaining hands and leaves `cap.release()` unrun. The model has no such outcome, so `MappedTablePressesPerHand` and `RunCamera` describe sessions in which every press succeeds.
- `pyautogui.press` and every `print`: these are effects. Presses and "not mapped" reports are trace events. The "Reassigned" message of `set_gesture_mapping` is not modelled.
- The Tkinter window in `create_gui`: UI only. It links to the core in three ways. It is the remapping surface, calling `set_gesture_mapping` (modelled as `KeyMapping.SetMapping`). It reads the table to preset each dropdown (main.py:145). It is the only caller of `start_camera`, from its Start Camera button (main.py:154-158). The GUI's own event loop is blocked while the camera runs, so a session uses one fixed table.
- Reachability of the core from the entry point: as written, `create_gui` evaluates the bare name `asl_functionality` at main.py:116, which main.py never defines or imports. That raises NameError before the Start Camera button is created and before `root.mainloop()`, so from main.py:167 neither `set_gesture_mapping` nor `start_camera` is reached (found by reading; not executed). The model describes what `start_camera` and the remapping would do once called.
- The environment-variable setup at the top of `main.py`: configuration of a foreign library.
- `asl.py`: a placeholder camera loop with no recognition logic.
- Dispatch.Session: its own contract only says that no frames give no events. What it computes is stated by `SessionAppend`, `RunCamera` and `DefaultSessionExample`.
