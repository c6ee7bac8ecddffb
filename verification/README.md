# Auto-clicker macro engine, modelled in Dafny

The repository holds two independent implementations of one desktop macro
engine. A *set* is a named list of screen positions, each with a click type,
a text to type and a delay. The *execution queue* lists sets, and the engine
plays them one after another, each a given number of loops.

The model covers both implementations, each on its own terms.

**MVVM data model** (`models/automation_model.py`).
- Modules `AutomationModel` and `ModelDocument`.
- A registry of sets keyed by name, each holding a loop count and a growable list of action records.
- The active-set reference, a de-duplicating queue of names, and the current file.
- Every operation is a pure function on an immutable `Registry`.
- `load_file` and `save_file_as` are modelled on an already-parsed document value: validation, default backfill and encoding.

**MVVM runner** (`viewmodels/automation_viewmodel.py`).
- Modules `AutomationViewModel` and `PlaybackOrder`.
- The three flags `is_running`, `is_paused` and `coordinate_mode_active`, and the operations that flip them.
- The playback worker as a pure function from the queue snapshot to the trace of events it emits: moves, waits, clicks, writes, active-set switches, pause/stop checks and the final state notification.
- The environment of the worker thread is two numbers:
  - `haltAt`: the index of the first per-record check that finds `is_running` false;
  - `faultAt`: the number of events emitted before an exception.
- `time.sleep` raises on a negative delay, so the first negative `Wait` ends the run as a failure whatever `faultAt` says.
- `sorted(..., key=order)` is modelled as a stable insertion sort.

**Legacy monolith** (`automation.py`), non-widget paths only.
- Modules `LegacyEngine`, `LegacyRunner` and `LegacyCodec`.
- Sets keyed by integer id, each a record of parallel 20-slot lists.
- The start/stop/pause transitions, the queue operations (duplicates allowed) and recording into the first empty slot.
- The cursor-driven `process_queue` as a step function, `Step`, returning the new state, the effects and the delay before the next scheduled call. `RunToEnd` iterates `Step` until no further call is scheduled. It terminates on a lexicographic measure over the three cursors (queue index, loop, slot).
- A mouse or keyboard call that raises inside a step is a further input: `StepFaulting` takes the index of the failing call, and `RunFaulted` the step it happens in.
- The data part of `save_file` and `open_file` as an encode/decode pair on an abstract document.

Shared modules:
- `Wrappers` (`Option`);
- `Text`: decimal rendering and parsing of integers, as `str` and `int` do them, and the whitespace test of `str.strip`;
- `Dicts`: an insertion-ordered Python dict, a key sequence plus a map. Assigning to an existing key keeps its position; a new key goes to the end.

Inputs the model takes as parameters:
- **Mouse position:** every capture takes the position as a `Point` argument.
- **Legacy entry widgets:** the contents of the text boxes are a `seq<string>` argument, and the loop-count entry is an `Option<int>` (`None` when `int()` fails).
- **Delay parsing:** `float()` on a legacy delay text is an uninterpreted `parse: string -> Option<real>`.

## Model

| member | source | states |
|---|---|---|
| AutomationModel.Initial | models/automation_model.py:7-17 | A new model holds exactly one set, "Set 1", with loop count 1 and no records; it is active, the queue is empty and there is no current file. |
| AutomationModel.Reset | models/automation_model.py:19-24 | After a reset there are no sets, no active set, an empty queue and no current file. |
| AutomationModel.SetNameDistinct | models/automation_model.py:29-30 | Different numbers give different generated names "Set n". |
| AutomationModel.AddNewSetAsWritten | models/automation_model.py:26-42 | As written, the new name is "Set n" with n = number of sets + 1. It is stored with loop count 1 and no records, even if a set of that name exists. It becomes active only when no set is active. |
| AutomationModel.AddNewSetAsWrittenOverwrites | models/automation_model.py:29-36 | When "Set n" is already taken, the as-written call adds no set and replaces the existing set's data with the empty defaults. |
| AutomationModel.AddNewSetAsWrittenCollisionExample | models/automation_model.py:26-42 | Concrete sequence: add a set, give "Set 1" five loops, rename it "Set 3". The next as-written add picks "Set 3" and wipes the renamed set. |
| AutomationModel.FreshSetNumber | models/automation_model.py:29-30 | The first number, counting up from a start value, whose generated name is not taken. |
| AutomationModel.AddNewSet | models/automation_model.py:26-42 | Corrected add. The name is always fresh, and equals "Set n" (n = number of sets + 1) whenever that name is free. The set list grows by exactly that key, holding loop count 1 and no records. It becomes active only if no set was active. The queue and file are unchanged. |
| AutomationModel.ReplaceAll | models/automation_model.py:69 | The queue rewrite keeps the length, replaces every `old` entry by `new` and keeps every other entry. |
| AutomationModel.RenameSet | models/automation_model.py:58-72 | Succeeds exactly when `old` exists and `new` does not. On success the data moves to `new` at the end of the key order, and the active set follows. Every queue entry `old` becomes `new`, with the length and the other entries unchanged. On failure nothing changes. |
| AutomationModel.RenameRoundTrip | models/automation_model.py:58-72 | Renaming back undoes a rename: the sets (contents), the active set and the queue are restored, provided `new` was not already queued. |
| AutomationModel.SwitchSet | models/automation_model.py:74-79 | `switch_set` and the identical `load_set` succeed exactly when the name exists. They then change only the active set; otherwise nothing changes. |
| AutomationModel.MergeFrom | models/automation_model.py:88-104 | The merge loop: the result is as long as the longer list. Slots present on both sides take the incoming label, click type, text, delay and order, and the incoming position only when one is given. Surplus incoming records are appended and surplus stored records are kept. |
| AutomationModel.SaveSetData | models/automation_model.py:81-104 | Without an active set nothing changes. Otherwise only the active set's records change, merged as above; its loop count, the other sets, the set of names and their order, the queue, the active set and the current file stay. |
| AutomationModel.SaveLoopCount | models/automation_model.py:106-109 | Stores the count as given (no clamping) in the active set; the other sets, the key order, the queue, the active set and the current file stay. Without an active set nothing changes. |
| AutomationModel.GetCoordinatePosition | models/automation_model.py:111-117 | Returns the stored position of slot `index` exactly when there is an active set and `0 <= index < len`; otherwise nothing. |
| AutomationModel.DefaultCoordinate | models/automation_model.py:146-155 | The default record of slot k: label "K k+1: ", click 'left', empty text, delay 0.5, order k, no position. |
| AutomationModel.PadTo | models/automation_model.py:161-162 | Padding makes the list longer than `index` and never shrinks it. Stored records are untouched, and each added slot k holds the default record of slot k. |
| AutomationModel.WriteSlot | models/automation_model.py:157-187 | A slot write after padding: slot `index` holds the new record. Every other slot, every other set, the loop count, the key order, the queue and the active set are unchanged. |
| AutomationModel.UpdateCoordinatePosition | models/automation_model.py:157-169 | Records the position in slot `index` (padding first). The label becomes "K i: (x, y)" only if it still equals the slot's default label; a custom label is kept. The other fields are unchanged. Without an active set nothing changes. |
| AutomationModel.UpdatedPositionReadsBack | models/automation_model.py:111-117 | After a position is recorded in slot `index` of the active set, `get_coordinate_position(index)` returns it. |
| AutomationModel.UpdatePositionKeepsOthers | models/automation_model.py:111-117 | Recording a position in one slot leaves what every other existing slot reads back unchanged. |
| AutomationModel.UpdateCoordinateLabel | models/automation_model.py:171-177 | Sets only the label of slot `index` (padding first); without an active set nothing changes. |
| AutomationModel.ToggleClickType | models/automation_model.py:179-187 | Sets only the click type of slot `index` (padding first) and returns it; without an active set returns nothing and changes nothing. |
| AutomationModel.AddToQueue | models/automation_model.py:189-194 | Appends exactly when the set exists and is not yet queued, and reports it; otherwise false with everything unchanged. |
| AutomationModel.AddToQueueKeepsNoDuplicates | models/automation_model.py:189-194 | Adding never creates a duplicate queue entry. |
| AutomationModel.RemoveFromQueue | models/automation_model.py:196-201 | Removes exactly the entry at `index` and reports true iff `0 <= index < len(queue)`; otherwise false and nothing changes. |
| ModelDocument.BackfillCoordinate | models/automation_model.py:224-229 | Every missing key of the record in slot k is filled from slot k's default record; present keys are kept. |
| ModelDocument.BackfillCoordinates | models/automation_model.py:225-229 | Each record of a list is backfilled from the default of its own slot index; the length is kept. |
| ModelDocument.BackfillSet | models/automation_model.py:218-229 | A missing loop count becomes 1, a missing record list becomes empty, and every record is backfilled. |
| ModelDocument.LoadFile | models/automation_model.py:207-246 | Refuses anything but an object with both 'sets' and 'queue', leaving the registry untouched. Otherwise the backfilled sets (in document order) and the queue replace the registry's, and the file becomes current. The first set, or none, becomes active. |
| ModelDocument.Encode | models/automation_model.py:255-262 | The saved document holds 'sets' in the registry's key order and 'queue' as is. |
| ModelDocument.BackfillEncodedSet | models/automation_model.py:218-229 | Backfilling a saved set gives the set back. |
| ModelDocument.LoadEncodeRoundTrip | models/automation_model.py:207-262 | Loading what was saved, from any registry, restores the sets (names, order, contents) and the queue. The first set becomes active and the file becomes current. |
| PlaybackOrder.Insert | viewmodels/automation_viewmodel.py:200-203 | Insertion into a list sorted by `order` keeps it sorted and adds exactly the one record (multiset). |
| PlaybackOrder.SortByOrder | viewmodels/automation_viewmodel.py:200-203 | The sorted list is ordered by `order` and is a permutation of the input. |
| PlaybackOrder.InsertWithOrder | viewmodels/automation_viewmodel.py:200-203 | Insertion puts a record after every record of its own rank that was already there. |
| PlaybackOrder.SortByOrderStable | viewmodels/automation_viewmodel.py:200-203 | Stability: for every rank, records of that rank come out in their slot order. |
| PlaybackOrder.ExampleOrder | viewmodels/automation_viewmodel.py:200-203 | Ranks [2, 0, 1] in slots 0..2 are played as slot 1, slot 2, slot 0. |
| AutomationViewModel.Initial | viewmodels/automation_viewmodel.py:8-21 | The view model starts with the initial model and all three flags false. |
| AutomationViewModel.ToggleAutomation | viewmodels/automation_viewmodel.py:77-89 | Flips `is_running`, always clears `is_paused`, returns the new `is_running`, and leaves the model alone. |
| AutomationViewModel.ToggleAutomationTwice | viewmodels/automation_viewmodel.py:77-89 | Two toggles give back the view model with the pause cleared, and the two calls report opposite running states. |
| AutomationViewModel.TogglePause | viewmodels/automation_viewmodel.py:91-98 | Flips `is_paused` only while running, otherwise changes nothing, and returns the resulting `is_paused`. |
| AutomationViewModel.TogglePauseTwice | viewmodels/automation_viewmodel.py:91-98 | Two pauses in a row give back the view model one started with. |
| AutomationViewModel.HandlePauseKey | viewmodels/automation_viewmodel.py:35-43 | The P key flips the pause flag exactly when running, changes nothing else, and reports whether it did; otherwise nothing changes. |
| AutomationViewModel.PauseKeyIsTogglePause | viewmodels/automation_viewmodel.py:35-43 | For every state the P key has the effect of `toggle_pause`, and two presses give back the view model. |
| AutomationViewModel.ToggleCoordinateMode | viewmodels/automation_viewmodel.py:68-71 | Flips only the recording flag and returns its new value. |
| AutomationViewModel.ToggleCoordinateModeTwice | viewmodels/automation_viewmodel.py:68-71 | Two toggles give back the view model, and the second reports the original flag. |
| AutomationViewModel.AddToQueue | viewmodels/automation_viewmodel.py:100-106 | With an active set, offers it to the model's de-duplicating queue and returns its name whether or not it was added. Without one, returns nothing and changes nothing. |
| AutomationViewModel.NewFile | viewmodels/automation_viewmodel.py:245-258 | Leaves exactly one set, "Set 1", which is active and empty, an empty queue, no current file and all flags false. |
| AutomationViewModel.ClickEvents | viewmodels/automation_viewmodel.py:222-228 | Exactly one click of the matching kind for 'left', 'right' or 'double', and none for any other click type. |
| AutomationViewModel.RecordEvents | viewmodels/automation_viewmodel.py:218-234 | A record without a position emits nothing. A positioned one emits move, wait(delay), its click, write(text) only if the text is non-empty, then wait(delay). |
| AutomationViewModel.UpToCheck | viewmodels/automation_viewmodel.py:206-215 | The prefix before the check with index k: it holds k checks (or all of them), and what follows it is that check. |
| AutomationViewModel.Interrupt | viewmodels/automation_viewmodel.py:206-237 | The worker gets through a prefix of the uninterrupted trace. It fails exactly when the fault comes before the halting check, and then after `faultAt` events. Otherwise it ends at that check: stopped exactly when the check lies inside the trace, completed exactly when the trace runs out first. |
| AutomationViewModel.Worker | viewmodels/automation_viewmodel.py:180-243 | An empty queue ends at once. Otherwise the events are the uninterrupted playback of the queue snapshot, cut short by a stop, a fault or the first negative sleep, whichever comes first. However it ends, both flags are cleared and the last event is the state notification with False. Only the active set of the model changes, to the last set activated. |
| AutomationViewModel.FirstBadWait | viewmodels/automation_viewmodel.py:220-234 | The position of the first sleep of a negative number of seconds, the only one `time.sleep` refuses; none exactly when every sleep is non-negative. |
| AutomationViewModel.WorkerNeverSleepsNegative | viewmodels/automation_viewmodel.py:220-234 | No run of the worker performs a negative sleep. |
| AutomationViewModel.NegativeSleepFails | viewmodels/automation_viewmodel.py:220-239 | A negative delay reached before the run halts always ends the run as a failure. |
| AutomationViewModel.CompletedRunLeavesLastKnown | viewmodels/automation_viewmodel.py:180-243 | A completed run emitted the whole playback with no negative sleep in it, and left the last queued name that exists active. |
| AutomationViewModel.PlaybackActivatesKnown | viewmodels/automation_viewmodel.py:188-191 | Every set the worker activates exists. |
| AutomationViewModel.ActiveAfterKnown | viewmodels/automation_viewmodel.py:188-191 | The worker's active-set writes keep the registry well formed. |
| AutomationViewModel.PassCounts | viewmodels/automation_viewmodel.py:206-234 | One pass makes one check per record and one click per positioned record with a known click type. |
| AutomationViewModel.RepeatCounts | viewmodels/automation_viewmodel.py:198 | `range(n)` repeats: n copies of the checks and clicks, none when n is not positive. |
| AutomationViewModel.ClickingSorted | viewmodels/automation_viewmodel.py:200-203 | Sorting by `order` changes neither which records click nor how many do. |
| AutomationViewModel.SetEventsCounts | viewmodels/automation_viewmodel.py:194-234 | A set plays `loop_count` passes: loop_count × records checks and loop_count × clicking-records clicks (none when the loop count is not positive). |
| AutomationViewModel.LastKnownCons | viewmodels/automation_viewmodel.py:188-191 | The set left active after a queue is the last queued name that exists, else the one active before. |
| AutomationViewModel.PlaybackLeavesLastKnownActive | viewmodels/automation_viewmodel.py:188-191 | An uninterrupted run leaves the last existing queued set active. |
| AutomationViewModel.MissingSetReplaysActive | viewmodels/automation_viewmodel.py:188-195 | A queued name that does not exist leaves the active set alone, so the previous set's events are played again in its place. |
| LegacyEngine.NewSet | automation.py:1353-1362 | A new set: name "Set id", one loop, twenty empty slots named "K 1".."K 20", left clicks, delay text "0.5", order 0..19 and empty texts. Every slot list has length 20. |
| LegacyEngine.Initial | automation.py:83-120 | The constructor holds set 1 only, active, with the id counter at 1, an empty queue and every flag off. |
| LegacyEngine.AddNewSet | automation.py:1348-1362 | Increments the id counter and stores a new set under the new id; nothing else changes. |
| LegacyEngine.AddNewSetIsFresh | automation.py:1348-1362 | While every id in use was issued by the counter, the new id is unused and the set list grows by exactly that id; the invariants are kept. |
| LegacyEngine.SaveLoopCount | automation.py:1384-1396 | An integer below 1 is stored as 1, any other integer as given, in the active set only. Non-integer input, or no active set, changes nothing. |
| LegacyEngine.SaveLoopCountKeepsPositive | automation.py:1384-1396 | Stored loop counts stay at least 1, and saving the same entry twice is saving it once. |
| LegacyEngine.Stop | automation.py:1307-1310 | Stop clears `running` and `paused` and touches nothing else. |
| LegacyEngine.ToggleAutomationAsWritten | automation.py:1273-1306 | As written: running stops, an empty queue is refused unchanged, and a missing active set changes nothing. Otherwise the text boxes go into the active set, and the engine starts with the loop and slot cursors at 0 but the queue index left as it was. |
| LegacyEngine.ToggleAutomation | automation.py:1273-1306 | Corrected start: the same transitions, with the queue index also rewound to 0 on a start. |
| LegacyEngine.StartStopRestoresCursors | automation.py:1273-1310 | A start followed by a stop gives back the queue and the running flag, with paused off and the queue index 0. |
| LegacyEngine.TogglePause | automation.py:1427-1449 | No-op unless running; otherwise flips `paused`, and schedules a step exactly on resume. |
| LegacyEngine.TogglePauseTwice | automation.py:1427-1449 | Two pauses restore the engine, and exactly one of them schedules a step while running. |
| LegacyEngine.AddToQueue | automation.py:1187-1190 | Appends the id, duplicates allowed; nothing else changes. |
| LegacyEngine.RemoveFirst | automation.py:1237 | `list.remove`: drops exactly the first occurrence (one fewer in the multiset), or nothing when absent. |
| LegacyEngine.RemoveFromQueue | automation.py:1228-1244 | Drops the first occurrence of the id. It stops automation only if running and the id is the queue's head, and leaves the queue index alone. An absent id changes nothing. |
| LegacyEngine.RemoveUndoesAdd | automation.py:1187-1244 | Removing an id just added to a queue that did not hold it restores the queue, and the whole engine when the queue was non-empty. |
| LegacyEngine.ClearQueue | automation.py:1170-1185 | Stops a running automation, empties the queue and rewinds the queue index to 0. A stopped engine keeps its pause flag; nothing else changes. |
| LegacyEngine.ClearQueueIdempotent | automation.py:1170-1185 | Clearing twice is clearing once. |
| LegacyEngine.ClearedQueueRefusesStart | automation.py:1170-1185 | A start right after clearing is refused as an empty queue and changes nothing. |
| LegacyEngine.ToggleRecording | automation.py:1246-1271 | Flips recording mode only. |
| LegacyEngine.ToggleRecordingTwice | automation.py:1246-1271 | Two toggles give back the engine. |
| LegacyEngine.FirstEmpty | automation.py:1335-1336 | The first empty slot: every slot before it is filled; there is none iff all slots are filled. |
| LegacyEngine.OnCoordinateClick | automation.py:1325-1346 | In recording mode the position goes into the active set's first empty slot, filling one more slot. A full set, recording off, or no active set changes nothing. |
| LegacyEngine.RecordingFillsInOrder | automation.py:1325-1346 | When the filled slots are exactly the first k, a capture makes them exactly the first k + 1. |
| LegacyEngine.ToggleUpdateMode | automation.py:714-738 | The update button arms re-capture for its slot, or disarms it when it was armed for that slot. |
| LegacyEngine.SaveUpdatedCoordinate | automation.py:740-761 | While armed, the slot becomes the position and re-capture is disarmed. Unarmed, no active set, or a slot past the end changes nothing. |
| LegacyEngine.RecaptureOverwrites | automation.py:714-761 | Re-capturing a slot twice keeps only the second position. |
| LegacyEngine.EditsKeepShape | automation.py:1325-1396 | Saving a loop count, recording and re-capturing keep every set at twenty entries per slot list. |
| LegacyRunner.ClickFor | automation.py:584-589 | A left, right or double click at the slot's point for those click types; no click for any other. |
| LegacyRunner.TypeFor | automation.py:592-595 | A tenth-second sleep and the text, unless the text is empty or whitespace only. |
| LegacyRunner.Step | automation.py:528-615 | Inert while stopped or paused. A next call is scheduled only while running and unpaused. An unknown set, empty queue or out-of-range index stops automation with no effects. Sets and queue are never changed. |
| LegacyRunner.StepFaulting | automation.py:580-615 | When a mouse or keyboard call of the step raises, automation stops with no next call, and only the effects before that call are made. A fault past the step's last call leaves the plain step. |
| LegacyRunner.FaultStopsInPlace | automation.py:580-615 | A raising call leaves the queue, loop and slot cursors where they were, and the step's effects are cut to a strict initial part. |
| LegacyRunner.RunFaulted | automation.py:528-615 | A run with one raising library call ends stopped or paused, with the sets and queue unchanged. |
| LegacyRunner.FaultCutsRun | automation.py:528-615 | The trace of a run in which a library call raises is an initial part of the trace of the same run without it. |
| LegacyRunner.StepProgress | automation.py:549-611 | Every step that schedules another moves the cursors (queue entries left, loops left, slots left) strictly forward. |
| LegacyRunner.RunToEnd | automation.py:528-615 | Repeated steps end in a state that schedules nothing (stopped or paused), with the sets and queue unchanged. |
| LegacyRunner.StepFinishes | automation.py:550-568 | After the last loop of the last queue entry, the step rewinds every cursor and stops with no effects. |
| LegacyRunner.StepNextEntry | automation.py:550-571 | After the last loop of a non-final entry, the step moves to the next entry with loop and slot at 0 and schedules after 0.1 s. |
| LegacyRunner.StepNextLoop | automation.py:573-578 | At the end of a pass the step starts the next loop at slot 0 after 0.1 s. |
| LegacyRunner.StepSlot | automation.py:580-611 | A filled slot clicks per its type, types a non-blank text and schedules after its parsed delay (0.5 if unparsable). An empty slot is skipped after 0.1 s. |
| LegacyRunner.StepContinues | automation.py:549-611 | Every step that does not finish the queue keeps the engine playing, schedules another call and emits exactly the next piece of the remaining reference trace. Where the run finally ends does not change. |
| LegacyRunner.InSetSlot | automation.py:580-611 | Within a loop, what is left of the set starts with the current slot's effects and its delay, followed by what is left from the next slot. |
| LegacyRunner.InSetStart | automation.py:550-555 | A set entered at loop 0 and slot 0 plays all of its loop_count passes. |
| LegacyRunner.RunFromCursor | automation.py:528-615 | From any cursor inside a queue of playable sets, a run emits exactly the rest of the reference trace (slots in slot order, loop_count passes per set, sets in queue order). It ends stopped with every cursor rewound. |
| LegacyRunner.StartPlaysWholeQueue | automation.py:1273-1306 | A corrected start followed by steps plays the whole queue from its head and ends stopped with the queue index 0. |
| LegacyRunner.StoppedIsInert | automation.py:530-531 | A stopped or paused engine emits nothing however often it is stepped. |
| LegacyRunner.ClearedQueuePlaysNothing | automation.py:1170-1185 | After the queue is cleared a `process_queue` call does nothing, and a run plays nothing. |
| LegacyRunner.StartKeepsStaleIndex | automation.py:1288-1290 | As written, a start after a removal can keep an out-of-range queue index and stop at once with no effects; the corrected start clicks the first slot. |
| LegacyCodec.EncodeSlot | automation.py:1504-1505 | A point is written as `[x, y]` and an empty slot as null. |
| LegacyCodec.DecodeSlot | automation.py:1560-1562 | null or `[]` reads as an empty slot and `[x, y]` as a point; any other list fails to unpack. |
| LegacyCodec.SlotRoundTrip | automation.py:1504-1562 | Reading a written slot gives the slot back. |
| LegacyCodec.DecodeSlots | automation.py:1560-1562 | All slots are read, or the read fails exactly when one slot fails. |
| LegacyCodec.EncodeSlots | automation.py:1504-1505 | Every slot is written in place. |
| LegacyCodec.DecodeSet | automation.py:1558-1569 | Every field but texts is required. Missing texts become twenty empty strings; present texts are kept. |
| LegacyCodec.SetRoundTrip | automation.py:1501-1569 | Reading a written set gives the set back, every field included. |
| LegacyCodec.KeyStrings | automation.py:1502 | Each id is written under its decimal `str(id)` key. |
| LegacyCodec.EncodeSets | automation.py:1501-1512 | The 'sets' object has one `str(id)` key per set, in the sets' order, holding that set as written. |
| LegacyCodec.DecodeSets | automation.py:1550-1572 | The loading loop onto a cleared table; a failure is reported only when there was an entry to fail on. |
| LegacyCodec.DecodeSetsSucceedsIff | automation.py:1556-1569 | The loop reads the first n entries without failure exactly when each of them has a key that parses with `int()` and a set that reads. |
| LegacyCodec.DecodeSetsStep | automation.py:1556-1569 | Reading one more good entry adds its set under its id. |
| LegacyCodec.SetsRoundTrip | automation.py:1501-1569 | Reading back what was written for the sets gives exactly those sets, in their order. |
| LegacyCodec.DecodeWritten | automation.py:1501-1569 | Reading the first m entries of the written sets gives the first m sets, with no failure. |
| LegacyCodec.PrefixAll | automation.py:1550-1569 | Putting every set, in order, into a cleared table rebuilds exactly the original sets. |
| LegacyCodec.DecodePrefixAgree | automation.py:1556-1569 | Two documents whose first n keys and entries agree read the same first n entries. |
| LegacyCodec.SaveFile | automation.py:1489-1512 | The text boxes go into the active set first. Then every set, the active id, the id counter and the queue are written. Without an active set nothing is written and nothing changes. |
| LegacyCodec.OpenFile | automation.py:1545-1580 | Corrected open: a missing 'sets' leaves a cleared table and fails. On success the sets, active id, id counter, queue (empty if absent) and current file are replaced, and the playback state is kept. |
| LegacyCodec.OpenDecoded | automation.py:1556-1580 | A document whose sets all read opens into exactly those sets, its active id, id counter, queue (empty if absent) and path, with the playback state kept. |
| LegacyCodec.OpenFileAsWritten | automation.py:1545-1583 | As written: after a successful load, `switch_set` of the loaded active id stores the text boxes into that set. |
| LegacyCodec.SaveOpenRoundTrip | automation.py:1489-1580 | Opening what was saved, in any engine, restores the sets (contents and order), the active id, the id counter and the queue. The opening engine's playback state is kept. |
| LegacyCodec.OpenAsWrittenLosesTexts | automation.py:965-974 | As written, the opened active set's texts become the text boxes' contents, whereas the corrected open keeps the saved texts. |
| Text.ParseIntToString | automation.py:1557 | `int(str(id))` gives the id back, for every integer. |
| Text.IntToStringInjective | automation.py:1502 | Different ids get different `str(id)` keys. |

## Left out

I/O, callbacks and concurrency:
- Files, JSON text, dialogs and message boxes. Documents are already-parsed values. Save-as dialogs, `has_current_file`, `current_file` bookkeeping on save, and legacy `save_as_file` are not modelled.
- Tk widgets and the UI refresh in `switch_set`, `update_queue_ui` and the button configuration. The legacy `rename_set`, `toggle_click_type` and `rename_coordinate` only run behind widgets or dialogs and are not modelled.
- The view-model callbacks (`on_state_changed`, `on_ui_update`). Only the worker's final notification is an event.
- Threads, `time.sleep` and `root.after`:
  - The worker is a trace function.
  - Pause polling is folded into the `haltAt` input: a paused worker emits nothing until it stops or resumes.
  - A second worker started while one runs is not modelled.
  - Legacy scheduling is the `next` delay of a step. On a quick resume, `toggle_pause` can schedule a second chain of `process_queue` calls beside one already pending; that is not modelled.
- The keyboard and mouse libraries. Moves, clicks, writes and the mouse position are events and parameters.

Numbers and values:
- Float arithmetic. Delays are `real`. The legacy `int(delay*1000)` millisecond truncation, and overflow on huge delays, are not modelled. Legacy delay parsing is an uninterpreted function.
- Python's `int()` also accepts surrounding whitespace, `_` separators and non-ASCII digits. `Text.ParseInt` accepts only an optional `+` or `-` followed by ASCII digits, which covers every key `str(id)` writes.
- Dynamic typing of loaded documents. A value of the wrong JSON type, and a position that is an empty (falsy) dict, are not modelled: positions are `Option<Point>`.
- Python negative indexing (`coordinates[-1]`, `queue.pop(-1)`). `remove_from_queue` already rejects negative indices; the slot writers take a `nat` index.

Narrowed operations:
- AutomationViewModel.Worker: an exception is modelled at event granularity (`faultAt`), not inside a single library call.
- `get_queue` returns a copy of the queue. In a value model that is the queue itself, so it has no member of its own.
- The legacy `__init__` never sets `current_loop` or `current_coord`. The model starts them at 0, which every start overwrites anyway.
- LegacyEngine.RemoveFromQueue: models the code as written, which leaves `current_queue_index` alone even when the queue shrinks below it. The consequence is captured by Finding 2.
- The legacy `new_file`, outside the modelled paths, has the same text-box overwrite as Finding 3.
- Legacy `process_queue` on a stored loop count that is not an integer (only reachable through a hand-edited file) is not modelled: loop counts are `int`.

## Findings

| source | as written | input that shows it | evidently intended | confidence | as-written member | corrected member |
|---|---|---|---|---|---|---|
| models/automation_model.py:26-42 | The new name is "Set n" with n = number of sets + 1, stored without checking that the name is free. | Start with "Set 1"; add "Set 2"; rename "Set 1" to "Set 3"; add again: n = 3, so "Set 3" is overwritten with an empty set. | A new set gets a name not already in use, and no existing set is lost. | not executed | AutomationModel.AddNewSetAsWritten, AutomationModel.AddNewSetAsWrittenCollisionExample, AutomationModel.AddNewSetAsWrittenOverwrites | AutomationModel.AddNewSet |
| automation.py:1273-1306 | A start resets the loop and slot cursors but not `current_queue_index`. | Queue [1, 2], stopped while playing entry 2 (index 1); remove 2; start: index 1 is past the queue's end, so the first step raises and stops with nothing played. | A new start plays the queue from its head. | not executed | LegacyEngine.ToggleAutomationAsWritten, LegacyRunner.StartKeepsStaleIndex | LegacyEngine.ToggleAutomation, LegacyRunner.StartPlaysWholeQueue |
| automation.py:1575-1583 | After loading, `switch_set(self.active_set)` is called with the active id already set to the loaded one, so it stores the text boxes (still showing the previous set) into the loaded active set. | Save a file whose active set has texts ["a", …]; open it while the boxes show ["b", …]: the loaded set's texts are ["b", …]. | Opening a file keeps the texts it holds. | not executed | LegacyCodec.OpenFileAsWritten, LegacyCodec.OpenAsWrittenLosesTexts | LegacyCodec.OpenFile, LegacyCodec.SaveOpenRoundTrip |
