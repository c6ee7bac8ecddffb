/**
 * The state of the legacy single-window auto-clicker and the operations that
 * change it outside playback: integer-keyed sets of twenty parallel slot
 * lists, a queue of set ids that may repeat, the playback cursors, and the
 * flags for running, pausing, recording and re-capturing one slot.
 *
 * Dialogs and widgets are gone: a value read from an entry box is a
 * parameter (`None` when `int()` would raise), and so is the mouse
 * position. An exception that escapes an operation leaves the state as it
 * was when the exception was raised; every such place below says so.
 */
module LegacyEngine {

  import opened Wrappers
  import opened Text
  import Dicts

  /** Slots per set. */
  const Slots: nat := 20

  /** The delay text a new slot starts with, and the delay used when a delay text does not parse. */
  const DefaultDelayText: string := "0.5"
  const FallbackDelay: real := 0.5

  datatype Point = Point(x: int, y: int)

  /**
   * One set: the parallel slot lists, indexed by slot. `coordinates[i]` is
   * `None` for an empty slot.
   */
  datatype SetRecord = SetRecord(
    name: string,
    coordinates: seq<Option<Point>>,
    names: seq<string>,
    clicks: seq<string>,
    delays: seq<string>,
    order: seq<int>,
    loopCount: int,
    texts: seq<string>)

  datatype Engine = Engine(
    sets: Dicts.Dict<int, SetRecord>,
    currentSetId: int,
    activeSet: int,
    queue: seq<int>,
    queueIndex: nat,
    currentLoop: nat,
    currentCoord: nat,
    running: bool,
    paused: bool,
    recording: bool,
    updateMode: Option<nat>,
    currentFile: Option<string>)

  predicate Valid(e: Engine) {
    Dicts.Valid(e.sets)
  }

  /** Every slot list of `s` has one entry per slot. */
  predicate Shaped(s: SetRecord) {
    && |s.coordinates| == Slots && |s.names| == Slots && |s.clicks| == Slots
    && |s.delays| == Slots && |s.order| == Slots && |s.texts| == Slots
  }

  /** Every set id in use was handed out by `AddNewSet`: none is above `current_set_id`. */
  predicate IdsIssued(e: Engine) {
    forall id :: id in e.sets.items ==> id <= e.currentSetId
  }

  /** Every stored loop count is at least 1. */
  predicate LoopCountsPositive(e: Engine) {
    forall id :: id in e.sets.items ==> e.sets.items[id].loopCount >= 1
  }

  /** The slot caption "K i+1" of slot `i`. */
  function SlotName(i: nat): string {
    "K " + NatToString(i + 1)
  }

  /**
   * The record `add_new_set` and the constructor store under `id`: twenty
   * empty slots named "K 1" to "K 20", left clicks, delay text "0.5",
   * order 0 to 19, no texts, and one loop.
   */
  function NewSet(id: int): (s: SetRecord)
    ensures Shaped(s)
    ensures s.name == "Set " + IntToString(id) && s.loopCount == 1
    ensures forall i :: 0 <= i < Slots ==>
      && s.coordinates[i].None? && s.names[i] == SlotName(i) && s.clicks[i] == "left"
      && s.delays[i] == DefaultDelayText && s.order[i] == i && s.texts[i] == ""
  {
    SetRecord(
      "Set " + IntToString(id),
      seq(Slots, _ => None),
      seq(Slots, i requires 0 <= i => SlotName(i)),
      seq(Slots, _ => "left"),
      seq(Slots, _ => DefaultDelayText),
      seq(Slots, i => i),
      1,
      seq(Slots, _ => ""))
  }

  /** The constructor's state: set 1 only, active, nothing queued, every flag off. */
  function Initial(): (e: Engine)
    ensures Valid(e) && IdsIssued(e) && LoopCountsPositive(e)
    ensures e.sets.keys == [1] && e.sets.items == map[1 := NewSet(1)]
    ensures e.activeSet == 1 && e.currentSetId == 1 && e.queue == []
    ensures !e.running && !e.paused && !e.recording && e.updateMode.None?
  {
    Engine(Dicts.Put(Dicts.Empty(), 1, NewSet(1)), 1, 1, [], 0, 0, 0, false, false, false, None, None)
  }

  /** `add_new_set`: the next id, and a new set stored under it. */
  function AddNewSet(e: Engine): (e': Engine)
    requires Valid(e)
    ensures Valid(e')
    ensures e'.currentSetId == e.currentSetId + 1
    ensures e'.sets.items == e.sets.items[e'.currentSetId := NewSet(e'.currentSetId)]
    ensures e' == e.(sets := e'.sets, currentSetId := e'.currentSetId)
  {
    var id := e.currentSetId + 1;
    e.(sets := Dicts.Put(e.sets, id, NewSet(id)), currentSetId := id)
  }

  /**
   * While every id in use was issued by `AddNewSet`, a new set never lands on
   * an existing one: the set list grows by exactly the new id, and the ids
   * stay issued.
   */
  lemma AddNewSetIsFresh(e: Engine)
    requires Valid(e) && IdsIssued(e)
    ensures e.currentSetId + 1 !in e.sets.items
    ensures AddNewSet(e).sets.keys == e.sets.keys + [e.currentSetId + 1]
    ensures IdsIssued(AddNewSet(e))
    ensures LoopCountsPositive(e) ==> LoopCountsPositive(AddNewSet(e))
  {
  }

  /**
   * `save_loop_count`. `count` is the entry's value, `None` when it is not an
   * integer; that leaves everything as it was. A count below 1 is stored as 1.
   * Without an active set the assignment raises and nothing changes either.
   */
  function SaveLoopCount(e: Engine, count: Option<int>): (e': Engine)
    requires Valid(e)
    ensures Valid(e') && e'.sets.keys == e.sets.keys && e'.sets.items.Keys == e.sets.items.Keys
    ensures count.None? || e.activeSet !in e.sets.items ==> e' == e
    ensures count.Some? && e.activeSet in e.sets.items ==>
      && e'.sets.items[e.activeSet] == e.sets.items[e.activeSet].(loopCount := e'.sets.items[e.activeSet].loopCount)
      && e'.sets.items[e.activeSet].loopCount >= 1
      && (count.value >= 1 ==> e'.sets.items[e.activeSet].loopCount == count.value)
      && (count.value < 1 ==> e'.sets.items[e.activeSet].loopCount == 1)
    ensures forall id :: id in e.sets.items && id != e.activeSet ==> e'.sets.items[id] == e.sets.items[id]
    ensures e' == e.(sets := e'.sets)
  {
    if count.None? || e.activeSet !in e.sets.items then e
    else
      var n := if count.value < 1 then 1 else count.value;
      e.(sets := Dicts.Put(e.sets, e.activeSet, e.sets.items[e.activeSet].(loopCount := n)))
  }

  /** Saving a loop count keeps every stored loop count positive, and saving the same entry twice is saving it once. */
  lemma SaveLoopCountKeepsPositive(e: Engine, count: Option<int>)
    requires Valid(e) && LoopCountsPositive(e)
    ensures LoopCountsPositive(SaveLoopCount(e, count))
    ensures SaveLoopCount(SaveLoopCount(e, count), count) == SaveLoopCount(e, count)
  {
  }

  /** `toggle_automation`'s stop branch: both flags off, cursors and queue untouched. */
  function Stop(e: Engine): (e': Engine)
    ensures !e'.running && !e'.paused
    ensures e' == e.(running := false, paused := false)
  {
    e.(running := false, paused := false)
  }

  datatype Toggle = Started | Stopped | EmptyQueue | NoActiveSet

  /**
   * `toggle_automation` exactly as written. A running engine stops. A stopped
   * one refuses an empty queue (a warning); otherwise it stores the text
   * boxes `entries` into the active set (raising, and so changing nothing,
   * when there is no active set) and starts with the loop and slot cursors at
   * 0 — but with the queue index wherever the last run left it. On `Started`
   * the first playback step runs at once.
   */
  function ToggleAutomationAsWritten(e: Engine, entries: seq<string>): (res: (Engine, Toggle))
    requires Valid(e)
    ensures Valid(res.0)
    ensures e.running ==> res == (Stop(e), Stopped)
    ensures !e.running && e.queue == [] ==> res == (e, EmptyQueue)
    ensures !e.running && e.queue != [] && e.activeSet !in e.sets.items ==> res == (e, NoActiveSet)
    ensures res.1 == Started ==>
      && !e.running && e.queue != [] && e.activeSet in e.sets.items
      && res.0.sets.items == e.sets.items[e.activeSet := e.sets.items[e.activeSet].(texts := entries)]
      && res.0 == e.(sets := res.0.sets, running := true, paused := false, currentLoop := 0, currentCoord := 0)
  {
    if e.running then (Stop(e), Stopped)
    else if e.queue == [] then (e, EmptyQueue)
    else if e.activeSet !in e.sets.items then (e, NoActiveSet)
    else
      var sets := Dicts.Put(e.sets, e.activeSet, e.sets.items[e.activeSet].(texts := entries));
      (e.(sets := sets, running := true, paused := false, currentLoop := 0, currentCoord := 0), Started)
  }

  /**
   * `toggle_automation` with a new start also rewinding the queue index to
   * the head of the queue, as the cursor reset on a new start intends.
   */
  function ToggleAutomation(e: Engine, entries: seq<string>): (res: (Engine, Toggle))
    requires Valid(e)
    ensures Valid(res.0)
    ensures e.running ==> res == (Stop(e), Stopped)
    ensures !e.running && e.queue == [] ==> res == (e, EmptyQueue)
    ensures !e.running && e.queue != [] && e.activeSet !in e.sets.items ==> res == (e, NoActiveSet)
    ensures res.1 == Started ==>
      && !e.running && e.queue != [] && e.activeSet in e.sets.items
      && res.0.sets.items == e.sets.items[e.activeSet := e.sets.items[e.activeSet].(texts := entries)]
      && res.0 == e.(sets := res.0.sets, running := true, paused := false,
                     queueIndex := 0, currentLoop := 0, currentCoord := 0)
  {
    var (e', outcome) := ToggleAutomationAsWritten(e, entries);
    if outcome == Started then (e'.(queueIndex := 0), Started) else (e', outcome)
  }

  /** Starting and stopping again gives back every cursor and the queue; only the active set's texts change. */
  lemma StartStopRestoresCursors(e: Engine, entries: seq<string>)
    requires Valid(e) && !e.running
    ensures
      var (started, outcome) := ToggleAutomation(e, entries);
      var stopped := ToggleAutomation(started, entries).0;
      outcome == Started ==>
        && stopped.running == e.running && !stopped.paused
        && stopped.queue == e.queue && stopped.queueIndex == 0
        && stopped.sets.keys == e.sets.keys
  {
  }

  /**
   * `toggle_pause` (the definition at line 1427, the one in effect): nothing
   * unless running; otherwise `paused` flips and, on resume, a playback step
   * is scheduled (the second component).
   */
  function TogglePause(e: Engine): (res: (Engine, bool))
    ensures !e.running ==> res == (e, false)
    ensures e.running ==> res.0 == e.(paused := !e.paused) && res.1 == e.paused
  {
    if !e.running then (e, false) else (e.(paused := !e.paused), e.paused)
  }

  /** Two pauses in a row leave the engine as it was, and exactly one of them schedules a step when running. */
  lemma TogglePauseTwice(e: Engine)
    ensures TogglePause(TogglePause(e).0).0 == e
    ensures e.running ==> TogglePause(e).1 != TogglePause(TogglePause(e).0).1
  {
  }

  // ------------------------------------------------------------ queue

  /** `add_to_queue`: appends, repeats allowed. */
  function AddToQueue(e: Engine, id: int): (e': Engine)
    ensures e'.queue == e.queue + [id]
    ensures e' == e.(queue := e'.queue)
  {
    e.(queue := e.queue + [id])
  }

  /** The index of the first occurrence of `x` in `q`. */
  function IndexOf(q: seq<int>, x: int): (i: nat)
    requires x in q
    ensures i < |q| && q[i] == x && x !in q[..i]
  {
    if q[0] == x then 0 else assert x in q[1..]; 1 + IndexOf(q[1..], x)
  }

  /** `list.remove`: drops the first occurrence of `x`, or nothing when absent. */
  function RemoveFirst(q: seq<int>, x: int): (r: seq<int>)
    ensures x !in q ==> r == q
    ensures x in q ==> r == q[..IndexOf(q, x)] + q[IndexOf(q, x) + 1..]
    ensures multiset(r) == multiset(q) - multiset{x}
  {
    if x !in q then q
    else
      var i := IndexOf(q, x);
      assert q == q[..i] + [x] + q[i + 1..];
      q[..i] + q[i + 1..]
  }

  /**
   * `remove_from_queue`: drops the first occurrence of `id`. Automation is
   * stopped first only when it is running and `id` is the queue's head; the
   * queue index is left alone.
   */
  function RemoveFromQueue(e: Engine, id: int): (e': Engine)
    ensures id !in e.queue ==> e' == e
    ensures id in e.queue ==>
      && multiset(e'.queue) == multiset(e.queue) - multiset{id}
      && e'.queue == e.queue[..IndexOf(e.queue, id)] + e.queue[IndexOf(e.queue, id) + 1..]
      && e'.running == (e.running && e.queue[0] != id)
      && e'.paused == (e.paused && !(e.running && e.queue[0] == id))
      && e' == e.(queue := e'.queue, running := e'.running, paused := e'.paused)
  {
    if id !in e.queue then e
    else
      var e1 := if e.running && e.queue[0] == id then Stop(e) else e;
      e1.(queue := RemoveFirst(e.queue, id))
  }

  /** Removing an id just added to a queue that did not hold it gives the queue back, and on a non-empty queue the whole engine. */
  lemma RemoveUndoesAdd(e: Engine, id: int)
    requires id !in e.queue
    ensures RemoveFromQueue(AddToQueue(e, id), id).queue == e.queue
    ensures e.queue != [] ==> RemoveFromQueue(AddToQueue(e, id), id) == e
  {
    var q := e.queue + [id];
    assert forall j :: 0 <= j < |e.queue| ==> q[j] == e.queue[j];
    assert IndexOf(q, id) == |e.queue|;
    assert q[..|e.queue|] == e.queue;
  }

  /** `clear_queue`: stops a running automation, empties the queue and rewinds the index. */
  function ClearQueue(e: Engine): (e': Engine)
    ensures e'.queue == [] && e'.queueIndex == 0 && !e'.running
    ensures e.running ==> !e'.paused
    ensures !e.running ==> e'.paused == e.paused
    ensures e' == e.(queue := [], queueIndex := 0, running := false, paused := e'.paused)
  {
    var e1 := if e.running then Stop(e) else e;
    e1.(queue := [], queueIndex := 0)
  }

  /** Clearing an already cleared queue changes nothing more. */
  lemma ClearQueueIdempotent(e: Engine)
    ensures ClearQueue(ClearQueue(e)) == ClearQueue(e)
  {
  }

  /** A start right after clearing is refused: the queue is empty, so nothing starts. */
  lemma ClearedQueueRefusesStart(e: Engine, entries: seq<string>)
    requires Valid(e)
    ensures ToggleAutomation(ClearQueue(e), entries) == (ClearQueue(e), EmptyQueue)
  {
  }

  // -------------------------------------------------------- recording

  /** `toggle_coordinate_mode`: flips recording mode. */
  function ToggleRecording(e: Engine): (e': Engine)
    ensures e'.recording != e.recording
    ensures e' == e.(recording := e'.recording)
  {
    e.(recording := !e.recording)
  }

  /** Switching recording mode on and off again gives back the engine. */
  lemma ToggleRecordingTwice(e: Engine)
    ensures ToggleRecording(ToggleRecording(e)) == e
  {
  }

  /** The number of filled slots. */
  function Filled(cs: seq<Option<Point>>): nat {
    if cs == [] then 0 else (if cs[0].Some? then 1 else 0) + Filled(cs[1..])
  }

  /** The first empty slot, if any. */
  function FirstEmpty(cs: seq<Option<Point>>): (r: Option<nat>)
    ensures r.None? <==> forall i :: 0 <= i < |cs| ==> cs[i].Some?
    ensures r.Some? ==> r.value < |cs| && cs[r.value].None? && forall i :: 0 <= i < r.value ==> cs[i].Some?
  {
    if cs == [] then None
    else if cs[0].None? then Some(0)
    else
      var r := FirstEmpty(cs[1..]);
      if r.None? then None else Some(r.value + 1)
  }

  /** Writing a point into an empty slot fills one more slot. */
  lemma {:induction false} FillOne(cs: seq<Option<Point>>, i: nat, p: Point)
    requires i < |cs| && cs[i].None?
    ensures Filled(cs[i := Some(p)]) == Filled(cs) + 1
  {
    if i > 0 {
      assert cs[i := Some(p)][1..] == cs[1..][i - 1 := Some(p)];
      FillOne(cs[1..], i - 1, p);
    }
  }

  /**
   * `on_coordinate_click`: in recording mode, the mouse position `p` goes
   * into the active set's first empty slot. Outside recording mode, with
   * every slot filled, or without an active set (the lookup raises) nothing
   * changes.
   */
  function OnCoordinateClick(e: Engine, p: Point): (e': Engine)
    requires Valid(e)
    ensures Valid(e') && e'.sets.keys == e.sets.keys && e' == e.(sets := e'.sets)
    ensures !e.recording || e.activeSet !in e.sets.items ==> e' == e
    ensures e.recording && e.activeSet in e.sets.items ==>
      var cs := e.sets.items[e.activeSet].coordinates;
      match FirstEmpty(cs)
      case None => e' == e
      case Some(i) =>
        && e'.sets.items == e.sets.items[e.activeSet := e.sets.items[e.activeSet].(coordinates := cs[i := Some(p)])]
        && Filled(e'.sets.items[e.activeSet].coordinates) == Filled(cs) + 1
  {
    if !e.recording || e.activeSet !in e.sets.items then e
    else
      var s := e.sets.items[e.activeSet];
      match FirstEmpty(s.coordinates)
      case None => e
      case Some(i) =>
        FillOne(s.coordinates, i, p);
        e.(sets := Dicts.Put(e.sets, e.activeSet, s.(coordinates := s.coordinates[i := Some(p)])))
  }

  /**
   * Recording fills slots front to back: after capturing into a set whose
   * filled slots are exactly the first `k`, the filled slots are the first
   * `k + 1` (unless all were full).
   */
  lemma RecordingFillsInOrder(e: Engine, p: Point, k: nat)
    requires Valid(e) && e.recording && e.activeSet in e.sets.items
    requires var cs := e.sets.items[e.activeSet].coordinates;
      k < |cs| && forall i :: 0 <= i < |cs| ==> (cs[i].Some? <==> i < k)
    ensures var cs' := OnCoordinateClick(e, p).sets.items[e.activeSet].coordinates;
      |cs'| == |e.sets.items[e.activeSet].coordinates| && cs'[k] == Some(p)
      && forall i :: 0 <= i < |cs'| ==> (cs'[i].Some? <==> i <= k)
  {
    var cs := e.sets.items[e.activeSet].coordinates;
    var r := FirstEmpty(cs);
    assert cs[k].None?;
    assert r == Some(k);
  }

  /**
   * `update_coordinate`: pressing slot `i`'s update button arms re-capture
   * for that slot, or disarms it when it was already armed for `i`.
   */
  function ToggleUpdateMode(e: Engine, i: nat): (e': Engine)
    ensures e.updateMode == Some(i) ==> e'.updateMode.None?
    ensures e.updateMode != Some(i) ==> e'.updateMode == Some(i)
    ensures e' == e.(updateMode := e'.updateMode)
  {
    if e.updateMode == Some(i) then e.(updateMode := None) else e.(updateMode := Some(i))
  }

  /**
   * `save_updated_coordinate`: while re-capture is armed, slot `i` of the
   * active set becomes `p` and re-capture is disarmed. When not armed nothing
   * happens; a missing active set or a slot past the end raises before any
   * change, so the state (re-capture included) stays as it was.
   */
  function SaveUpdatedCoordinate(e: Engine, i: nat, p: Point): (e': Engine)
    requires Valid(e)
    ensures Valid(e') && e'.sets.keys == e.sets.keys
    ensures (|| e.updateMode.None? || e.activeSet !in e.sets.items
             || i >= |e.sets.items[e.activeSet].coordinates|) ==> e' == e
    ensures e.updateMode.Some? && e.activeSet in e.sets.items && i < |e.sets.items[e.activeSet].coordinates| ==>
      var s := e.sets.items[e.activeSet];
      && e'.sets.items == e.sets.items[e.activeSet := s.(coordinates := s.coordinates[i := Some(p)])]
      && e' == e.(sets := e'.sets, updateMode := None)
  {
    if e.updateMode.None? || e.activeSet !in e.sets.items then e
    else
      var s := e.sets.items[e.activeSet];
      if i >= |s.coordinates| then e
      else e.(sets := Dicts.Put(e.sets, e.activeSet, s.(coordinates := s.coordinates[i := Some(p)])), updateMode := None)
  }

  /** Re-capturing a slot twice keeps only the second point, whichever slot was there before. */
  lemma RecaptureOverwrites(e: Engine, i: nat, p: Point, q: Point)
    requires Valid(e) && e.activeSet in e.sets.items && i < |e.sets.items[e.activeSet].coordinates|
    requires e.updateMode == Some(i)
    ensures
      var once := SaveUpdatedCoordinate(e, i, p);
      var twice := SaveUpdatedCoordinate(ToggleUpdateMode(once, i), i, q);
      twice == SaveUpdatedCoordinate(e, i, q)
  {
    var s := e.sets.items[e.activeSet];
    assert s.coordinates[i := Some(p)][i := Some(q)] == s.coordinates[i := Some(q)];
  }

  /** Operations that only edit one set keep every set shaped. */
  lemma EditsKeepShape(e: Engine, count: Option<int>, p: Point, i: nat)
    requires Valid(e) && AllShaped(e)
    ensures AllShaped(SaveLoopCount(e, count))
    ensures AllShaped(OnCoordinateClick(e, p))
    ensures AllShaped(SaveUpdatedCoordinate(e, i, p))
  {
    LoopCountKeepsShape(e, count);
    ClickKeepsShape(e, p);
    UpdateKeepsShape(e, i, p);
  }

  /** Every set of the engine has all its slot lists. */
  predicate AllShaped(e: Engine) {
    forall id :: id in e.sets.items ==> Shaped(e.sets.items[id])
  }

  lemma LoopCountKeepsShape(e: Engine, count: Option<int>)
    requires Valid(e) && AllShaped(e)
    ensures AllShaped(SaveLoopCount(e, count))
  {
  }

  lemma ClickKeepsShape(e: Engine, p: Point)
    requires Valid(e) && AllShaped(e)
    ensures AllShaped(OnCoordinateClick(e, p))
  {
  }

  lemma UpdateKeepsShape(e: Engine, i: nat, p: Point)
    requires Valid(e) && AllShaped(e)
    ensures AllShaped(SaveUpdatedCoordinate(e, i, p))
  {
  }
}
