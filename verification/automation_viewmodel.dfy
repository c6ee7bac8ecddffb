/**
 * The MVVM runner: the three flags of the view model, the operations that
 * flip them, and the playback worker as a pure function from the queue
 * snapshot to the trace of effects it emits.
 *
 * The worker's thread, its sleeps and the mouse/keyboard calls become trace
 * events. The only thing the worker learns from outside while it runs is the
 * flag state at each per-record check; since it returns at the first check
 * that finds `is_running` false, that environment is one number, `haltAt`:
 * the index of that check. An exception raised by anything the worker calls
 * is the other input, `faultAt`: the number of events emitted before it.
 * `time.sleep` itself raises on a negative delay, so the first `Wait` of a
 * negative number of seconds is a fault the worker always meets.
 */
module AutomationViewModel {

  import opened Wrappers
  import Dicts
  import opened AutomationModel
  import opened PlaybackOrder

  datatype Flags = Flags(running: bool, paused: bool, coordinateMode: bool)

  datatype ViewModel = ViewModel(model: Registry, flags: Flags)

  /** The view model as constructed: the initial registry and all flags false. */
  function Initial(): (vm: ViewModel)
    ensures Valid(vm.model) && vm.model == AutomationModel.Initial()
    ensures vm.flags == Flags(false, false, false)
  {
    ViewModel(AutomationModel.Initial(), Flags(false, false, false))
  }

  // ------------------------------------------------------------ flags

  /**
   * `toggle_automation`: flips `is_running`, always clears `is_paused`, and
   * returns the new `is_running`. When it returns true the worker is started
   * on the resulting view model (`Worker` below).
   */
  function ToggleAutomation(vm: ViewModel): (res: (ViewModel, bool))
    ensures res.1 == !vm.flags.running
    ensures res.0.flags == Flags(res.1, false, vm.flags.coordinateMode)
    ensures res.0.model == vm.model
  {
    var running := !vm.flags.running;
    (vm.(flags := vm.flags.(running := running, paused := false)), running)
  }

  /**
   * `toggle_pause`: flips `is_paused` only while running, otherwise changes
   * nothing; returns the resulting `is_paused`.
   */
  function TogglePause(vm: ViewModel): (res: (ViewModel, bool))
    ensures vm.flags.running ==> res.0 == vm.(flags := vm.flags.(paused := !vm.flags.paused))
    ensures !vm.flags.running ==> res.0 == vm
    ensures res.1 == res.0.flags.paused
  {
    if vm.flags.running then
      var vm' := vm.(flags := vm.flags.(paused := !vm.flags.paused));
      (vm', vm'.flags.paused)
    else (vm, vm.flags.paused)
  }

  /** Starting and then stopping (or the reverse) gives back the view model with the pause cleared. */
  lemma ToggleAutomationTwice(vm: ViewModel)
    ensures ToggleAutomation(ToggleAutomation(vm).0).0 == vm.(flags := vm.flags.(paused := false))
    ensures ToggleAutomation(vm).1 != ToggleAutomation(ToggleAutomation(vm).0).1
  {
  }

  /** Two pauses in a row give back the flags one started with. */
  lemma TogglePauseTwice(vm: ViewModel)
    ensures TogglePause(TogglePause(vm).0).0 == vm
  {
  }

  /** `handle_pause_key`: the P key toggles the pause only while running and reports whether it did. */
  function HandlePauseKey(vm: ViewModel): (res: (ViewModel, bool))
    ensures res.1 == vm.flags.running
    ensures res.1 ==> res.0 == vm.(flags := vm.flags.(paused := !vm.flags.paused))
    ensures !res.1 ==> res.0 == vm
  {
    if vm.flags.running then (TogglePause(vm).0, true) else (vm, false)
  }

  /** The P key does exactly what `toggle_pause` does, whether or not automation is running. */
  lemma PauseKeyIsTogglePause(vm: ViewModel)
    ensures HandlePauseKey(vm).0 == TogglePause(vm).0
    ensures HandlePauseKey(HandlePauseKey(vm).0).0 == vm
  {
  }

  /** `toggle_coordinate_mode`: flips the recording flag and returns it. */
  function ToggleCoordinateMode(vm: ViewModel): (res: (ViewModel, bool))
    ensures res.1 == !vm.flags.coordinateMode
    ensures res.0 == vm.(flags := vm.flags.(coordinateMode := res.1))
  {
    (vm.(flags := vm.flags.(coordinateMode := !vm.flags.coordinateMode)), !vm.flags.coordinateMode)
  }

  /** Recording mode switched on and off again leaves the view model as it was. */
  lemma ToggleCoordinateModeTwice(vm: ViewModel)
    ensures ToggleCoordinateMode(ToggleCoordinateMode(vm).0).0 == vm
    ensures ToggleCoordinateMode(ToggleCoordinateMode(vm).0).1 == vm.flags.coordinateMode
  {
  }

  /**
   * The view model's `add_to_queue`: offers the active set to the model's
   * de-duplicating queue and returns its name whether or not the model
   * accepted it; without an active set it returns `None` and changes nothing.
   */
  function AddToQueue(vm: ViewModel): (res: (ViewModel, Option<string>))
    requires Valid(vm.model)
    ensures Valid(res.0.model) && res.0.flags == vm.flags
    ensures HasActive(vm.model) ==>
      && res.1 == vm.model.active
      && res.0.model == AutomationModel.AddToQueue(vm.model, vm.model.active.value).0
    ensures !HasActive(vm.model) ==> res == (vm, None)
  {
    if HasActive(vm.model) then
      (vm.(model := AutomationModel.AddToQueue(vm.model, vm.model.active.value).0), vm.model.active)
    else (vm, None)
  }

  /**
   * `new_file`: exactly one set, "Set 1", which is active and empty; an empty
   * queue, no current file, and all three flags false.
   */
  function NewFile(vm: ViewModel): (vm': ViewModel)
    ensures Valid(vm'.model)
    ensures vm'.model.sets.keys == [SetName(1)]
    ensures vm'.model.sets.items == map[SetName(1) := SetData(1, [])]
    ensures vm'.model.active == Some(SetName(1))
    ensures vm'.model.queue == [] && vm'.model.currentFile.None?
    ensures vm'.flags == Flags(false, false, false)
  {
    ViewModel(AddNewSet(Reset(vm.model)).0, Flags(false, false, false))
  }

  // ---------------------------------------------------------- playback

  /**
   * What the worker does, in order. `Activate` is its write of the model's
   * active set; `Check` is the pause/stop check made before each record;
   * `Notify` is the final state-changed callback.
   */
  datatype Event =
    | Activate(name: string)
    | Check
    | Move(to: Point)
    | Wait(seconds: real)
    | LeftClick
    | RightClick
    | DoubleClick
    | Write(text: string)
    | Notify(paused: bool)

  /** Mouse and keyboard effects, as opposed to bookkeeping. */
  predicate IsEffect(e: Event) {
    e.Move? || e.LeftClick? || e.RightClick? || e.DoubleClick? || e.Write?
  }

  /** The click for a click type: one click for 'left', 'right' or 'double', none otherwise. */
  function ClickEvents(clickType: string): (r: seq<Event>)
    ensures |r| <= 1
    ensures |r| == 1 <==> clickType == "left" || clickType == "right" || clickType == "double"
    ensures forall i :: 0 <= i < |r| ==> r[i].LeftClick? || r[i].RightClick? || r[i].DoubleClick?
    ensures clickType == "left" ==> r == [LeftClick]
    ensures clickType == "right" ==> r == [RightClick]
    ensures clickType == "double" ==> r == [DoubleClick]
  {
    if clickType == "left" then [LeftClick]
    else if clickType == "right" then [RightClick]
    else if clickType == "double" then [DoubleClick]
    else []
  }

  /**
   * The events of one record after its check: nothing for a record without a
   * position; otherwise move, wait(delay), the click, the text when there is
   * any, and wait(delay) again.
   */
  function RecordEvents(c: Coordinate): (r: seq<Event>)
    ensures c.position.None? ==> r == []
    ensures c.position.Some? ==>
      && 3 <= |r| <= 5
      && r[0] == Move(c.position.value) && r[1] == Wait(c.delay) && r[|r| - 1] == Wait(c.delay)
      && r[2..|r| - 1] == ClickEvents(c.clickType) + (if c.text != "" then [Write(c.text)] else [])
  {
    match c.position
    case None => []
    case Some(p) =>
      [Move(p), Wait(c.delay)] + ClickEvents(c.clickType)
      + (if c.text != "" then [Write(c.text)] else []) + [Wait(c.delay)]
  }

  /** One pass over records already in playback order: a check before each record, then its events. */
  function PassEvents(cs: seq<Coordinate>): seq<Event> {
    if cs == [] then [] else [Check] + RecordEvents(cs[0]) + PassEvents(cs[1..])
  }

  /** `n` copies of `s` (none when `n` is not positive, as `range(n)` gives). */
  function Repeat(s: seq<Event>, n: int): seq<Event>
    decreases n
  {
    if n <= 0 then [] else s + Repeat(s, n - 1)
  }

  /**
   * The events of the set the worker found active: nothing without set data
   * or with an empty coordinate list; otherwise `loop_count` passes over the
   * records sorted by `order`.
   */
  function SetEvents(data: Option<SetData>): seq<Event> {
    if data.None? || data.value.coordinates == [] then []
    else Repeat(PassEvents(SortByOrder(data.value.coordinates)), data.value.loopCount)
  }

  /** `get_active_set_data`: the active set's data, if the active name is truthy and known. */
  function ActiveData(sets: Dicts.Dict<string, SetData>, active: Option<string>): Option<SetData> {
    if active.Some? && active.value != "" && active.value in sets.items then Some(sets.items[active.value])
    else None
  }

  /**
   * The uninterrupted worker over `names`: each name that exists becomes the
   * active set; a missing name leaves the active set alone, and that set's
   * data is played in its place.
   */
  function Playback(sets: Dicts.Dict<string, SetData>, active: Option<string>, names: seq<string>): seq<Event>
    decreases |names|
  {
    if names == [] then []
    else
      var known := names[0] in sets.items;
      var active' := if known then Some(names[0]) else active;
      (if known then [Activate(names[0])] else []) + SetEvents(ActiveData(sets, active'))
      + Playback(sets, active', names[1..])
  }

  function CheckCount(t: seq<Event>): nat {
    if t == [] then 0 else (if t[0].Check? then 1 else 0) + CheckCount(t[1..])
  }

  lemma {:induction false} CheckCountPrefix(t: seq<Event>, j: nat)
    requires j <= |t|
    ensures CheckCount(t[..j]) <= CheckCount(t)
  {
    if j > 0 {
      assert t[..j][1..] == t[1..][..j - 1];
      CheckCountPrefix(t[1..], j - 1);
    }
  }

  /**
   * The events the worker emits when the check with index `k` (counting from
   * 0) is the first to find `is_running` false: everything before that check.
   */
  function UpToCheck(t: seq<Event>, k: nat): (r: seq<Event>)
    ensures |r| <= |t| && r == t[..|r|]
    ensures CheckCount(r) == if k < CheckCount(t) then k else CheckCount(t)
    ensures |r| < |t| ==> t[|r|].Check? && k < CheckCount(t)
    ensures |r| == |t| ==> CheckCount(t) <= k
  {
    if t == [] then []
    else if t[0].Check? then
      if k == 0 then [] else [t[0]] + UpToCheck(t[1..], k - 1)
    else [t[0]] + UpToCheck(t[1..], k)
  }

  /** The active set after the events `t`: the last one activated, or `active` if none was. */
  function ActiveAfter(active: Option<string>, t: seq<Event>): Option<string>
    decreases |t|
  {
    if t == [] then active else ActiveAfter(if t[0].Activate? then Some(t[0].name) else active, t[1..])
  }

  /** How the worker ended. */
  datatype Ending = QueueEmpty | Completed | Stopped | Failed

  /**
   * The part of the uninterrupted trace `full` the worker gets through: up to
   * check `haltAt`, or the first `faultAt` events if the fault comes first.
   */
  function Interrupt(full: seq<Event>, haltAt: nat, faultAt: Option<nat>): (res: (seq<Event>, Ending))
    ensures res.1 != QueueEmpty
    ensures |res.0| <= |full| && res.0 == full[..|res.0|]
    ensures CheckCount(res.0) <= haltAt
    ensures res.1 == Completed ==> res.0 == full && CheckCount(full) <= haltAt
    ensures res.1 == Stopped ==> |res.0| < |full| && CheckCount(res.0) == haltAt && full[|res.0|].Check?
    ensures res.1 == Failed ==> faultAt.Some? && |res.0| == faultAt.value
    ensures res.1 == Failed <==> faultAt.Some? && faultAt.value < |UpToCheck(full, haltAt)|
    ensures res.1 == Completed <==>
      !(faultAt.Some? && faultAt.value < |UpToCheck(full, haltAt)|) && |UpToCheck(full, haltAt)| == |full|
    ensures res.1 == Stopped <==>
      !(faultAt.Some? && faultAt.value < |UpToCheck(full, haltAt)|) && |UpToCheck(full, haltAt)| < |full|
    ensures res.1 != Failed ==> res.0 == UpToCheck(full, haltAt)
  {
    var halted := UpToCheck(full, haltAt);
    if faultAt.Some? && faultAt.value < |halted| then
      var body := halted[..faultAt.value];
      CheckCountPrefix(halted, |body|);
      assert full[..|body|] == body;
      (body, Failed)
    else if |halted| < |full| then (halted, Stopped)
    else (halted, Completed)
  }

  /** A sleep `time.sleep` refuses: a negative number of seconds. */
  predicate BadWait(e: Event) {
    e.Wait? && e.seconds < 0.0
  }

  /** The index of the first negative sleep in `t`, if there is one. */
  function FirstBadWait(t: seq<Event>): (r: Option<nat>)
    ensures r.None? <==> forall i :: 0 <= i < |t| ==> !BadWait(t[i])
    ensures r.Some? ==> r.value < |t| && BadWait(t[r.value]) && forall i :: 0 <= i < r.value ==> !BadWait(t[i])
  {
    if t == [] then None
    else if BadWait(t[0]) then Some(0)
    else
      var r := FirstBadWait(t[1..]);
      assert forall i :: 1 <= i < |t| ==> t[i] == t[1..][i - 1];
      if r.None? then None else Some(r.value + 1)
  }

  /** The earlier of two possible fault positions. */
  function EarlierFault(a: Option<nat>, b: Option<nat>): (r: Option<nat>)
    ensures r.None? <==> a.None? && b.None?
    ensures r.Some? ==> (a == Some(r.value) || b == Some(r.value))
    ensures r.Some? && a.Some? ==> r.value <= a.value
    ensures r.Some? && b.Some? ==> r.value <= b.value
  {
    if a.None? then b
    else if b.None? then a
    else if a.value <= b.value then a
    else b
  }

  datatype WorkerRun = WorkerRun(events: seq<Event>, ending: Ending, vm: ViewModel)

  /**
   * `_process_queue_worker`. An empty queue ends at once. Otherwise the events
   * are those of `Playback` over the queue snapshot, cut short before check
   * `haltAt` (the first to find `is_running` false) or after `faultAt` events
   * (an exception), or at the first negative sleep (which raises), whichever
   * comes first. However it ends, `is_running` and
   * `is_paused` are cleared and `Notify(false)` is the last event.
   */
  function Worker(vm: ViewModel, haltAt: nat, faultAt: Option<nat>): (w: WorkerRun)
    requires Valid(vm.model)
    ensures Valid(w.vm.model)
    ensures w.vm.flags == Flags(false, false, vm.flags.coordinateMode)
    ensures |w.events| >= 1 && w.events[|w.events| - 1] == Notify(false)
    ensures w.vm.model == vm.model.(active := w.vm.model.active)
    ensures w.ending == QueueEmpty <==> vm.model.queue == []
    ensures w.ending == QueueEmpty ==> w.events == [Notify(false)] && w.vm.model == vm.model
    ensures w.ending != QueueEmpty ==>
      var full := Playback(vm.model.sets, vm.model.active, vm.model.queue);
      var cut := Interrupt(full, haltAt, EarlierFault(faultAt, FirstBadWait(full)));
      && w.events == cut.0 + [Notify(false)]
      && w.ending == cut.1
      && w.vm.model.active == ActiveAfter(vm.model.active, cut.0)
  {
    var stopped := vm.flags.(running := false, paused := false);
    if vm.model.queue == [] then WorkerRun([Notify(false)], QueueEmpty, vm.(flags := stopped))
    else
      var full := Playback(vm.model.sets, vm.model.active, vm.model.queue);
      var cut := Interrupt(full, haltAt, EarlierFault(faultAt, FirstBadWait(full)));
      var body := cut.0;
      PlaybackActivatesKnown(vm.model.sets, vm.model.active, vm.model.queue);
      assert ActivatesKnown(body, vm.model.sets) by {
        forall i | 0 <= i < |body| && body[i].Activate?
          ensures body[i].name in vm.model.sets.items
        {
          assert body[i] == full[i];
        }
      }
      ActiveAfterKnown(vm.model, body);
      WorkerRun(body + [Notify(false)], cut.1, ViewModel(vm.model.(active := ActiveAfter(vm.model.active, body)), stopped))
  }

  /** Every activation in `t` names a set of `sets`. */
  predicate ActivatesKnown(t: seq<Event>, sets: Dicts.Dict<string, SetData>) {
    forall i :: 0 <= i < |t| && t[i].Activate? ==> t[i].name in sets.items
  }

  /** No event of `t` activates a set. */
  predicate NoActivation(t: seq<Event>) {
    forall i :: 0 <= i < |t| ==> !t[i].Activate?
  }

  lemma NoActivationAppend(a: seq<Event>, b: seq<Event>)
    requires NoActivation(a) && NoActivation(b)
    ensures NoActivation(a + b)
  {
  }

  lemma {:induction false} PassHasNoActivation(cs: seq<Coordinate>)
    ensures NoActivation(PassEvents(cs))
  {
    if cs != [] {
      PassHasNoActivation(cs[1..]);
      NoActivationAppend([Check], RecordEvents(cs[0]));
      NoActivationAppend([Check] + RecordEvents(cs[0]), PassEvents(cs[1..]));
    }
  }

  lemma {:induction false} RepeatHasNoActivation(s: seq<Event>, n: int)
    requires NoActivation(s)
    ensures NoActivation(Repeat(s, n))
    decreases n
  {
    if n > 0 {
      RepeatHasNoActivation(s, n - 1);
      NoActivationAppend(s, Repeat(s, n - 1));
    }
  }

  lemma SetEventsHaveNoActivation(data: Option<SetData>)
    ensures NoActivation(SetEvents(data))
  {
    if data.Some? && data.value.coordinates != [] {
      var pass := PassEvents(SortByOrder(data.value.coordinates));
      PassHasNoActivation(SortByOrder(data.value.coordinates));
      RepeatHasNoActivation(pass, data.value.loopCount);
    }
  }

  /** The worker only ever activates sets that exist. */
  lemma {:induction false} PlaybackActivatesKnown(sets: Dicts.Dict<string, SetData>, active: Option<string>, names: seq<string>)
    ensures ActivatesKnown(Playback(sets, active, names), sets)
    decreases |names|
  {
    if names != [] {
      var known := names[0] in sets.items;
      var active' := if known then Some(names[0]) else active;
      SetEventsHaveNoActivation(ActiveData(sets, active'));
      PlaybackActivatesKnown(sets, active', names[1..]);
    }
  }

  /** Activation events name only existing sets, so the active set stays one that exists. */
  lemma {:induction false} ActiveAfterKnown(m: Registry, t: seq<Event>)
    requires Valid(m)
    requires ActivatesKnown(t, m.sets)
    ensures Valid(m.(active := ActiveAfter(m.active, t)))
    decreases |t|
  {
    if t != [] {
      var m' := m.(active := if t[0].Activate? then Some(t[0].name) else m.active);
      assert ActivatesKnown(t[1..], m'.sets) by {
        forall i | 0 <= i < |t[1..]| && t[1..][i].Activate?
          ensures t[1..][i].name in m'.sets.items
        {
          assert t[1..][i] == t[i + 1];
        }
      }
      ActiveAfterKnown(m', t[1..]);
    }
  }

  // ------------------------------------------------------------ counts

  lemma {:induction false} CheckCountAppend(a: seq<Event>, b: seq<Event>)
    ensures CheckCount(a + b) == CheckCount(a) + CheckCount(b)
  {
    if a != [] {
      assert (a + b)[1..] == a[1..] + b;
      CheckCountAppend(a[1..], b);
    } else {
      assert a + b == b;
    }
  }

  /** The number of clicks, of any kind, in `t`. */
  function ClickCount(t: seq<Event>): nat {
    if t == [] then 0
    else (if t[0].LeftClick? || t[0].RightClick? || t[0].DoubleClick? then 1 else 0) + ClickCount(t[1..])
  }

  lemma {:induction false} ClickCountAppend(a: seq<Event>, b: seq<Event>)
    ensures ClickCount(a + b) == ClickCount(a) + ClickCount(b)
  {
    if a != [] {
      assert (a + b)[1..] == a[1..] + b;
      ClickCountAppend(a[1..], b);
    } else {
      assert a + b == b;
    }
  }

  /** Whether playing `c` clicks: it has a position and a known click type. */
  predicate Clicks(c: Coordinate) {
    c.position.Some? && (c.clickType == "left" || c.clickType == "right" || c.clickType == "double")
  }

  /** The number of records of `cs` that click. */
  function Clicking(cs: seq<Coordinate>): nat {
    if cs == [] then 0 else (if Clicks(cs[0]) then 1 else 0) + Clicking(cs[1..])
  }

  /** A record's own events hold no check, and one click exactly when it clicks. */
  lemma RecordCounts(c: Coordinate)
    ensures CheckCount(RecordEvents(c)) == 0
    ensures ClickCount(RecordEvents(c)) == if Clicks(c) then 1 else 0
  {
    if c.position.Some? {
      var p := c.position.value;
      var click := ClickEvents(c.clickType);
      var text: seq<Event> := if c.text != "" then [Write(c.text)] else [];
      assert RecordEvents(c) == [Move(p), Wait(c.delay)] + click + text + [Wait(c.delay)];
      CheckCountAppend([Move(p), Wait(c.delay)] + click + text, [Wait(c.delay)]);
      CheckCountAppend([Move(p), Wait(c.delay)] + click, text);
      CheckCountAppend([Move(p), Wait(c.delay)], click);
      ClickCountAppend([Move(p), Wait(c.delay)] + click + text, [Wait(c.delay)]);
      ClickCountAppend([Move(p), Wait(c.delay)] + click, text);
      ClickCountAppend([Move(p), Wait(c.delay)], click);
    }
  }

  /** A pass makes one check per record and one click per record that clicks. */
  lemma {:induction false} PassCounts(cs: seq<Coordinate>)
    ensures CheckCount(PassEvents(cs)) == |cs|
    ensures ClickCount(PassEvents(cs)) == Clicking(cs)
  {
    if cs != [] {
      RecordCounts(cs[0]);
      PassCounts(cs[1..]);
      CheckCountAppend([Check] + RecordEvents(cs[0]), PassEvents(cs[1..]));
      CheckCountAppend([Check], RecordEvents(cs[0]));
      ClickCountAppend([Check] + RecordEvents(cs[0]), PassEvents(cs[1..]));
      ClickCountAppend([Check], RecordEvents(cs[0]));
    }
  }

  lemma {:induction false} RepeatCounts(s: seq<Event>, n: int)
    ensures CheckCount(Repeat(s, n)) == (if n <= 0 then 0 else n * CheckCount(s))
    ensures ClickCount(Repeat(s, n)) == (if n <= 0 then 0 else n * ClickCount(s))
    decreases n
  {
    if n > 0 {
      RepeatCounts(s, n - 1);
      CheckCountAppend(s, Repeat(s, n - 1));
      ClickCountAppend(s, Repeat(s, n - 1));
    }
  }

  lemma {:induction false} ClickingInsert(c: Coordinate, sorted: seq<Coordinate>)
    requires SortedByOrder(sorted)
    ensures Clicking(Insert(c, sorted)) == (if Clicks(c) then 1 else 0) + Clicking(sorted)
  {
    if sorted == [] || c.order <= sorted[0].order {
      assert ([c] + sorted)[1..] == sorted;
    } else {
      var rest := Insert(c, sorted[1..]);
      assert Insert(c, sorted) == [sorted[0]] + rest;
      assert ([sorted[0]] + rest)[1..] == rest;
      ClickingInsert(c, sorted[1..]);
    }
  }

  /** Sorting by `order` neither adds nor drops a clicking record. */
  lemma {:induction false} ClickingSorted(cs: seq<Coordinate>)
    ensures Clicking(SortByOrder(cs)) == Clicking(cs)
  {
    if cs != [] {
      ClickingSorted(cs[1..]);
      ClickingInsert(cs[0], SortByOrder(cs[1..]));
    }
  }

  /**
   * With a positive loop count, a set makes `loop_count` checks per record
   * and clicks every clicking record `loop_count` times; otherwise it plays
   * nothing at all.
   */
  lemma SetEventsCounts(data: SetData)
    ensures CheckCount(SetEvents(Some(data))) == (if data.loopCount <= 0 then 0 else data.loopCount * |data.coordinates|)
    ensures ClickCount(SetEvents(Some(data))) == (if data.loopCount <= 0 then 0 else data.loopCount * Clicking(data.coordinates))
  {
    if data.coordinates != [] {
      var sorted := SortByOrder(data.coordinates);
      PassCounts(sorted);
      ClickingSorted(data.coordinates);
      RepeatCounts(PassEvents(sorted), data.loopCount);
    }
  }

  // ------------------------------------------------------ active set

  lemma {:induction false} ActiveAfterAppend(active: Option<string>, a: seq<Event>, b: seq<Event>)
    ensures ActiveAfter(active, a + b) == ActiveAfter(ActiveAfter(active, a), b)
    decreases |a|
  {
    if a != [] {
      assert (a + b)[1..] == a[1..] + b;
      ActiveAfterAppend(if a[0].Activate? then Some(a[0].name) else active, a[1..], b);
    } else {
      assert a + b == b;
    }
  }

  lemma {:induction false} ActiveAfterNoActivation(active: Option<string>, t: seq<Event>)
    requires forall i :: 0 <= i < |t| ==> !t[i].Activate?
    ensures ActiveAfter(active, t) == active
    decreases |t|
  {
    if t != [] {
      assert !t[0].Activate?;
      ActiveAfterNoActivation(active, t[1..]);
    }
  }

  /** The last name of `names` that is a known set, or `active` when none is. */
  function LastKnown(sets: Dicts.Dict<string, SetData>, active: Option<string>, names: seq<string>): Option<string>
    decreases |names|
  {
    if names == [] then active
    else if names[|names| - 1] in sets.items then Some(names[|names| - 1])
    else LastKnown(sets, active, names[..|names| - 1])
  }

  lemma {:induction false} LastKnownCons(sets: Dicts.Dict<string, SetData>, active: Option<string>, names: seq<string>)
    requires names != []
    ensures LastKnown(sets, active, names)
      == LastKnown(sets, if names[0] in sets.items then Some(names[0]) else active, names[1..])
    decreases |names|
  {
    if |names| > 1 {
      var n := |names|;
      assert names[1..][..n - 2] == names[..n - 1][1..];
      assert names[1..][n - 2] == names[n - 1];
      if names[n - 1] !in sets.items {
        LastKnownCons(sets, active, names[..n - 1]);
      }
    }
  }

  /**
   * After an uninterrupted run the model's active set is the last queued
   * name that exists; missing names never change it.
   */
  lemma {:induction false} PlaybackLeavesLastKnownActive(sets: Dicts.Dict<string, SetData>, active: Option<string>, names: seq<string>)
    ensures ActiveAfter(active, Playback(sets, active, names)) == LastKnown(sets, active, names)
    decreases |names|
  {
    if names != [] {
      var known := names[0] in sets.items;
      var active' := if known then Some(names[0]) else active;
      var head: seq<Event> := if known then [Activate(names[0])] else [];
      var events := SetEvents(ActiveData(sets, active'));
      var rest := Playback(sets, active', names[1..]);
      assert Playback(sets, active, names) == head + events + rest;
      ActiveAfterAppend(active, head + events, rest);
      ActiveAfterAppend(active, head, events);
      assert ActiveAfter(active, head) == active' by {
        if known {
          assert head[1..] == [];
        }
      }
      SetEventsHaveNoActivation(ActiveData(sets, active'));
      ActiveAfterNoActivation(active', events);
      PlaybackLeavesLastKnownActive(sets, active', names[1..]);
      LastKnownCons(sets, active, names);
    }
  }

  /**
   * A queued name with no set replays whatever set is active instead: queue
   * [a, b] with `b` missing plays `a` twice.
   */
  lemma MissingSetReplaysActive(sets: Dicts.Dict<string, SetData>, active: Option<string>, a: string, b: string)
    requires a != "" && a in sets.items && b !in sets.items
    ensures Playback(sets, active, [a, b])
      == [Activate(a)] + SetEvents(Some(sets.items[a])) + SetEvents(Some(sets.items[a]))
  {
    var e := SetEvents(Some(sets.items[a]));
    assert [a, b][1..] == [b];
    assert [b][1..] == [];
    assert ActiveData(sets, Some(a)) == Some(sets.items[a]);
    assert Playback(sets, Some(a), []) == [];
    assert Playback(sets, Some(a), [b]) == e + [];
    assert Playback(sets, active, [a, b]) == [Activate(a)] + e + (e + []);
  }

  // ------------------------------------------------ negative sleeps

  /** The worker never performs a negative sleep: it fails at the first one instead. */
  lemma WorkerNeverSleepsNegative(vm: ViewModel, haltAt: nat, faultAt: Option<nat>)
    requires Valid(vm.model)
    ensures var w := Worker(vm, haltAt, faultAt);
      forall i :: 0 <= i < |w.events| ==> !BadWait(w.events[i])
  {
    var w := Worker(vm, haltAt, faultAt);
    if vm.model.queue != [] {
      var full := Playback(vm.model.sets, vm.model.active, vm.model.queue);
      var bad := FirstBadWait(full);
      var cut := Interrupt(full, haltAt, EarlierFault(faultAt, bad));
      assert bad.Some? ==> |cut.0| <= bad.value;
      forall i | 0 <= i < |w.events|
        ensures !BadWait(w.events[i])
      {
        if i < |cut.0| {
          assert w.events[i] == full[i];
        }
      }
    }
  }

  /** A negative delay reached before the run halts always ends it as a failure. */
  lemma NegativeSleepFails(vm: ViewModel, haltAt: nat, faultAt: Option<nat>)
    requires Valid(vm.model) && vm.model.queue != []
    requires var full := Playback(vm.model.sets, vm.model.active, vm.model.queue);
      FirstBadWait(full).Some? && FirstBadWait(full).value < |UpToCheck(full, haltAt)|
    ensures Worker(vm, haltAt, faultAt).ending == Failed
  {
  }

  /**
   * A run that completes played the whole queue, none of its sleeps was
   * negative, and it leaves the last queued name that exists active.
   */
  lemma CompletedRunLeavesLastKnown(vm: ViewModel, haltAt: nat, faultAt: Option<nat>)
    requires Valid(vm.model)
    requires Worker(vm, haltAt, faultAt).ending == Completed
    ensures var full := Playback(vm.model.sets, vm.model.active, vm.model.queue);
      && Worker(vm, haltAt, faultAt).events == full + [Notify(false)]
      && FirstBadWait(full).None?
      && Worker(vm, haltAt, faultAt).vm.model.active == LastKnown(vm.model.sets, vm.model.active, vm.model.queue)
  {
    var full := Playback(vm.model.sets, vm.model.active, vm.model.queue);
    PlaybackLeavesLastKnownActive(vm.model.sets, vm.model.active, vm.model.queue);
  }
}
