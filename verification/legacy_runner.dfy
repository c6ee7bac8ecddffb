/**
 * Legacy playback: `process_queue` as a step function over the engine's
 * cursors, and a run of steps as the trace of effects it produces.
 *
 * Tk's `root.after(ms, process_queue)` becomes the step's `next` delay in
 * seconds; a run appends it to the trace as `After(d)` and takes the next
 * step. Mouse and keyboard calls and `time.sleep` are trace effects. How a
 * delay text becomes a number is left to the caller as `parse`, which
 * returns `None` where `float()` raises `ValueError`.
 */
module LegacyRunner {

  import opened Wrappers
  import opened Text
  import Dicts
  import opened LegacyEngine

  datatype Button = Left | Right

  datatype Effect =
    | ClickAt(at: Point, button: Button)
    | DoubleClickAt(at: Point)
    | Sleep(seconds: real)
    | Type(text: string)
    | After(seconds: real)

  /** The outcome of one `process_queue` call: the new state, its effects and the delay of the next call, if one is scheduled. */
  datatype Tick = Tick(engine: Engine, effects: seq<Effect>, next: Option<real>)

  /** The click for a slot's click type; an unknown type clicks nothing. */
  function ClickFor(clickType: string, p: Point): (r: seq<Effect>)
    ensures |r| <= 1
    ensures clickType == "left" ==> r == [ClickAt(p, Left)]
    ensures clickType == "right" ==> r == [ClickAt(p, Right)]
    ensures clickType == "double" ==> r == [DoubleClickAt(p)]
    ensures clickType != "left" && clickType != "right" && clickType != "double" ==> r == []
  {
    if clickType == "left" then [ClickAt(p, Left)]
    else if clickType == "right" then [ClickAt(p, Right)]
    else if clickType == "double" then [DoubleClickAt(p)]
    else []
  }

  /** The typing for a slot's text: a short sleep and the text, unless the text is empty or all whitespace. */
  function TypeFor(text: string): (r: seq<Effect>)
    ensures IsBlank(text) ==> r == []
    ensures !IsBlank(text) ==> r == [Sleep(0.1), Type(text)]
  {
    if IsBlank(text) then [] else [Sleep(0.1), Type(text)]
  }

  /** The set the queue index points at, if the index is in range and the id is known. */
  function CurrentSet(e: Engine): Option<SetRecord> {
    if e.queueIndex < |e.queue| && e.queue[e.queueIndex] in e.sets.items then Some(e.sets.items[e.queue[e.queueIndex]])
    else None
  }

  /**
   * One `process_queue` call. Paused or stopped: nothing. An empty queue, an
   * index past the end, an unknown id, or a slot whose click, text or delay
   * entry is missing raise, and the handler stops automation (effects already
   * made stay made). Otherwise, by cursor: all loops done moves to the next
   * queue entry (or, past the last, rewinds the index and stops); a finished
   * pass starts the next loop; an empty slot is skipped; a filled slot is
   * clicked, its text typed, and the next call comes after its delay. A
   * mouse or keyboard call that raises is `StepFaulting` below.
   */
  function Step(e: Engine, parse: string -> Option<real>): (t: Tick)
    ensures !e.running || e.paused ==> t == Tick(e, [], None)
    ensures t.next.Some? ==> t.engine.running && !t.engine.paused && e.running && !e.paused
    ensures t.next.None? ==> !t.engine.running || t.engine.paused
    ensures t.engine.sets == e.sets && t.engine.queue == e.queue
    ensures e.running && !e.paused && CurrentSet(e).None? ==> t == Tick(Stop(e), [], None)
    ensures forall k :: 0 <= k < |t.effects| ==> !t.effects[k].After?
  {
    if !e.running || e.paused then Tick(e, [], None)
    else match CurrentSet(e)
    case None => Tick(Stop(e), [], None)
    case Some(s) =>
      if e.currentLoop as int >= s.loopCount then
        if e.queueIndex + 1 >= |e.queue| then
          Tick(e.(queueIndex := 0, currentLoop := 0, currentCoord := 0, running := false), [], None)
        else Tick(e.(queueIndex := e.queueIndex + 1, currentLoop := 0, currentCoord := 0), [], Some(0.1))
      else if e.currentCoord >= |s.coordinates| then
        Tick(e.(currentLoop := e.currentLoop + 1, currentCoord := 0), [], Some(0.1))
      else match s.coordinates[e.currentCoord]
      case None => Tick(e.(currentCoord := e.currentCoord + 1), [], Some(0.1))
      case Some(p) =>
        var i := e.currentCoord;
        if i >= |s.clicks| then Tick(Stop(e), [], None)
        else
          var click := ClickFor(s.clicks[i], p);
          if i >= |s.texts| then Tick(Stop(e), click, None)
          else
            var typed := TypeFor(s.texts[i]);
            if i >= |s.delays| then Tick(Stop(e), click + typed, None)
            else Tick(e.(currentCoord := i + 1), click + typed, Some(parse(s.delays[i]).GetOr(FallbackDelay)))
  }

  /**
   * How far a running engine is from the end of the queue: queue entries
   * left, then loops left in the current set, then slots left in the pass.
   */
  function Progress(e: Engine): (nat, nat, nat) {
    var entries := if e.queueIndex < |e.queue| then |e.queue| - e.queueIndex else 0;
    match CurrentSet(e)
    case None => (entries, 0, 0)
    case Some(s) =>
      var loops := if e.currentLoop as int <= s.loopCount then s.loopCount - e.currentLoop as int else 0;
      var slots := if e.currentCoord <= |s.coordinates| then |s.coordinates| - e.currentCoord else 0;
      (entries, loops, slots)
  }

  /** `a` comes strictly before `b` in lexicographic order. */
  predicate Before(a: (nat, nat, nat), b: (nat, nat, nat)) {
    a.0 < b.0 || (a.0 == b.0 && (a.1 < b.1 || (a.1 == b.1 && a.2 < b.2)))
  }

  /** Every step that schedules another moves the cursors strictly forward. */
  lemma StepProgress(e: Engine, parse: string -> Option<real>)
    requires Step(e, parse).next.Some?
    ensures Before(Progress(Step(e, parse).engine), Progress(e))
  {
  }

  /**
   * Calls `process_queue` until one schedules no further call; the trace
   * interleaves each call's effects with the delay before the next one.
   */
  function RunToEnd(e: Engine, parse: string -> Option<real>): (r: (Engine, seq<Effect>))
    ensures !r.0.running || r.0.paused
    ensures r.0.sets == e.sets && r.0.queue == e.queue
    decreases Progress(e).0, Progress(e).1, Progress(e).2
  {
    var t := Step(e, parse);
    if t.next.None? then
      (t.engine, t.effects)
    else
      StepProgress(e, parse);
      var rest := RunToEnd(t.engine, parse);
      (rest.0, t.effects + [After(t.next.value)] + rest.1)
  }

  /**
   * One `process_queue` call in which library call number `fault` (counting
   * the step's clicks, sleeps and writes from 0) raises. The `except` clause
   * stops automation: the effects before the failing call stay made, the
   * slot cursor does not advance and nothing is scheduled. A fault past the
   * step's last library call cannot happen, so that step is the plain one.
   */
  function StepFaulting(e: Engine, parse: string -> Option<real>, fault: Option<nat>): (t: Tick)
    ensures fault.None? || fault.value >= |Step(e, parse).effects| ==> t == Step(e, parse)
    ensures fault.Some? && fault.value < |Step(e, parse).effects| ==>
      && t.next.None? && !t.engine.running && !t.engine.paused
      && t.engine == Stop(e) && t.effects == Step(e, parse).effects[..fault.value]
  {
    var t := Step(e, parse);
    if fault.Some? && fault.value < |t.effects| then Tick(Stop(e), t.effects[..fault.value], None) else t
  }

  /** A raising library call stops automation where it was: the cursors stay and the effects are a strict prefix of the step's. */
  lemma FaultStopsInPlace(e: Engine, parse: string -> Option<real>, k: nat)
    requires k < |Step(e, parse).effects|
    ensures var t := StepFaulting(e, parse, Some(k));
      && t.next.None? && !t.engine.running
      && t.engine.queueIndex == e.queueIndex && t.engine.currentLoop == e.currentLoop
      && t.engine.currentCoord == e.currentCoord
      && t.engine.sets == e.sets && t.engine.queue == e.queue
      && |t.effects| < |Step(e, parse).effects| && IsPrefix(t.effects, Step(e, parse).effects)
  {
  }

  /**
   * A run in which library call `k` of step `n` (counting steps from 0)
   * raises; steps before it are plain, and a fault that does not happen
   * leaves the run to finish normally.
   */
  function RunFaulted(e: Engine, parse: string -> Option<real>, n: nat, k: nat): (r: (Engine, seq<Effect>))
    ensures !r.0.running || r.0.paused
    ensures r.0.sets == e.sets && r.0.queue == e.queue
    decreases Progress(e).0, Progress(e).1, Progress(e).2
  {
    var t := if n == 0 then StepFaulting(e, parse, Some(k)) else Step(e, parse);
    if t.next.None? then
      (t.engine, t.effects)
    else
      StepProgress(e, parse);
      var rest := if n == 0 then RunToEnd(t.engine, parse) else RunFaulted(t.engine, parse, n - 1, k);
      (rest.0, t.effects + [After(t.next.value)] + rest.1)
  }

  /** `a` is an initial part of `b`. */
  predicate IsPrefix(a: seq<Effect>, b: seq<Effect>) {
    |a| <= |b| && b[..|a|] == a
  }

  lemma PrefixExtend(x: seq<Effect>, a: seq<Effect>, b: seq<Effect>)
    requires IsPrefix(a, b)
    ensures IsPrefix(x + a, x + b)
  {
    assert (x + b)[..|x + a|] == x + b[..|a|];
  }

  lemma PrefixOfHead(a: seq<Effect>, k: nat, b: seq<Effect>, c: seq<Effect>)
    requires k <= |a|
    ensures IsPrefix(a[..k], a) && IsPrefix(a[..k], a + b + c)
  {
    assert (a + b + c)[..k] == a[..k];
  }

  /**
   * An exception in a library call never adds, drops or reorders effects
   * before it: the faulted run's trace is an initial part of the plain run's.
   */
  lemma {:induction false} FaultCutsRun(e: Engine, parse: string -> Option<real>, n: nat, k: nat)
    ensures IsPrefix(RunFaulted(e, parse, n, k).1, RunToEnd(e, parse).1)
    decreases Progress(e).0, Progress(e).1, Progress(e).2
  {
    var t := Step(e, parse);
    if n == 0 {
      if k < |t.effects| {
        var rest := if t.next.None? then [] else [After(t.next.value)] + RunToEnd(t.engine, parse).1;
        PrefixOfHead(t.effects, k, if t.next.None? then [] else [After(t.next.value)],
          if t.next.None? then [] else RunToEnd(t.engine, parse).1);
      }
    } else if t.next.Some? {
      StepProgress(e, parse);
      FaultCutsRun(t.engine, parse, n - 1, k);
      PrefixExtend(t.effects + [After(t.next.value)], RunFaulted(t.engine, parse, n - 1, k).1, RunToEnd(t.engine, parse).1);
    }
  }

  /** After the queue is cleared a `process_queue` call does nothing and a run plays nothing. */
  lemma ClearedQueuePlaysNothing(e: Engine, parse: string -> Option<real>)
    ensures Step(ClearQueue(e), parse) == Tick(ClearQueue(e), [], None)
    ensures RunToEnd(ClearQueue(e), parse) == (ClearQueue(e), [])
  {
  }

  // --------------------------------------------------- reference trace

  /** What playing slot `i` of `s` does, before the wait that follows it. */
  function SlotEffects(s: SetRecord, i: nat): seq<Effect>
    requires i < |s.coordinates| && i < |s.clicks| && i < |s.texts|
  {
    match s.coordinates[i]
    case None => []
    case Some(p) => ClickFor(s.clicks[i], p) + TypeFor(s.texts[i])
  }

  /** The wait after slot `i`: a tenth of a second for an empty slot, the slot's delay otherwise. */
  function SlotDelay(s: SetRecord, i: nat, parse: string -> Option<real>): real
    requires i < |s.coordinates| && i < |s.delays|
  {
    if s.coordinates[i].None? then 0.1 else parse(s.delays[i]).GetOr(FallbackDelay)
  }

  /** Every slot of `s` has its click type, text and delay entry. */
  predicate Playable(s: SetRecord) {
    |s.coordinates| <= |s.clicks| && |s.coordinates| <= |s.texts| && |s.coordinates| <= |s.delays|
  }

  /** The rest of one pass from slot `i`: each slot and its wait, then the tenth of a second before the next loop. */
  function PassFrom(s: SetRecord, i: nat, parse: string -> Option<real>): seq<Effect>
    requires Playable(s)
    decreases |s.coordinates| - i
  {
    if i >= |s.coordinates| then [After(0.1)]
    else SlotEffects(s, i) + [After(SlotDelay(s, i, parse))] + PassFrom(s, i + 1, parse)
  }

  /** `n` whole passes (none when `n` is not positive). */
  function Loops(s: SetRecord, n: int, parse: string -> Option<real>): seq<Effect>
    requires Playable(s)
    decreases n
  {
    if n <= 0 then [] else PassFrom(s, 0, parse) + Loops(s, n - 1, parse)
  }

  type Sets = Dicts.Dict<int, SetRecord>

  /** Every queued id from `qi` on names a playable set. */
  predicate PlayableFrom(sets: Sets, queue: seq<int>, qi: nat) {
    forall j :: qi <= j < |queue| ==> queue[j] in sets.items && Playable(sets.items[queue[j]])
  }

  /**
   * The reference trace of the queue from entry `qi`: each set's loops in
   * slot order, with a tenth of a second between queue entries.
   */
  function Playback(sets: Sets, queue: seq<int>, qi: nat, parse: string -> Option<real>): seq<Effect>
    requires qi < |queue| && PlayableFrom(sets, queue, qi)
    decreases |queue| - qi
  {
    var s := sets.items[queue[qi]];
    Loops(s, s.loopCount, parse) + NextEntries(sets, queue, qi, parse)
  }

  /** What follows queue entry `qi`: the next entry after a tenth of a second, or nothing after the last. */
  function NextEntries(sets: Sets, queue: seq<int>, qi: nat, parse: string -> Option<real>): seq<Effect>
    requires qi < |queue| && PlayableFrom(sets, queue, qi)
    decreases |queue| - qi, 0
  {
    if qi + 1 < |queue| then [After(0.1)] + Playback(sets, queue, qi + 1, parse) else []
  }

  /** The engine a full run ends in: stopped, with all cursors rewound. */
  function Finished(e: Engine): Engine {
    e.(queueIndex := 0, currentLoop := 0, currentCoord := 0, running := false)
  }

  /** A running engine whose cursor is inside a queue of playable sets. */
  predicate Playing(e: Engine) {
    e.running && !e.paused && e.queueIndex < |e.queue| && PlayableFrom(e.sets, e.queue, e.queueIndex)
  }

  /**
   * What is left to play from the engine's cursors: the rest of the current
   * pass and the remaining loops of the current set, then the rest of the
   * queue.
   */
  function Remaining(e: Engine, parse: string -> Option<real>): seq<Effect>
    requires Playing(e)
  {
    InSet(e.sets.items[e.queue[e.queueIndex]], e.currentLoop, e.currentCoord, parse)
    + NextEntries(e.sets, e.queue, e.queueIndex, parse)
  }

  /** What is left of set `s` from slot `c` of loop `loop`: the rest of that pass and the loops after it. */
  function InSet(s: SetRecord, loop: nat, c: nat, parse: string -> Option<real>): seq<Effect>
    requires Playable(s)
  {
    if loop < s.loopCount then PassFrom(s, c, parse) + Loops(s, s.loopCount - loop - 1, parse) else []
  }

  /** At a slot of a pass, what is left of the set is that slot, its wait, and what is left from the next slot. */
  lemma InSetSlot(s: SetRecord, loop: nat, i: nat, tail: seq<Effect>, parse: string -> Option<real>)
    requires Playable(s) && loop < s.loopCount && i < |s.coordinates|
    ensures InSet(s, loop, i, parse) + tail == SlotEffects(s, i) + [After(SlotDelay(s, i, parse))] + (InSet(s, loop, i + 1, parse) + tail)
  {
    var head := SlotEffects(s, i) + [After(SlotDelay(s, i, parse))];
    PassFromSlot(s, i, parse);
    Associate(head, PassFrom(s, i + 1, parse), Loops(s, s.loopCount - loop - 1, parse));
    Associate(head, InSet(s, loop, i + 1, parse), tail);
  }

  /** At the end of a pass, what is left of the set is a tenth of a second, then the next loop from its first slot. */
  lemma InSetPassEnd(s: SetRecord, loop: nat, c: nat, parse: string -> Option<real>)
    requires Playable(s) && loop < s.loopCount && c >= |s.coordinates|
    ensures InSet(s, loop, c, parse) == [After(0.1)] + InSet(s, loop + 1, 0, parse)
  {
    assert PassFrom(s, c, parse) == [After(0.1)];
    var n := s.loopCount - loop - 1;
    if 0 < n {
      assert Loops(s, n, parse) == PassFrom(s, 0, parse) + Loops(s, n - 1, parse);
    }
  }

  /** From the first slot of the first loop, what is left of a set is all its loops. */
  lemma InSetStart(s: SetRecord, parse: string -> Option<real>)
    requires Playable(s)
    ensures InSet(s, 0, 0, parse) == Loops(s, s.loopCount, parse)
  {
    if 0 < s.loopCount {
      assert Loops(s, s.loopCount, parse) == PassFrom(s, 0, parse) + Loops(s, s.loopCount - 1, parse);
    }
  }

  /** The last step of a run: all loops of the last queue entry are done. */
  lemma StepFinishes(e: Engine, parse: string -> Option<real>)
    requires Playing(e)
    requires e.currentLoop as int >= e.sets.items[e.queue[e.queueIndex]].loopCount
    requires e.queueIndex + 1 >= |e.queue|
    ensures Step(e, parse) == Tick(Finished(e), [], None)
    ensures Remaining(e, parse) == []
  {
    assert CurrentSet(e).Some?;
    assert NextEntries(e.sets, e.queue, e.queueIndex, parse) == [];
  }

  /** Moving on to the next queue entry. */
  lemma StepNextEntry(e: Engine, parse: string -> Option<real>)
    requires Playing(e)
    requires e.currentLoop as int >= e.sets.items[e.queue[e.queueIndex]].loopCount
    requires e.queueIndex + 1 < |e.queue|
    ensures var t := Step(e, parse);
      && t.next == Some(0.1) && t.effects == [] && Playing(t.engine)
      && Remaining(e, parse) == t.effects + [After(0.1)] + Remaining(t.engine, parse)
  {
    StepAtEntryEnd(e, parse);
    RemainingAtEntryEnd(e, parse);
    var none: seq<Effect> := [];
    assert none + [After(0.1)] == [After(0.1)];
  }

  /** What one call does once the current set's loops are done and more entries follow. */
  lemma StepAtEntryEnd(e: Engine, parse: string -> Option<real>)
    requires Playing(e)
    requires e.currentLoop as int >= e.sets.items[e.queue[e.queueIndex]].loopCount
    requires e.queueIndex + 1 < |e.queue|
    ensures Step(e, parse) == Tick(e.(queueIndex := e.queueIndex + 1, currentLoop := 0, currentCoord := 0), [], Some(0.1))
  {
    assert CurrentSet(e).Some?;
  }

  /** Once the current set's loops are done, what is left is a tenth of a second, then all of the next entry on. */
  lemma RemainingAtEntryEnd(e: Engine, parse: string -> Option<real>)
    requires Playing(e)
    requires e.currentLoop as int >= e.sets.items[e.queue[e.queueIndex]].loopCount
    requires e.queueIndex + 1 < |e.queue|
    ensures var e' := e.(queueIndex := e.queueIndex + 1, currentLoop := 0, currentCoord := 0);
      Playing(e') && Remaining(e, parse) == [After(0.1)] + Remaining(e', parse)
  {
    var e' := e.(queueIndex := e.queueIndex + 1, currentLoop := 0, currentCoord := 0);
    RemainingPastLoops(e, parse);
    RemainingAtEntryStart(e', parse);
  }

  /** With every loop of the current set done, what is left is the rest of the queue. */
  lemma RemainingPastLoops(e: Engine, parse: string -> Option<real>)
    requires Playing(e)
    requires e.currentLoop as int >= e.sets.items[e.queue[e.queueIndex]].loopCount
    ensures Remaining(e, parse) == NextEntries(e.sets, e.queue, e.queueIndex, parse)
  {
    var none: seq<Effect> := [];
    assert Remaining(e, parse) == none + NextEntries(e.sets, e.queue, e.queueIndex, parse);
  }

  /** Entering a queue entry at its first loop and slot leaves that entry's whole playback. */
  lemma RemainingAtEntryStart(e: Engine, parse: string -> Option<real>)
    requires Playing(e) && e.currentLoop == 0 && e.currentCoord == 0
    ensures Remaining(e, parse) == Playback(e.sets, e.queue, e.queueIndex, parse)
  {
    InSetStart(e.sets.items[e.queue[e.queueIndex]], parse);
  }

  /** Starting the next loop of the current set. */
  lemma StepNextLoop(e: Engine, parse: string -> Option<real>)
    requires Playing(e)
    requires e.currentLoop as int < e.sets.items[e.queue[e.queueIndex]].loopCount
    requires e.currentCoord >= |e.sets.items[e.queue[e.queueIndex]].coordinates|
    ensures var t := Step(e, parse);
      && t.next == Some(0.1) && t.effects == [] && Playing(t.engine)
      && Remaining(e, parse) == t.effects + [After(0.1)] + Remaining(t.engine, parse)
  {
    StepAtPassEnd(e, parse);
    RemainingAtPassEnd(e, parse);
    var none: seq<Effect> := [];
    assert none + [After(0.1)] == [After(0.1)];
  }

  /** What one call does at the end of a pass with loops left. */
  lemma StepAtPassEnd(e: Engine, parse: string -> Option<real>)
    requires Playing(e)
    requires e.currentLoop as int < e.sets.items[e.queue[e.queueIndex]].loopCount
    requires e.currentCoord >= |e.sets.items[e.queue[e.queueIndex]].coordinates|
    ensures Step(e, parse) == Tick(e.(currentLoop := e.currentLoop + 1, currentCoord := 0), [], Some(0.1))
  {
    assert CurrentSet(e).Some?;
  }

  /** At the end of a pass, what is left is a tenth of a second, then the next loop from its first slot. */
  lemma RemainingAtPassEnd(e: Engine, parse: string -> Option<real>)
    requires Playing(e)
    requires e.currentLoop as int < e.sets.items[e.queue[e.queueIndex]].loopCount
    requires e.currentCoord >= |e.sets.items[e.queue[e.queueIndex]].coordinates|
    ensures var e' := e.(currentLoop := e.currentLoop + 1, currentCoord := 0);
      Playing(e') && Remaining(e, parse) == [After(0.1)] + Remaining(e', parse)
  {
    var s := e.sets.items[e.queue[e.queueIndex]];
    var e' := e.(currentLoop := e.currentLoop + 1, currentCoord := 0);
    InSetPassEnd(s, e.currentLoop, e.currentCoord, parse);
    Associate([After(0.1)], InSet(s, e.currentLoop + 1, 0, parse), NextEntries(e.sets, e.queue, e.queueIndex, parse));
  }

  /** What one call does at a slot of the current pass: play it and move to the next slot. */
  lemma StepAtSlot(e: Engine, parse: string -> Option<real>)
    requires Playing(e)
    requires e.currentLoop as int < e.sets.items[e.queue[e.queueIndex]].loopCount
    requires e.currentCoord < |e.sets.items[e.queue[e.queueIndex]].coordinates|
    ensures var s := e.sets.items[e.queue[e.queueIndex]];
      Step(e, parse) == Tick(e.(currentCoord := e.currentCoord + 1), SlotEffects(s, e.currentCoord),
                             Some(SlotDelay(s, e.currentCoord, parse)))
  {
    assert CurrentSet(e).Some?;
  }

  /** Playing one slot of the current pass. */
  lemma StepSlot(e: Engine, parse: string -> Option<real>)
    requires Playing(e)
    requires e.currentLoop as int < e.sets.items[e.queue[e.queueIndex]].loopCount
    requires e.currentCoord < |e.sets.items[e.queue[e.queueIndex]].coordinates|
    ensures var t := Step(e, parse);
      && t.next.Some? && Playing(t.engine)
      && Remaining(e, parse) == t.effects + [After(t.next.value)] + Remaining(t.engine, parse)
  {
    StepAtSlot(e, parse);
    RemainingAtSlot(e, parse);
  }

  /** At a slot of the current pass, what is left is that slot, its wait, and what is left from the next slot. */
  lemma RemainingAtSlot(e: Engine, parse: string -> Option<real>)
    requires Playing(e)
    requires e.currentLoop as int < e.sets.items[e.queue[e.queueIndex]].loopCount
    requires e.currentCoord < |e.sets.items[e.queue[e.queueIndex]].coordinates|
    ensures var s := e.sets.items[e.queue[e.queueIndex]];
      Remaining(e, parse) == SlotEffects(s, e.currentCoord) + [After(SlotDelay(s, e.currentCoord, parse))]
        + Remaining(e.(currentCoord := e.currentCoord + 1), parse)
  {
    var s := e.sets.items[e.queue[e.queueIndex]];
    var i := e.currentCoord;
    InSetSlot(s, e.currentLoop, i, NextEntries(e.sets, e.queue, e.queueIndex, parse), parse);
  }

  lemma Associate<T>(a: seq<T>, b: seq<T>, c: seq<T>)
    ensures a + b + c == a + (b + c)
  {
  }

  /** A pass from a slot inside the set plays that slot, waits, and goes on from the next one. */
  lemma PassFromSlot(s: SetRecord, i: nat, parse: string -> Option<real>)
    requires Playable(s) && i < |s.coordinates|
    ensures PassFrom(s, i, parse) == SlotEffects(s, i) + [After(SlotDelay(s, i, parse))] + PassFrom(s, i + 1, parse)
  {
  }

  /**
   * From any cursor position inside a queue of playable sets, a run produces
   * exactly what is left to play, and ends stopped with every cursor rewound.
   */
  lemma {:induction false} RunFromCursor(e: Engine, parse: string -> Option<real>)
    requires Playing(e)
    ensures RunToEnd(e, parse) == (Finished(e), Remaining(e, parse))
    decreases Progress(e).0, Progress(e).1, Progress(e).2
  {
    var s := e.sets.items[e.queue[e.queueIndex]];
    if e.currentLoop as int >= s.loopCount && e.queueIndex + 1 >= |e.queue| {
      StepFinishes(e, parse);
    } else {
      StepContinues(e, parse);
      StepProgress(e, parse);
      RunFromCursor(Step(e, parse).engine, parse);
    }
  }

  /** Short of the very end, a step schedules another, keeps playing, and only moves the cursors. */
  lemma StepContinues(e: Engine, parse: string -> Option<real>)
    requires Playing(e)
    requires var s := e.sets.items[e.queue[e.queueIndex]];
      e.currentLoop as int < s.loopCount || e.queueIndex + 1 < |e.queue|
    ensures var t := Step(e, parse);
      && t.next.Some? && Playing(t.engine) && Finished(t.engine) == Finished(e)
      && Remaining(e, parse) == t.effects + [After(t.next.value)] + Remaining(t.engine, parse)
  {
    var s := e.sets.items[e.queue[e.queueIndex]];
    if e.currentLoop as int >= s.loopCount {
      StepNextEntry(e, parse);
      StepAtEntryEnd(e, parse);
    } else if e.currentCoord >= |s.coordinates| {
      StepNextLoop(e, parse);
      StepAtPassEnd(e, parse);
    } else {
      StepSlot(e, parse);
      StepAtSlot(e, parse);
    }
  }

  /**
   * A start (which rewinds the queue index) followed by calls of
   * `process_queue` until none is scheduled plays the whole queue in order,
   * every set's slots in slot order `loop_count` times, and ends stopped with
   * the queue index back at 0.
   */
  lemma StartPlaysWholeQueue(e: Engine, entries: seq<string>, parse: string -> Option<real>)
    requires Valid(e) && !e.running && e.queue != [] && e.activeSet in e.sets.items
    requires PlayableFrom(ToggleAutomation(e, entries).0.sets, e.queue, 0)
    ensures
      var started := ToggleAutomation(e, entries).0;
      && ToggleAutomation(e, entries).1 == Started
      && RunToEnd(started, parse) == (Finished(started), Playback(started.sets, started.queue, 0, parse))
  {
    var started := ToggleAutomation(e, entries).0;
    RunFromCursor(started, parse);
    InSetStart(started.sets.items[started.queue[0]], parse);
  }

  /** A stopped or paused engine does nothing however often it is stepped. */
  lemma StoppedIsInert(e: Engine, parse: string -> Option<real>)
    requires !e.running || e.paused
    ensures RunToEnd(e, parse) == (e, [])
  {
  }

  /**
   * As written, a new start keeps the queue index of the last run. Stopped
   * at the second of two entries and with that entry then removed, a start
   * raises on the index, stops at once and plays nothing; with the index
   * rewound the same start clicks the first set's first slot.
   */
  lemma StartKeepsStaleIndex(p: Point, parse: string -> Option<real>)
    ensures
      var s := NewSet(1).(coordinates := NewSet(1).coordinates[0 := Some(p)]);
      var e := Initial().(sets := Dicts.Put(Initial().sets, 1, s), queue := [1], queueIndex := 1);
      var entries := s.texts;
      var asWritten := ToggleAutomationAsWritten(e, entries);
      var fixed := ToggleAutomation(e, entries);
      && asWritten.1 == Started
      && Step(asWritten.0, parse) == Tick(Stop(asWritten.0), [], None)
      && fixed.1 == Started
      && Step(fixed.0, parse).effects == [ClickAt(p, Left)]
      && Step(fixed.0, parse).engine.running
  {
    var s := NewSet(1).(coordinates := NewSet(1).coordinates[0 := Some(p)]);
    var e := Initial().(sets := Dicts.Put(Initial().sets, 1, s), queue := [1], queueIndex := 1);
    assert s.texts[0] == "";
    assert IsBlank(s.texts[0]);
  }
}
