/**
 * The MVVM data model of the auto-clicker: a registry of named sets (each a
 * loop count and a growable list of action records), the name of the active
 * set, and an execution queue of set names.
 */
module AutomationModel {

  import opened Wrappers
  import opened Text
  import opened Dicts

  /** A screen position, the `{'x': x, 'y': y}` dict of the source. */
  datatype Point = Point(x: int, y: int)

  /**
   * One action record ("coordinate") of a set. `clickType` is kept as the text
   * the source stores ('left', 'right', 'double' or anything else), `delay` is
   * the pause in seconds, `order` the playback rank, and `position` is `None`
   * until a position has been recorded.
   */
  datatype Coordinate = Coordinate(
    labelText: string,
    clickType: string,
    text: string,
    delay: real,
    order: int,
    position: Option<Point>)

  datatype SetData = SetData(loopCount: int, coordinates: seq<Coordinate>)

  /** The model's state: sets by name, the active set, the queue and the open file. */
  datatype Registry = Registry(
    sets: Dict<string, SetData>,
    active: Option<string>,
    queue: seq<string>,
    currentFile: Option<string>)

  /** The default per-action delay, in seconds. */
  const DefaultDelay: real := 0.5

  /** The registry shape every operation keeps: a proper dict and an active set that exists. */
  predicate Valid(r: Registry) {
    Dicts.Valid(r.sets) && (r.active.Some? ==> r.active.value in r.sets.items)
  }

  /** Python truthiness of `active_set`: present and not the empty string. */
  predicate HasActive(r: Registry) {
    r.active.Some? && r.active.value != ""
  }

  /** The coordinate list of the active set. */
  function ActiveCoordinates(r: Registry): seq<Coordinate>
    requires Valid(r) && HasActive(r)
  {
    r.sets.items[r.active.value].coordinates
  }

  /** The generated set name `"Set n"`. */
  function SetName(n: nat): string {
    "Set " + NatToString(n)
  }

  lemma SetNameDistinct(a: nat, b: nat)
    requires a != b
    ensures SetName(a) != SetName(b)
  {
    if SetName(a) == SetName(b) {
      assert SetName(a)[4..] == NatToString(a);
      assert SetName(b)[4..] == NatToString(b);
      NatToStringInjective(a, b);
    }
  }

  /** The default label of slot `k`: `"K k+1: "`. */
  function DefaultLabel(k: nat): string {
    "K " + NatToString(k + 1) + ": "
  }

  /** The label a default-labelled slot `k` gets once position `p` is recorded. */
  function PositionLabel(k: nat, p: Point): string {
    "K " + NatToString(k + 1) + ": (" + IntToString(p.x) + ", " + IntToString(p.y) + ")"
  }

  // ---------------------------------------------------------------- sets

  /** `AutomationModel()`: an empty registry to which one set has been added. */
  function Initial(): (r: Registry)
    ensures Valid(r)
    ensures r.sets.keys == [SetName(1)] && r.sets.items[SetName(1)] == SetData(1, [])
    ensures r.active == Some(SetName(1)) && r.queue == [] && r.currentFile.None?
  {
    AddNewSet(Registry(Empty(), None, [], None)).0
  }

  /** `reset`: no sets, no active set, an empty queue and no open file. */
  function Reset(r: Registry): (r': Registry)
    ensures Valid(r')
    ensures r'.sets.keys == [] && r'.sets.items == map[]
    ensures r'.active.None? && r'.queue == [] && r'.currentFile.None?
  {
    Registry(Empty(), None, [], None)
  }

  /**
   * `add_new_set` exactly as written: the name is `"Set n"` with n one more
   * than the number of sets, and it is stored without checking whether a set
   * of that name already exists.
   */
  function AddNewSetAsWritten(r: Registry): (res: (Registry, string))
    requires Valid(r)
    ensures Valid(res.0)
    ensures res.1 == SetName(|r.sets.keys| + 1)
    ensures res.0.sets.items == r.sets.items[res.1 := SetData(1, [])]
    ensures res.0.active == (if HasActive(r) then r.active else Some(res.1))
    ensures res.0.queue == r.queue && res.0.currentFile == r.currentFile
  {
    var name := SetName(|r.sets.keys| + 1);
    var active := if HasActive(r) then r.active else Some(name);
    (r.(sets := Put(r.sets, name, SetData(1, [])), active := active), name)
  }

  /**
   * The name collision of `add_new_set` as written: when `"Set n"` (n one more
   * than the number of sets) is already taken, the call adds no set and
   * replaces that set's loop count and coordinates with the empty defaults.
   */
  lemma AddNewSetAsWrittenOverwrites(r: Registry)
    requires Valid(r) && SetName(|r.sets.keys| + 1) in r.sets.items
    ensures var res := AddNewSetAsWritten(r);
      && res.0.sets.keys == r.sets.keys
      && res.0.sets.items[res.1] == SetData(1, [])
  {
  }

  /**
   * A registry the user reaches in three steps on which the collision happens:
   * from the initial registry, add a set ("Set 2"), give "Set 1" loop count 5,
   * rename it to "Set 3". The next `add_new_set` as written picks "Set 3" again
   * and wipes the renamed set.
   */
  lemma AddNewSetAsWrittenCollisionExample()
    ensures var r1 := AddNewSet(Initial()).0;
      var r2 := SaveLoopCount(r1, 5);
      var r3 := RenameSet(r2, SetName(1), SetName(3)).0;
      var res := AddNewSetAsWritten(r3);
      && r3.sets.items[SetName(3)].loopCount == 5
      && res.1 == SetName(3)
      && |res.0.sets.keys| == |r3.sets.keys| == 2
      && res.0.sets.items[SetName(3)].loopCount == 1
  {
    CollisionRenamed();
    var r3 := RenameSet(SaveLoopCount(AddNewSet(Initial()).0, 5), SetName(1), SetName(3)).0;
    assert |r3.sets.keys| + 1 == 3;
  }

  /** The first two steps of the collision: two sets, and the first one, active, loops five times. */
  lemma CollisionTwoSets()
    ensures var r2 := SaveLoopCount(AddNewSet(Initial()).0, 5);
      && r2.sets.keys == [SetName(1), SetName(2)]
      && SetName(1) in r2.sets.items && r2.sets.items[SetName(1)].loopCount == 5
      && SetName(3) !in r2.sets.items
  {
    SetNameDistinct(1, 2);
    SetNameDistinct(1, 3);
    SetNameDistinct(2, 3);
    var r1 := AddNewSet(Initial()).0;
    assert r1.sets.keys == [SetName(1), SetName(2)];
  }

  /** After the rename, the looping set is called "Set 3" and stands after "Set 2". */
  lemma CollisionRenamed()
    ensures var r3 := RenameSet(SaveLoopCount(AddNewSet(Initial()).0, 5), SetName(1), SetName(3)).0;
      && r3.sets.keys == [SetName(2), SetName(3)]
      && SetName(3) in r3.sets.items && r3.sets.items[SetName(3)].loopCount == 5
  {
    CollisionTwoSets();
    SetNameDistinct(1, 2);
    RenameFirstOfTwo(SaveLoopCount(AddNewSet(Initial()).0, 5), SetName(1), SetName(2), SetName(3));
  }

  /** Renaming the first of two sets moves it behind the second under its new name. */
  lemma RenameFirstOfTwo(r: Registry, a: string, b: string, c: string)
    requires Valid(r) && r.sets.keys == [a, b] && a != b && c !in r.sets.items
    ensures a in r.sets.items
    ensures var r' := RenameSet(r, a, c).0;
      r'.sets.keys == [b, c] && c in r'.sets.items && r'.sets.items[c] == r.sets.items[a]
  {
    assert a in r.sets.items;
    assert Without([a, b], a) == [b];
  }

  /**
   * The smallest `m >= n` whose generated name is not in `taken`; every
   * generated name from `n` up to (not including) `m` is taken.
   */
  function FreshSetNumber(taken: set<string>, n: nat): (m: nat)
    ensures n <= m
    ensures SetName(m) !in taken
    ensures forall k :: n <= k < m ==> SetName(k) in taken
    decreases |taken|
  {
    if SetName(n) in taken then
      var m := FreshSetNumber(taken - {SetName(n)}, n + 1);
      SetNameDistinct(m, n);
      m
    else n
  }

  /**
   * `add_new_set` with the name collision removed: the name is `"Set n"` for
   * the first n, counting up from the number of sets plus one, whose name is
   * free. The newName set holds loop count 1 and no coordinates, goes to the end
   * of the key order, and becomes active only if no set was active.
   */
  function AddNewSet(r: Registry): (res: (Registry, string))
    requires Valid(r)
    ensures Valid(res.0)
    ensures res.1 !in r.sets.items
    ensures res.0.sets.keys == r.sets.keys + [res.1]
    ensures res.0.sets.items == r.sets.items[res.1 := SetData(1, [])]
    ensures SetName(|r.sets.keys| + 1) !in r.sets.items ==> res.1 == SetName(|r.sets.keys| + 1)
    ensures res.0.active == (if HasActive(r) then r.active else Some(res.1))
    ensures res.0.queue == r.queue && res.0.currentFile == r.currentFile
  {
    var name := SetName(FreshSetNumber(r.sets.items.Keys, |r.sets.keys| + 1));
    var active := if HasActive(r) then r.active else Some(name);
    (r.(sets := Put(r.sets, name, SetData(1, [])), active := active), name)
  }

  /** The list comprehension of `rename_set`: every `a` replaced by `b`. */
  function ReplaceAll(q: seq<string>, a: string, b: string): (r: seq<string>)
    ensures |r| == |q|
    ensures forall i :: 0 <= i < |q| ==> r[i] == if q[i] == a then b else q[i]
  {
    if q == [] then [] else [if q[0] == a then b else q[0]] + ReplaceAll(q[1..], a, b)
  }

  /**
   * `rename_set`: succeeds exactly when `oldName` names a set and `newName` does not.
   * On success the data moves to `newName` (at the end of the key order), the
   * active set follows the rename, and every queue entry `oldName` becomes `newName`
   * with the other entries and the queue length unchanged. On failure nothing
   * changes.
   */
  function RenameSet(r: Registry, oldName: string, newName: string): (res: (Registry, bool))
    requires Valid(r)
    ensures Valid(res.0)
    ensures res.1 <==> oldName in r.sets.items && newName !in r.sets.items
    ensures !res.1 ==> res.0 == r
    ensures res.1 ==>
      && res.0.sets.items == (r.sets.items - {oldName})[newName := r.sets.items[oldName]]
      && res.0.sets.keys == Without(r.sets.keys, oldName) + [newName]
      && res.0.active == (if r.active == Some(oldName) then Some(newName) else r.active)
      && |res.0.queue| == |r.queue|
      && (forall i :: 0 <= i < |r.queue| && r.queue[i] == oldName ==> res.0.queue[i] == newName)
      && (forall i :: 0 <= i < |r.queue| && r.queue[i] != oldName ==> res.0.queue[i] == r.queue[i])
      && res.0.currentFile == r.currentFile
  {
    if oldName in r.sets.items && newName !in r.sets.items then
      var data := r.sets.items[oldName];
      var sets := Put(Pop(r.sets, oldName), newName, data);
      var active := if r.active == Some(oldName) then Some(newName) else r.active;
      (Registry(sets, active, ReplaceAll(r.queue, oldName, newName), r.currentFile), true)
    else (r, false)
  }

  /**
   * Renaming back undoes a rename: the sets, the active set and the queue are
   * restored, provided the newName name was not already a (dangling) queue entry.
   */
  lemma RenameRoundTrip(r: Registry, oldName: string, newName: string)
    requires Valid(r) && oldName in r.sets.items && newName !in r.sets.items && newName !in r.queue
    ensures var once := RenameSet(r, oldName, newName).0;
      var back := RenameSet(once, newName, oldName);
      && back.1
      && back.0.sets.items == r.sets.items
      && back.0.active == r.active
      && back.0.queue == r.queue
      && back.0.currentFile == r.currentFile
  {
    var once := RenameSet(r, oldName, newName).0;
    assert once.sets.items == (r.sets.items - {oldName})[newName := r.sets.items[oldName]];
    assert newName in once.sets.items && oldName !in once.sets.items;
    var back := RenameSet(once, newName, oldName).0;
    assert back.sets.items == (once.sets.items - {newName})[oldName := r.sets.items[oldName]];
    MoveKeyBack(r.sets.items, oldName, newName);
    assert |back.queue| == |r.queue|;
    forall i | 0 <= i < |r.queue|
      ensures back.queue[i] == r.queue[i]
    {
      assert r.queue[i] != newName;
    }
  }

  lemma MoveKeyBack<V>(m: map<string, V>, a: string, b: string)
    requires a in m && b !in m
    ensures (((m - {a})[b := m[a]]) - {b})[a := m[a]] == m
  {
  }

  /**
   * `switch_set` (and the identical `load_set`): makes `name` the active set
   * when it exists; reports whether it did, and changes nothing otherwise.
   */
  function SwitchSet(r: Registry, name: string): (res: (Registry, bool))
    requires Valid(r)
    ensures Valid(res.0)
    ensures res.1 <==> name in r.sets.items
    ensures res.1 ==> res.0 == r.(active := Some(name))
    ensures !res.1 ==> res.0 == r
  {
    if name in r.sets.items then (r.(active := Some(name)), true) else (r, false)
  }

  /** Replaces the active set's coordinate list, leaving everything else alone. */
  function WithActiveCoordinates(r: Registry, cs: seq<Coordinate>): (r': Registry)
    requires Valid(r) && HasActive(r)
    ensures Valid(r') && HasActive(r')
    ensures r'.sets.keys == r.sets.keys && r'.active == r.active
    ensures r'.queue == r.queue && r'.currentFile == r.currentFile
    ensures ActiveCoordinates(r') == cs
    ensures r'.sets.items[r.active.value].loopCount == r.sets.items[r.active.value].loopCount
    ensures forall n :: n in r.sets.items && n != r.active.value ==> n in r'.sets.items && r'.sets.items[n] == r.sets.items[n]
    ensures r'.sets.items.Keys == r.sets.items.Keys
  {
    var name := r.active.value;
    r.(sets := Put(r.sets, name, r.sets.items[name].(coordinates := cs)))
  }

  // ------------------------------------------------- merge-save of UI data

  /** Overwrites the editable fields; keeps the stored position unless a new one is given. */
  function MergeCoordinate(current: Coordinate, incoming: Coordinate): Coordinate {
    Coordinate(
      incoming.labelText, incoming.clickType, incoming.text, incoming.delay, incoming.order,
      if incoming.position.Some? then incoming.position else current.position)
  }

  /**
   * The loop of `save_set_data` from index `i` on: existing slots are merged,
   * an incoming record past the end of the list is appended.
   */
  function MergeFrom(current: seq<Coordinate>, incoming: seq<Coordinate>, i: nat): (r: seq<Coordinate>)
    requires i <= |incoming| && i <= |current|
    ensures |r| == if |current| < |incoming| then |incoming| else |current|
    ensures r[..i] == current[..i]
    ensures forall k :: i <= k < |r| && k < |current| && k < |incoming| ==>
      && r[k].labelText == incoming[k].labelText && r[k].clickType == incoming[k].clickType
      && r[k].text == incoming[k].text && r[k].delay == incoming[k].delay
      && r[k].order == incoming[k].order
      && r[k].position == (if incoming[k].position.Some? then incoming[k].position else current[k].position)
    ensures forall k :: |incoming| <= k < |current| ==> r[k] == current[k]
    ensures forall k :: i <= k < |incoming| && |current| <= k ==> r[k] == incoming[k]
    decreases |incoming| - i
  {
    if i == |incoming| then current
    else if i < |current| then
      MergeFrom(current[i := MergeCoordinate(current[i], incoming[i])], incoming, i + 1)
    else
      MergeFrom(current + [incoming[i]], incoming, i + 1)
  }

  /**
   * `save_set_data`: merges the UI's coordinate records into the active set.
   * Slots present on both sides take the incoming label, click type, text,
   * delay and order, and the incoming position only when one is given;
   * surplus incoming records are appended; surplus stored records stay.
   * The active set's loop count, every other set, the key order, the queue
   * and the current file are untouched. Without an active set nothing changes.
   */
  function SaveSetData(r: Registry, incoming: seq<Coordinate>): (r': Registry)
    requires Valid(r)
    ensures Valid(r')
    ensures !HasActive(r) ==> r' == r
    ensures HasActive(r) ==> HasActive(r')
    ensures HasActive(r) ==>
      var before := ActiveCoordinates(r);
      var after := ActiveCoordinates(r');
      && r'.sets.keys == r.sets.keys && r'.active == r.active && r'.queue == r.queue
      && |after| == (if |before| < |incoming| then |incoming| else |before|)
      && (forall k :: 0 <= k < |before| && k < |incoming| ==>
            && after[k].labelText == incoming[k].labelText && after[k].clickType == incoming[k].clickType
            && after[k].text == incoming[k].text && after[k].delay == incoming[k].delay
            && after[k].order == incoming[k].order
            && after[k].position == (if incoming[k].position.Some? then incoming[k].position else before[k].position))
      && (forall k :: |incoming| <= k < |before| ==> after[k] == before[k])
      && (forall k :: |before| <= k < |incoming| ==> after[k] == incoming[k])
    ensures HasActive(r) ==>
      && r'.currentFile == r.currentFile
      && r'.sets.items.Keys == r.sets.items.Keys
      && r'.sets.items[r.active.value].loopCount == r.sets.items[r.active.value].loopCount
      && (forall n :: n in r.sets.items && n != r.active.value ==> r'.sets.items[n] == r.sets.items[n])
  {
    if HasActive(r) then WithActiveCoordinates(r, MergeFrom(ActiveCoordinates(r), incoming, 0)) else r
  }

  /** `save_loop_count`: stores `count` as given in the active set; nothing else changes. */
  function SaveLoopCount(r: Registry, count: int): (r': Registry)
    requires Valid(r)
    ensures Valid(r')
    ensures !HasActive(r) ==> r' == r
    ensures HasActive(r) ==>
      && r'.sets.keys == r.sets.keys && r'.active == r.active && r'.queue == r.queue
      && r'.currentFile == r.currentFile
      && r'.sets.items == r.sets.items[r.active.value := r.sets.items[r.active.value].(loopCount := count)]
  {
    if HasActive(r) then
      var name := r.active.value;
      r.(sets := Put(r.sets, name, r.sets.items[name].(loopCount := count)))
    else r
  }

  /** `get_coordinate_position`: the stored position of slot `index` of the active set, if any. */
  function GetCoordinatePosition(r: Registry, index: int): (p: Option<Point>)
    requires Valid(r)
    ensures p.Some? ==> HasActive(r) && 0 <= index < |ActiveCoordinates(r)|
    ensures HasActive(r) && 0 <= index < |ActiveCoordinates(r)| ==> p == ActiveCoordinates(r)[index].position
  {
    if HasActive(r) && 0 <= index < |ActiveCoordinates(r)| then ActiveCoordinates(r)[index].position
    else None
  }

  // ------------------------------------------------------- slot writers

  /** `_create_default_coordinate(k)`: the record an unused slot `k` starts with. */
  function DefaultCoordinate(k: nat): (c: Coordinate)
    ensures c.labelText == DefaultLabel(k) && c.clickType == "left" && c.text == ""
    ensures c.delay == DefaultDelay && c.order == k && c.position.None?
  {
    Coordinate(DefaultLabel(k), "left", "", DefaultDelay, k, None)
  }

  /**
   * The padding loop of the slot writers: appends default records until the
   * list is longer than `index`. Slot k of the padding is the default record of
   * slot k; the list never shrinks and its stored records are untouched.
   */
  function PadTo(cs: seq<Coordinate>, index: nat): (r: seq<Coordinate>)
    ensures |r| == if index < |cs| then |cs| else index + 1
    ensures r[..|cs|] == cs
    ensures forall k :: |cs| <= k < |r| ==> r[k] == DefaultCoordinate(k)
    decreases index + 1 - |cs|
  {
    if index < |cs| then cs else PadTo(cs + [DefaultCoordinate(|cs|)], index)
  }

  /** What slot `index` holds before a write: the stored record, or the default that padding adds. */
  function SlotBefore(cs: seq<Coordinate>, index: nat): Coordinate {
    if index < |cs| then cs[index] else DefaultCoordinate(index)
  }

  /**
   * A slot write: after padding, slot `index` of the active set holds `slot`;
   * every other slot, every other set, the active set's loop count, the key
   * order, the queue and the active set are unchanged.
   */
  ghost predicate SlotWritten(r: Registry, r': Registry, index: nat, slot: Coordinate)
    requires Valid(r) && HasActive(r) && Valid(r') && HasActive(r')
  {
    var before := ActiveCoordinates(r);
    var after := ActiveCoordinates(r');
    && r'.sets.keys == r.sets.keys && r'.active == r.active
    && r'.queue == r.queue && r'.currentFile == r.currentFile
    && r'.sets.items.Keys == r.sets.items.Keys
    && (forall n :: n in r.sets.items && n != r.active.value ==> r'.sets.items[n] == r.sets.items[n])
    && r'.sets.items[r.active.value].loopCount == r.sets.items[r.active.value].loopCount
    && |after| == (if index < |before| then |before| else index + 1)
    && after[index] == slot
    && (forall k :: 0 <= k < |after| && k != index ==> after[k] == SlotBefore(before, k))
  }

  /** Pads the active set's list and stores `slot` at `index`. */
  function WriteSlot(r: Registry, index: nat, slot: Coordinate): (r': Registry)
    requires Valid(r) && HasActive(r)
    ensures Valid(r') && HasActive(r')
    ensures SlotWritten(r, r', index, slot)
  {
    var padded := PadTo(ActiveCoordinates(r), index);
    var r' := WithActiveCoordinates(r, padded[index := slot]);
    assert forall k :: 0 <= k < |ActiveCoordinates(r)| ==> padded[k] == ActiveCoordinates(r)[k] by {
      assert padded[..|ActiveCoordinates(r)|] == ActiveCoordinates(r);
    }
    r'
  }

  /**
   * `update_coordinate_position`: records `p` in slot `index` of the active
   * set (padding first). The label becomes `"K i: (x, y)"` only if it still
   * is the slot's default label; a custom label is kept. Every other field and
   * slot is unchanged. Without an active set nothing changes.
   */
  function UpdateCoordinatePosition(r: Registry, index: nat, p: Point): (r': Registry)
    requires Valid(r)
    ensures Valid(r')
    ensures !HasActive(r) ==> r' == r
    ensures HasActive(r) ==>
      var prior := SlotBefore(ActiveCoordinates(r), index);
      && HasActive(r')
      && SlotWritten(r, r', index, prior.(
           position := Some(p),
           labelText := if prior.labelText == DefaultLabel(index) then PositionLabel(index, p) else prior.labelText))
  {
    if HasActive(r) then
      var prior := SlotBefore(ActiveCoordinates(r), index);
      var caption := if prior.labelText == DefaultLabel(index) then PositionLabel(index, p) else prior.labelText;
      WriteSlot(r, index, prior.(position := Some(p), labelText := caption))
    else r
  }

  /** A position just recorded in a slot is the one read back from it. */
  lemma UpdatedPositionReadsBack(r: Registry, index: nat, p: Point)
    requires Valid(r) && HasActive(r)
    ensures GetCoordinatePosition(UpdateCoordinatePosition(r, index, p), index) == Some(p)
  {
    var r' := UpdateCoordinatePosition(r, index, p);
    assert ActiveCoordinates(r')[index].position == Some(p);
  }

  /** Recording a position in one slot leaves what every other slot reads back as it was. */
  lemma UpdatePositionKeepsOthers(r: Registry, index: nat, p: Point, other: int)
    requires Valid(r) && HasActive(r) && other != index as int
    ensures 0 <= other < |ActiveCoordinates(r)| ==>
      GetCoordinatePosition(UpdateCoordinatePosition(r, index, p), other) == GetCoordinatePosition(r, other)
  {
  }

  /** `update_coordinate_label`: sets the labelText of slot `index` (padding first); nothing else changes. */
  function UpdateCoordinateLabel(r: Registry, index: nat, text: string): (r': Registry)
    requires Valid(r)
    ensures Valid(r')
    ensures !HasActive(r) ==> r' == r
    ensures HasActive(r) ==>
      HasActive(r') && SlotWritten(r, r', index, SlotBefore(ActiveCoordinates(r), index).(labelText := text))
  {
    if HasActive(r) then WriteSlot(r, index, SlotBefore(ActiveCoordinates(r), index).(labelText := text))
    else r
  }

  /**
   * `toggle_click_type`: sets the click type of slot `index` (padding first)
   * and returns it; without an active set it changes nothing and returns `None`.
   */
  function ToggleClickType(r: Registry, index: nat, clickType: string): (res: (Registry, Option<string>))
    requires Valid(r)
    ensures Valid(res.0)
    ensures !HasActive(r) ==> res == (r, None)
    ensures HasActive(r) ==>
      && res.1 == Some(clickType) && HasActive(res.0)
      && SlotWritten(r, res.0, index, SlotBefore(ActiveCoordinates(r), index).(clickType := clickType))
  {
    if HasActive(r) then
      (WriteSlot(r, index, SlotBefore(ActiveCoordinates(r), index).(clickType := clickType)), Some(clickType))
    else (r, None)
  }

  // -------------------------------------------------------------- queue

  /**
   * `add_to_queue`: appends `name` only when it names a set and is not queued
   * yet; otherwise reports false and leaves everything unchanged.
   */
  function AddToQueue(r: Registry, name: string): (res: (Registry, bool))
    requires Valid(r)
    ensures Valid(res.0)
    ensures res.1 <==> name in r.sets.items && name !in r.queue
    ensures res.1 ==> res.0 == r.(queue := r.queue + [name])
    ensures !res.1 ==> res.0 == r
  {
    if name in r.sets.items && name !in r.queue then (r.(queue := r.queue + [name]), true) else (r, false)
  }

  /** No name is queued twice. */
  predicate NoDuplicates(q: seq<string>) {
    forall i, j :: 0 <= i < j < |q| ==> q[i] != q[j]
  }

  /** Adding through `add_to_queue` never creates a duplicate entry. */
  lemma AddToQueueKeepsNoDuplicates(r: Registry, name: string)
    requires Valid(r) && NoDuplicates(r.queue)
    ensures NoDuplicates(AddToQueue(r, name).0.queue)
  {
  }

  /**
   * `remove_from_queue`: removes exactly the entry at `index` when
   * `0 <= index < len(queue)` and reports true; otherwise reports false and
   * changes nothing.
   */
  function RemoveFromQueue(r: Registry, index: int): (res: (Registry, bool))
    requires Valid(r)
    ensures Valid(res.0)
    ensures res.1 <==> 0 <= index < |r.queue|
    ensures res.1 ==>
      && res.0 == r.(queue := res.0.queue)
      && |res.0.queue| == |r.queue| - 1
      && (forall i :: 0 <= i < index ==> res.0.queue[i] == r.queue[i])
      && (forall i :: index <= i < |res.0.queue| ==> res.0.queue[i] == r.queue[i + 1])
    ensures !res.1 ==> res.0 == r
  {
    if 0 <= index < |r.queue| then (r.(queue := r.queue[..index] + r.queue[index + 1..]), true)
    else (r, false)
  }
}
