/**
 * The structured document the MVVM model saves and loads: the validation
 * and default backfill of `load_file`, and the document `save_file_as`
 * writes. Reading and writing the file and the JSON text itself are outside
 * the model; a document here is the already-parsed value.
 */
module ModelDocument {

  import opened Wrappers
  import Dicts
  import opened AutomationModel

  /** One action record as read from a file; `None` marks a missing key. */
  datatype CoordinateDoc = CoordinateDoc(
    labelText: Option<string>,
    clickType: Option<string>,
    text: Option<string>,
    delay: Option<real>,
    order: Option<int>,
    position: Option<Option<Point>>)

  /** One set as read from a file; `None` marks a missing key. */
  datatype SetDoc = SetDoc(loopCount: Option<int>, coordinates: Option<seq<CoordinateDoc>>)

  /**
   * A parsed document: something other than a JSON object, or an object whose
   * `'sets'` and `'queue'` keys may each be missing.
   */
  datatype Document =
    | NotAnObject
    | Object(sets: Option<Dicts.Dict<string, SetDoc>>, queue: Option<seq<string>>)

  /** A parsed JSON object never repeats a key. */
  predicate WellFormed(doc: Document) {
    doc.Object? && doc.sets.Some? ==> Dicts.Valid(doc.sets.value)
  }

  /** Fills every missing key of the record in slot `k` from that slot's default record. */
  function BackfillCoordinate(c: CoordinateDoc, k: nat): (r: Coordinate)
    ensures r.labelText == c.labelText.GetOr(DefaultLabel(k))
    ensures r.clickType == c.clickType.GetOr("left")
    ensures r.text == c.text.GetOr("")
    ensures r.delay == c.delay.GetOr(DefaultDelay)
    ensures r.order == c.order.GetOr(k)
    ensures r.position == c.position.GetOr(None)
  {
    var d := DefaultCoordinate(k);
    Coordinate(
      c.labelText.GetOr(d.labelText), c.clickType.GetOr(d.clickType), c.text.GetOr(d.text),
      c.delay.GetOr(d.delay), c.order.GetOr(d.order), c.position.GetOr(d.position))
  }

  /** Backfills the records of a list, each from the default of its own slot index. */
  function BackfillCoordinates(cs: seq<CoordinateDoc>): (r: seq<Coordinate>)
    ensures |r| == |cs|
    ensures forall k :: 0 <= k < |cs| ==> r[k] == BackfillCoordinate(cs[k], k)
  {
    seq(|cs|, k requires 0 <= k < |cs| => BackfillCoordinate(cs[k], k))
  }

  /** A missing loop count becomes 1 and a missing coordinate list becomes empty. */
  function BackfillSet(s: SetDoc): (r: SetData)
    ensures r.loopCount == s.loopCount.GetOr(1)
    ensures s.coordinates.None? ==> r.coordinates == []
    ensures s.coordinates.Some? ==> r.coordinates == BackfillCoordinates(s.coordinates.value)
  {
    SetData(s.loopCount.GetOr(1), BackfillCoordinates(s.coordinates.GetOr([])))
  }

  /**
   * `load_file` on a parsed document. Anything but an object holding both
   * `'sets'` and `'queue'` is refused with the registry untouched. Otherwise
   * every set is backfilled, the sets (in document order) and the queue
   * replace the registry's, the file becomes the current file, and the first
   * set, if any, becomes active.
   */
  function LoadFile(r: Registry, doc: Document, filename: string): (res: (Registry, bool))
    requires Valid(r) && WellFormed(doc)
    ensures Valid(res.0)
    ensures res.1 <==> doc.Object? && doc.sets.Some? && doc.queue.Some?
    ensures !res.1 ==> res.0 == r
    ensures res.1 ==>
      && res.0.sets.keys == doc.sets.value.keys
      && res.0.sets.items.Keys == doc.sets.value.items.Keys
      && (forall n :: n in doc.sets.value.items ==>
            res.0.sets.items[n] == BackfillSet(doc.sets.value.items[n]))
      && res.0.queue == doc.queue.value
      && res.0.currentFile == Some(filename)
      && res.0.active == (if doc.sets.value.keys == [] then None else Some(doc.sets.value.keys[0]))
  {
    match doc
    case NotAnObject => (r, false)
    case Object(sets, queue) =>
      if sets.None? || queue.None? then (r, false)
      else
        var loaded := Dicts.MapValues(sets.value, BackfillSet);
        (Registry(loaded, Dicts.First(loaded), queue.value, Some(filename)), true)
  }

  function EncodeCoordinate(c: Coordinate): CoordinateDoc {
    CoordinateDoc(Some(c.labelText), Some(c.clickType), Some(c.text), Some(c.delay), Some(c.order), Some(c.position))
  }

  function EncodeSet(s: SetData): SetDoc {
    SetDoc(Some(s.loopCount), Some(seq(|s.coordinates|, k requires 0 <= k < |s.coordinates| => EncodeCoordinate(s.coordinates[k]))))
  }

  /** The document `save_file_as` writes: `{'sets': sets, 'queue': queue}` with every key present. */
  function Encode(r: Registry): (doc: Document)
    requires Valid(r)
    ensures WellFormed(doc) && doc.Object? && doc.sets.Some? && doc.queue == Some(r.queue)
    ensures doc.sets.value.keys == r.sets.keys
  {
    Object(Some(Dicts.MapValues(r.sets, EncodeSet)), Some(r.queue))
  }

  lemma {:induction false} BackfillEncodedSet(s: SetData)
    ensures BackfillSet(EncodeSet(s)) == s
  {
    var back := BackfillSet(EncodeSet(s));
    assert |back.coordinates| == |s.coordinates|;
    forall k | 0 <= k < |s.coordinates|
      ensures back.coordinates[k] == s.coordinates[k]
    {
    }
  }

  /**
   * Saving then loading restores the sets (names, order and contents) and the
   * queue; the first set becomes active and the file becomes current.
   */
  lemma LoadEncodeRoundTrip(r: Registry, current: Registry, filename: string)
    requires Valid(r) && Valid(current)
    ensures var res := LoadFile(current, Encode(r), filename);
      && res.1
      && res.0.sets == r.sets
      && res.0.queue == r.queue
      && res.0.active == Dicts.First(r.sets)
      && res.0.currentFile == Some(filename)
  {
    var res := LoadFile(current, Encode(r), filename).0;
    forall n | n in r.sets.items
      ensures res.sets.items[n] == r.sets.items[n]
    {
      BackfillEncodedSet(r.sets.items[n]);
    }
    assert res.sets.items == r.sets.items;
  }
}
