/**
 * The legacy file format: what `save_file` puts into the JSON document and
 * how `open_file` reads it back. The document is an abstract value whose
 * fields are `None` where the JSON object lacks the key; reading and writing
 * the file itself is not modelled.
 *
 * A set id is written as its decimal string and read back with `int()`; a
 * slot position `Point(x, y)` is written as the list `[x, y]` and an empty
 * slot as `null`. On reading, `null` and `[]` give an empty slot, a
 * two-element list gives a point, and any other list raises.
 */
module LegacyCodec {

  import opened Wrappers
  import opened Text
  import Dicts
  import opened LegacyEngine

  type Sets = Dicts.Dict<int, SetRecord>

  datatype SetDoc = SetDoc(
    name: Option<string>,
    coordinates: Option<seq<Option<seq<int>>>>,
    names: Option<seq<string>>,
    clicks: Option<seq<string>>,
    delays: Option<seq<string>>,
    order: Option<seq<int>>,
    loopCount: Option<int>,
    texts: Option<seq<string>>)

  datatype FileDoc = FileDoc(
    sets: Option<Dicts.Dict<string, SetDoc>>,
    activeSet: Option<int>,
    currentSetId: Option<int>,
    queue: Option<seq<int>>)

  /** A slot as written: `[x, y]` for a point, `null` for an empty slot. */
  function EncodeSlot(c: Option<Point>): (j: Option<seq<int>>)
    ensures c.None? <==> j.None?
    ensures c.Some? ==> |j.value| == 2
  {
    match c
    case None => None
    case Some(p) => Some([p.x, p.y])
  }

  /**
   * A slot as read: `null` or `[]` is an empty slot, `[x, y]` a point, and any
   * other list fails to unpack (`None`).
   */
  function DecodeSlot(j: Option<seq<int>>): (r: Option<Option<Point>>)
    ensures r.None? <==> j.Some? && |j.value| != 0 && |j.value| != 2
    ensures j.Some? && |j.value| == 2 ==> r == Some(Some(Point(j.value[0], j.value[1])))
    ensures j.None? || j == Some([]) ==> r == Some(None)
  {
    match j
    case None => Some(None)
    case Some(xs) =>
      if |xs| == 0 then Some(None)
      else if |xs| == 2 then Some(Some(Point(xs[0], xs[1])))
      else None
  }

  /** Reading back a written slot gives the slot. */
  lemma SlotRoundTrip(c: Option<Point>)
    ensures DecodeSlot(EncodeSlot(c)) == Some(c)
  {
  }

  /** All slots as read, or `None` when any of them fails. */
  function DecodeSlots(js: seq<Option<seq<int>>>): (r: Option<seq<Option<Point>>>)
    ensures r.Some? <==> forall i :: 0 <= i < |js| ==> DecodeSlot(js[i]).Some?
    ensures r.Some? ==> |r.value| == |js| && forall i :: 0 <= i < |js| ==> r.value[i] == DecodeSlot(js[i]).value
  {
    if js == [] then Some([])
    else
      match (DecodeSlot(js[0]), DecodeSlots(js[1..]))
      case (Some(c), Some(cs)) => Some([c] + cs)
      case _ => None
  }

  function EncodeSlots(cs: seq<Option<Point>>): (js: seq<Option<seq<int>>>)
    ensures |js| == |cs| && forall i :: 0 <= i < |cs| ==> js[i] == EncodeSlot(cs[i])
  {
    seq(|cs|, i requires 0 <= i < |cs| => EncodeSlot(cs[i]))
  }

  /** One set as `save_file` writes it: every field present. */
  function EncodeSet(s: SetRecord): SetDoc {
    SetDoc(Some(s.name), Some(EncodeSlots(s.coordinates)), Some(s.names), Some(s.clicks),
      Some(s.delays), Some(s.order), Some(s.loopCount), Some(s.texts))
  }

  /**
   * One set as `open_file` reads it: every field but `texts` is required
   * (a missing one raises), a slot that fails to unpack raises, and missing
   * texts become twenty empty strings.
   */
  function DecodeSet(d: SetDoc): (r: Option<SetRecord>)
    ensures r.Some? <==>
      && d.name.Some? && d.coordinates.Some? && d.names.Some? && d.clicks.Some?
      && d.delays.Some? && d.order.Some? && d.loopCount.Some?
      && DecodeSlots(d.coordinates.value).Some?
    ensures r.Some? && d.texts.None? ==> r.value.texts == seq(Slots, _ => "")
    ensures r.Some? && d.texts.Some? ==> r.value.texts == d.texts.value
  {
    if d.name.None? || d.coordinates.None? || d.names.None? || d.clicks.None?
      || d.delays.None? || d.order.None? || d.loopCount.None? then None
    else
      match DecodeSlots(d.coordinates.value)
      case None => None
      case Some(cs) =>
        Some(SetRecord(d.name.value, cs, d.names.value, d.clicks.value, d.delays.value,
          d.order.value, d.loopCount.value, d.texts.GetOr(seq(Slots, _ => ""))))
  }

  /** Reading back a written set gives the set, every field included. */
  lemma SetRoundTrip(s: SetRecord)
    ensures DecodeSet(EncodeSet(s)) == Some(s)
  {
    var js := EncodeSlots(s.coordinates);
    assert DecodeSlots(js).Some?;
    assert DecodeSlots(js).value == s.coordinates;
  }

  /** The id keys of `keys`, as written. */
  function KeyStrings(keys: seq<int>): (r: seq<string>)
    ensures |r| == |keys| && forall i :: 0 <= i < |keys| ==> r[i] == IntToString(keys[i])
  {
    seq(|keys|, i requires 0 <= i < |keys| => IntToString(keys[i]))
  }

  /** Distinct ids give distinct keys, so a later id's key is never among the earlier ones. */
  lemma FreshKey(keys: seq<int>, n: nat)
    requires n < |keys| && forall i, j :: 0 <= i < j < |keys| ==> keys[i] != keys[j]
    ensures IntToString(keys[n]) !in KeyStrings(keys[..n])
    ensures KeyStrings(keys[..n + 1]) == KeyStrings(keys[..n]) + [IntToString(keys[n])]
  {
    forall i | 0 <= i < n
      ensures KeyStrings(keys[..n])[i] != IntToString(keys[n])
    {
      if IntToString(keys[i]) == IntToString(keys[n]) {
        IntToStringInjective(keys[i], keys[n]);
      }
    }
    assert keys[..n + 1] == keys[..n] + [keys[n]];
  }

  /**
   * `data['sets']` as `save_file` fills it for the first `n` ids, one
   * `str(set_id)` key per set, in the sets' own order.
   */
  function EncodeSets(sets: Sets, n: nat): (d: Dicts.Dict<string, SetDoc>)
    requires Dicts.Valid(sets) && n <= |sets.keys|
    ensures Dicts.Valid(d)
    ensures d.keys == KeyStrings(sets.keys[..n])
    ensures forall i :: 0 <= i < n ==> d.items[d.keys[i]] == EncodeSet(sets.items[sets.keys[i]])
  {
    if n == 0 then Dicts.Empty()
    else
      var prev := EncodeSets(sets, n - 1);
      EncodeSetsStep(sets, n - 1, prev);
      Dicts.Put(prev, IntToString(sets.keys[n - 1]), EncodeSet(sets.items[sets.keys[n - 1]]))
  }

  /** Writing one more set appends its key and leaves the entries before it alone. */
  lemma EncodeSetsStep(sets: Sets, k: nat, prev: Dicts.Dict<string, SetDoc>)
    requires Dicts.Valid(sets) && k < |sets.keys|
    requires Dicts.Valid(prev) && prev.keys == KeyStrings(sets.keys[..k])
    requires forall i :: 0 <= i < k ==> prev.items[prev.keys[i]] == EncodeSet(sets.items[sets.keys[i]])
    ensures sets.keys[k] in sets.items
    ensures var d := Dicts.Put(prev, IntToString(sets.keys[k]), EncodeSet(sets.items[sets.keys[k]]));
      && d.keys == KeyStrings(sets.keys[..k + 1])
      && forall i :: 0 <= i < k + 1 ==> d.items[d.keys[i]] == EncodeSet(sets.items[sets.keys[i]])
  {
    var id := sets.keys[k];
    assert id in sets.items.Keys;
    FreshKey(sets.keys, k);
    var v := EncodeSet(sets.items[id]);
    var d := Dicts.Put(prev, IntToString(id), v);
    Dicts.PutNewKeeps(prev, IntToString(id), v);
    forall i | 0 <= i < k + 1
      ensures d.items[d.keys[i]] == EncodeSet(sets.items[sets.keys[i]])
    {
      if i < k {
        assert d.keys[i] == prev.keys[i];
      }
    }
  }

  /**
   * `open_file`'s loop over `data['sets']`, for its first `n` entries, onto
   * the cleared set table: each key through `int()` and each set through
   * `DecodeSet`, stopping at the first that raises. The flag says whether
   * all `n` were read; the table keeps the sets read before a failure.
   */
  function DecodeSets(doc: Dicts.Dict<string, SetDoc>, n: nat): (res: (Sets, bool))
    requires Dicts.Valid(doc) && n <= |doc.keys|
    ensures Dicts.Valid(res.0)
    ensures !res.1 ==> n > 0
    decreases n
  {
    if n == 0 then (Dicts.Empty(), true)
    else
      var (prev, ok) := DecodeSets(doc, n - 1);
      var key := doc.keys[n - 1];
      assert key in doc.items.Keys;
      if !ok then (prev, false)
      else match (ParseInt(key), DecodeSet(doc.items[key]))
      case (Some(id), Some(s)) => (Dicts.Put(prev, id, s), true)
      case _ => (prev, false)
  }

  /** The first `n` sets of `sets`, in order, as one `d[k] = v` per set builds them. */
  function Prefix(sets: Sets, n: nat): (r: Sets)
    requires Dicts.Valid(sets) && n <= |sets.keys|
    ensures Dicts.Valid(r) && r.keys == sets.keys[..n]
    ensures forall id :: id in r.items ==> id in sets.items && r.items[id] == sets.items[id]
  {
    if n == 0 then Dicts.Empty()
    else
      var id := sets.keys[n - 1];
      assert id in sets.items.Keys;
      assert sets.keys[..n] == sets.keys[..n - 1] + [id];
      assert id !in sets.keys[..n - 1];
      Dicts.Put(Prefix(sets, n - 1), id, sets.items[id])
  }

  lemma PrefixStep(sets: Sets, n: nat)
    requires Dicts.Valid(sets) && 0 < n <= |sets.keys|
    ensures sets.keys[n - 1] !in Prefix(sets, n - 1).items
    ensures Prefix(sets, n) == Dicts.Put(Prefix(sets, n - 1), sets.keys[n - 1], sets.items[sets.keys[n - 1]])
  {
    assert sets.keys[n - 1] !in sets.keys[..n - 1];
  }

  lemma PrefixAll(sets: Sets)
    requires Dicts.Valid(sets)
    ensures Prefix(sets, |sets.keys|) == sets
  {
    assert sets.keys[..|sets.keys|] == sets.keys;
    Dicts.SameEntries(Prefix(sets, |sets.keys|), sets);
  }

  /** The loop reads all `n` entries exactly when every one of them has an integer key and a readable set. */
  lemma {:induction false} DecodeSetsSucceedsIff(doc: Dicts.Dict<string, SetDoc>, n: nat)
    requires Dicts.Valid(doc) && n <= |doc.keys|
    ensures DecodeSets(doc, n).1 <==> AllReadable(doc, n)
  {
    if n > 0 {
      var k := n - 1;
      DecodeSetsSucceedsIff(doc, k);
      DecodeSetsSucceedsStep(doc, k);
    }
  }

  /** Each of the first `n` entries has an integer key and a readable set. */
  predicate AllReadable(doc: Dicts.Dict<string, SetDoc>, n: nat)
    requires Dicts.Valid(doc) && n <= |doc.keys|
  {
    forall i :: 0 <= i < n ==> doc.keys[i] in doc.items && ParseInt(doc.keys[i]).Some? && DecodeSet(doc.items[doc.keys[i]]).Some?
  }

  lemma DecodeSetsSucceedsStep(doc: Dicts.Dict<string, SetDoc>, k: nat)
    requires Dicts.Valid(doc) && k < |doc.keys|
    requires DecodeSets(doc, k).1 <==> AllReadable(doc, k)
    ensures DecodeSets(doc, k + 1).1 <==> AllReadable(doc, k + 1)
  {
    assert doc.keys[k] in doc.items.Keys;
  }

  /** Reading one more entry that parses adds its set to what was read so far. */
  lemma DecodeSetsStep(doc: Dicts.Dict<string, SetDoc>, n: nat, id: int, s: SetRecord)
    requires Dicts.Valid(doc) && 0 < n <= |doc.keys| && DecodeSets(doc, n - 1).1
    requires ParseInt(doc.keys[n - 1]) == Some(id) && DecodeSet(doc.items[doc.keys[n - 1]]) == Some(s)
    ensures DecodeSets(doc, n) == (Dicts.Put(DecodeSets(doc, n - 1).0, id, s), true)
  {
  }

  /** Reading back what was written for the first `n` sets gives exactly those sets, in their order. */
  lemma SetsRoundTrip(sets: Sets, n: nat)
    requires Dicts.Valid(sets) && n <= |sets.keys|
    ensures DecodeSets(EncodeSets(sets, n), n) == (Prefix(sets, n), true)
  {
    DecodeWritten(sets, n, n);
  }

  /** Reading the first `m` entries of what was written for the first `n` sets gives the first `m` sets. */
  lemma {:induction false} DecodeWritten(sets: Sets, n: nat, m: nat)
    requires Dicts.Valid(sets) && m <= n <= |sets.keys|
    ensures ReadsBack(sets, n, m)
  {
    if m > 0 {
      var k := m - 1;
      DecodeWritten(sets, n, k);
      DecodeWrittenStep(sets, n, k);
    }
  }

  /** The first `m` entries of what was written for the first `n` sets read back as the first `m` sets. */
  predicate ReadsBack(sets: Sets, n: nat, m: nat)
    requires Dicts.Valid(sets) && m <= n <= |sets.keys|
  {
    DecodeSets(EncodeSets(sets, n), m) == (Prefix(sets, m), true)
  }

  lemma DecodeWrittenStep(sets: Sets, n: nat, k: nat)
    requires Dicts.Valid(sets) && k < n <= |sets.keys|
    requires ReadsBack(sets, n, k)
    ensures ReadsBack(sets, n, k + 1)
  {
    DecodeNextWritten(sets, n, k + 1);
    PrefixStep(sets, k + 1);
  }

  /** Once the entries before it read back, the `m`-th written entry reads back as its own id and set. */
  lemma DecodeNextWritten(sets: Sets, n: nat, m: nat)
    requires Dicts.Valid(sets) && 0 < m <= n <= |sets.keys|
    requires DecodeSets(EncodeSets(sets, n), m - 1).1
    ensures sets.keys[m - 1] in sets.items
    ensures DecodeSets(EncodeSets(sets, n), m)
      == (Dicts.Put(DecodeSets(EncodeSets(sets, n), m - 1).0, sets.keys[m - 1], sets.items[sets.keys[m - 1]]), true)
  {
    var d := EncodeSets(sets, n);
    var id := sets.keys[m - 1];
    assert id in sets.items.Keys;
    assert d.keys[m - 1] == IntToString(id) by {
      assert sets.keys[..n][m - 1] == id;
    }
    ParseIntToString(id);
    SetRoundTrip(sets.items[id]);
    DecodeSetsStep(d, m, id, sets.items[id]);
  }

  /** The first `n` entries of `a` and `b` have the same keys, in the same order, with the same sets. */
  predicate AgreeUpTo(a: Dicts.Dict<string, SetDoc>, b: Dicts.Dict<string, SetDoc>, n: nat)
    requires n <= |a.keys| && n <= |b.keys|
  {
    n == 0 ||
    (&& AgreeUpTo(a, b, n - 1)
     && a.keys[n - 1] == b.keys[n - 1] && a.keys[n - 1] in a.items && b.keys[n - 1] in b.items
     && a.items[a.keys[n - 1]] == b.items[b.keys[n - 1]])
  }

  /** Reading the first `n` entries depends only on those entries. */
  lemma {:induction false} DecodePrefixAgree(a: Dicts.Dict<string, SetDoc>, b: Dicts.Dict<string, SetDoc>, n: nat)
    requires Dicts.Valid(a) && Dicts.Valid(b) && n <= |a.keys| && n <= |b.keys|
    requires AgreeUpTo(a, b, n)
    ensures DecodeSets(a, n) == DecodeSets(b, n)
  {
    if n > 0 {
      var k := n - 1;
      DecodePrefixAgree(a, b, k);
      DecodeAgreeStep(a, b, k);
    }
  }

  lemma DecodeAgreeStep(a: Dicts.Dict<string, SetDoc>, b: Dicts.Dict<string, SetDoc>, k: nat)
    requires Dicts.Valid(a) && Dicts.Valid(b) && k < |a.keys| && k < |b.keys|
    requires a.keys[k] == b.keys[k] && a.keys[k] in a.items && b.keys[k] in b.items && a.items[a.keys[k]] == b.items[b.keys[k]]
    requires DecodeSets(a, k) == DecodeSets(b, k)
    ensures DecodeSets(a, k + 1) == DecodeSets(b, k + 1)
  {
  }

  /**
   * The data part of `save_file`: the text boxes `entries` go into the active
   * set first, then every set, the active id, the id counter and the queue
   * are written. Without an active set the first step raises; the handler
   * reports it, nothing is written (`None`) and nothing changes.
   */
  function SaveFile(e: Engine, entries: seq<string>): (res: (Engine, Option<FileDoc>))
    requires Valid(e)
    ensures Valid(res.0)
    ensures e.activeSet !in e.sets.items ==> res == (e, None)
    ensures e.activeSet in e.sets.items ==>
      && res.0 == e.(sets := res.0.sets)
      && res.0.sets.keys == e.sets.keys
      && res.0.sets.items == e.sets.items[e.activeSet := e.sets.items[e.activeSet].(texts := entries)]
      && res.1.Some?
      && res.1.value.sets == Some(EncodeSets(res.0.sets, |res.0.sets.keys|))
      && res.1.value.activeSet == Some(e.activeSet)
      && res.1.value.currentSetId == Some(e.currentSetId)
      && res.1.value.queue == Some(e.queue)
  {
    if e.activeSet !in e.sets.items then (e, None)
    else
      var sets := Dicts.Put(e.sets, e.activeSet, e.sets.items[e.activeSet].(texts := entries));
      var e' := e.(sets := sets);
      (e', Some(FileDoc(Some(EncodeSets(sets, |sets.keys|)), Some(e.activeSet), Some(e.currentSetId), Some(e.queue))))
  }

  /**
   * The data part of `open_file` on the document `doc` from `path`, with the
   * loaded active set's saved texts kept. The set table is cleared and read
   * back; then the active id and the id counter (both required) and the
   * queue (empty if absent) are read, and `path` becomes the current file.
   * A failure stops there, with what was read so far in place. Playback
   * flags and cursors are not touched.
   */
  function OpenFile(e: Engine, doc: FileDoc, path: string): (res: (Engine, bool))
    ensures Valid(res.0)
    ensures doc.sets.None? ==> res == (e.(sets := Dicts.Empty()), false)
    ensures res.1 ==>
      && doc.sets.Some? && doc.activeSet.Some? && doc.currentSetId.Some?
      && res.0 == e.(sets := res.0.sets, activeSet := doc.activeSet.value,
                     currentSetId := doc.currentSetId.value, queue := doc.queue.GetOr([]),
                     currentFile := Some(path))
  {
    match doc.sets
    case None => (e.(sets := Dicts.Empty()), false)
    case Some(d) =>
      if !Dicts.Valid(d) then (e.(sets := Dicts.Empty()), false)
      else
        var (sets, ok) := DecodeSets(d, |d.keys|);
        var e1 := e.(sets := sets);
        if !ok then (e1, false)
        else match doc.activeSet
        case None => (e1, false)
        case Some(active) =>
          var e2 := e1.(activeSet := active);
          match doc.currentSetId
          case None => (e2, false)
          case Some(counter) =>
            (e2.(currentSetId := counter, queue := doc.queue.GetOr([]), currentFile := Some(path)), true)
  }

  /**
   * `open_file` as written: after loading, `switch_set` of the loaded active
   * id stores the text boxes `entries` — which still show the set displayed
   * before the open — into that set, since the active id already names it.
   */
  function OpenFileAsWritten(e: Engine, doc: FileDoc, path: string, entries: seq<string>): (res: (Engine, bool))
    ensures Valid(res.0)
    ensures !res.1 ==> res == OpenFile(e, doc, path)
    ensures res.1 ==>
      var loaded := OpenFile(e, doc, path).0;
      && OpenFile(e, doc, path).1
      && (loaded.activeSet !in loaded.sets.items ==> res.0 == loaded)
      && (loaded.activeSet in loaded.sets.items ==>
           res.0 == loaded.(sets := Dicts.Put(loaded.sets, loaded.activeSet,
                                              loaded.sets.items[loaded.activeSet].(texts := entries))))
  {
    var (loaded, ok) := OpenFile(e, doc, path);
    if ok && loaded.activeSet in loaded.sets.items then
      var s := loaded.sets.items[loaded.activeSet];
      (loaded.(sets := Dicts.Put(loaded.sets, loaded.activeSet, s.(texts := entries))), true)
    else (loaded, ok)
  }

  /**
   * Opening what was saved, in any engine, restores the sets (contents and
   * order), the active set, the id counter and the queue, and leaves the
   * opening engine's playback state alone.
   */
  lemma SaveOpenRoundTrip(e: Engine, entries: seq<string>, other: Engine, path: string)
    requires Valid(e) && e.activeSet in e.sets.items
    ensures
      var saved := SaveFile(e, entries).0;
      var load := OpenFile(other, SaveFile(e, entries).1.value, path);
      var reloaded := load.0;
      && load.1
      && reloaded.sets == saved.sets
      && reloaded == other.(sets := saved.sets, activeSet := saved.activeSet, currentSetId := saved.currentSetId,
                          queue := saved.queue, currentFile := Some(path))
  {
    var res := SaveFile(e, entries);
    var sets := res.0.sets;
    var d := EncodeSets(sets, |sets.keys|);
    assert res.1.value.sets == Some(d);
    assert |d.keys| == |sets.keys|;
    SetsRoundTrip(sets, |sets.keys|);
    PrefixAll(sets);
    OpenDecoded(other, res.1.value, path);
  }

  /**
   * When the set table reads back and the active id and the id counter are
   * present, `open_file` succeeds with exactly what it read.
   */
  lemma OpenDecoded(e: Engine, doc: FileDoc, path: string)
    requires doc.sets.Some? && Dicts.Valid(doc.sets.value)
    requires DecodeSets(doc.sets.value, |doc.sets.value.keys|).1
    requires doc.activeSet.Some? && doc.currentSetId.Some?
    ensures OpenFile(e, doc, path) ==
      (e.(sets := DecodeSets(doc.sets.value, |doc.sets.value.keys|).0, activeSet := doc.activeSet.value,
          currentSetId := doc.currentSetId.value, queue := doc.queue.GetOr([]), currentFile := Some(path)), true)
  {
  }

  /**
   * As written, opening a saved file replaces the saved texts of its active
   * set by whatever the text boxes show: whenever those differ, the file's
   * texts are lost.
   */
  lemma OpenAsWrittenLosesTexts(e: Engine, saved: seq<string>, shown: seq<string>, other: Engine, path: string)
    requires Valid(e) && e.activeSet in e.sets.items
    ensures
      var doc := SaveFile(e, saved).1.value;
      var load := OpenFileAsWritten(other, doc, path, shown);
      var reloaded := load.0;
      && load.1
      && e.activeSet in reloaded.sets.items
      && reloaded.sets.items[e.activeSet].texts == shown
      && OpenFile(other, doc, path).0.sets.items[e.activeSet].texts == saved
  {
    SaveOpenRoundTrip(e, saved, other, path);
  }
}
