/** The per-field change logs of generated entities: what `_dt` records about one map field and about
    one slice field between two ClearDirty calls, and whether that record can be replayed. */
module ChangeLog {
  import opened Wrappers
  import opened Decimal

  /** A CollectionChangeInner. Nil and empty collections are the same here, as they are to DirtyChanges,
      which only exports non-empty ones. */
  datatype Change<+V> = Change(
    fullReplace: bool,
    mapSet: map<string, V>,
    mapDelete: set<string>,
    sliceSet: map<int, V>,
    sliceAppend: seq<V>,
    sliceRemoveAt: seq<int>,
    sliceSwapRemoveAt: seq<int>)

  function NoChange<V>(): Change<V> {
    Change(false, map[], {}, map[], [], [], [])
  }

  function MarkFullReplace<V>(ch: Change<V>): Change<V> {
    NoChange<V>().(fullReplace := true)
  }

  function MarkMapSet<V>(ch: Change<V>, key: string, value: V): Change<V> {
    if ch.fullReplace then ch
    else ch.(mapSet := ch.mapSet[key := value], mapDelete := ch.mapDelete - {key})
  }

  function MarkMapDelete<V>(ch: Change<V>, key: string): Change<V> {
    if ch.fullReplace then ch
    else ch.(mapDelete := ch.mapDelete + {key}, mapSet := ch.mapSet - {key})
  }

  function MarkSliceAppend<V>(ch: Change<V>, values: seq<V>): Change<V> {
    if ch.fullReplace then ch else ch.(sliceAppend := ch.sliceAppend + values)
  }

  function MarkSliceSet<V>(ch: Change<V>, index: int, value: V): Change<V> {
    if ch.fullReplace then ch else ch.(sliceSet := ch.sliceSet[index := value])
  }

  function MarkSliceRemoveAt<V>(ch: Change<V>, index: int): Change<V> {
    if ch.fullReplace then ch else ch.(sliceRemoveAt := ch.sliceRemoveAt + [index])
  }

  function MarkSliceSwapRemoveAt<V>(ch: Change<V>, index: int): Change<V> {
    if ch.fullReplace then ch else ch.(sliceSwapRemoveAt := ch.sliceSwapRemoveAt + [index])
  }

  // ---------- Map fields ----------

  /** A map field with its change log and its set of child-dirty keys; `cur` is None for a nil map. */
  datatype TrackedMap<V> = TrackedMap(cur: Option<map<int, V>>, ch: Change<V>, childDirty: set<int>)

  function ClearedMap<V>(cur: Option<map<int, V>>): TrackedMap<V> {
    TrackedMap(cur, NoChange(), {})
  }

  function Contents<V>(m: Option<map<int, V>>): map<int, V> {
    if m.None? then map[] else m.value
  }

  datatype MapOp<+V> =
    | Put(key: int, value: V)
    | PutMany(entries: seq<(int, V)>)  // the argument map in the order it is ranged over
    | Update(ukey: int, next: V)  // next is what the callback leaves in the child
    | Del(dkey: int)
    | DelMany(keys: seq<int>)
    | Replace(with: Option<map<int, V>>)
    | Clear

  function PutOne<V>(t: TrackedMap<V>, key: int, value: V): TrackedMap<V> {
    TrackedMap(Some(Contents(t.cur)[key := value]), MarkMapSet(t.ch, Sprint(key), value), t.childDirty + {key})
  }

  function DelOne<V>(t: TrackedMap<V>, key: int): TrackedMap<V>
    requires key in Contents(t.cur)
  {
    TrackedMap(Some(t.cur.value - {key}), MarkMapDelete(t.ch, Sprint(key)), t.childDirty - {key})
  }

  function PutAll<V>(t: TrackedMap<V>, entries: seq<(int, V)>): TrackedMap<V>
    decreases |entries|
  {
    if entries == [] then t else PutAll(PutOne(t, entries[0].0, entries[0].1), entries[1..])
  }

  function DelAll<V>(t: TrackedMap<V>, keys: seq<int>): TrackedMap<V>
    decreases |keys|
  {
    if keys == [] then t
    else if keys[0] in Contents(t.cur) then DelAll(DelOne(t, keys[0]), keys[1..])
    else DelAll(t, keys[1..])
  }

  /** The new field and whether the operation marked the entity, which is also what it returns. */
  function ApplyMap<V>(t: TrackedMap<V>, op: MapOp<V>): (TrackedMap<V>, bool) {
    match op
    case Put(key, value) => (PutOne(t, key, value), true)
    case PutMany(entries) => if entries == [] then (t, false) else (PutAll(t, entries), true)
    case Update(key, next) =>
      if key !in Contents(t.cur) then (t, false)
      else (t.(cur := Some(t.cur.value[key := next]), childDirty := t.childDirty + {key}), true)
    case Del(key) => if key !in Contents(t.cur) then (t, false) else (DelOne(t, key), true)
    case DelMany(keys) => (DelAll(t, keys), exists i | 0 <= i < |keys| :: keys[i] in Contents(t.cur))
    case Replace(with) =>
      // mapsEqual is true only for two nil maps; the child-dirty keys are left alone.
      if t.cur.None? && with.None? then (t, false)
      else (TrackedMap(with, MarkFullReplace(t.ch), t.childDirty), true)
    case Clear =>
      if |Contents(t.cur)| == 0 then (t, false) else (TrackedMap(None, MarkFullReplace(t.ch), {}), true)
  }

  function ApplyMapOps<V>(t: TrackedMap<V>, ops: seq<MapOp<V>>): TrackedMap<V>
    decreases |ops|
  {
    if ops == [] then t else ApplyMapOps(ApplyMap(t, ops[0]).0, ops[1..])
  }

  lemma {:induction false} DelAllOnlyPresent<V>(t: TrackedMap<V>, keys: seq<int>)
    ensures (forall k | k in keys :: k !in Contents(t.cur)) ==> DelAll(t, keys) == t
    decreases |keys|
  {
    if keys != [] {
      DelAllOnlyPresent(t, keys[1..]);
    }
  }

  /** What a reader of the log rebuilds from the contents at the last ClearDirty: deleted keys are taken
      out, and the child-dirty keys take their value from the current state saved beside the log. */
  function Replay<V>(base: map<int, V>, deleted: set<string>, dirtyKeys: set<int>, cur: map<int, V>): map<int, V> {
    map k | k in base.Keys + (dirtyKeys * cur.Keys) && (k in dirtyKeys * cur.Keys || Sprint(k) !in deleted) ::
      if k in dirtyKeys * cur.Keys then cur[k] else base[k]
  }

  /** What the log of a map field says about `base`, the field at the last ClearDirty. */
  ghost predicate MapLogInv<V>(base: Option<map<int, V>>, t: TrackedMap<V>) {
    !t.ch.fullReplace ==>
      var cur := Contents(t.cur);
      && t.childDirty <= cur.Keys
      && t.ch.mapSet.Keys !! t.ch.mapDelete
      && (forall k :: Sprint(k) in t.ch.mapDelete ==> k !in cur)
      && (forall p | p in t.ch.mapSet :: exists k :: k in t.childDirty && Sprint(k) == p)
      && (forall k | k !in t.childDirty && Sprint(k) !in t.ch.mapDelete ::
            (k in cur <==> k in Contents(base)) && (k in cur ==> cur[k] == Contents(base)[k]))
      && (t.cur.None? <==> base.None? && t.childDirty == {} && t.ch.mapDelete == {})
  }

  lemma PutKeepsLog<V>(base: Option<map<int, V>>, t: TrackedMap<V>, key: int, value: V)
    requires MapLogInv(base, t)
    ensures MapLogInv(base, PutOne(t, key, value))
  {
    SprintDistinct();
  }

  lemma DelKeepsLog<V>(base: Option<map<int, V>>, t: TrackedMap<V>, key: int)
    requires MapLogInv(base, t) && key in Contents(t.cur)
    ensures MapLogInv(base, DelOne(t, key))
  {
    SprintDistinct();
  }

  lemma UpdateKeepsLog<V>(base: Option<map<int, V>>, t: TrackedMap<V>, key: int, next: V)
    requires MapLogInv(base, t)
    ensures MapLogInv(base, ApplyMap(t, Update(key, next)).0)
  {
  }

  lemma {:induction false} PutAllKeepsLog<V>(base: Option<map<int, V>>, t: TrackedMap<V>, entries: seq<(int, V)>)
    requires MapLogInv(base, t)
    ensures MapLogInv(base, PutAll(t, entries))
    decreases |entries|
  {
    if entries != [] {
      PutKeepsLog(base, t, entries[0].0, entries[0].1);
      PutAllKeepsLog(base, PutOne(t, entries[0].0, entries[0].1), entries[1..]);
    }
  }

  lemma {:induction false} DelAllKeepsLog<V>(base: Option<map<int, V>>, t: TrackedMap<V>, keys: seq<int>)
    requires MapLogInv(base, t)
    ensures MapLogInv(base, DelAll(t, keys))
    decreases |keys|
  {
    if keys != [] {
      if keys[0] in Contents(t.cur) {
        DelKeepsLog(base, t, keys[0]);
        DelAllKeepsLog(base, DelOne(t, keys[0]), keys[1..]);
      } else {
        DelAllKeepsLog(base, t, keys[1..]);
      }
    }
  }

  lemma ApplyKeepsLog<V>(base: Option<map<int, V>>, t: TrackedMap<V>, op: MapOp<V>)
    requires MapLogInv(base, t)
    ensures MapLogInv(base, ApplyMap(t, op).0)
  {
    match op
    case Put(key, value) => PutKeepsLog(base, t, key, value);
    case PutMany(entries) => PutAllKeepsLog(base, t, entries);
    case Update(key, next) => UpdateKeepsLog(base, t, key, next);
    case Del(key) => if key in Contents(t.cur) { DelKeepsLog(base, t, key); }
    case DelMany(keys) => DelAllKeepsLog(base, t, keys);
    case Replace(_) =>
    case Clear =>
  }

  lemma {:induction false} RunKeepsLog<V>(base: Option<map<int, V>>, t: TrackedMap<V>, ops: seq<MapOp<V>>)
    requires MapLogInv(base, t)
    ensures MapLogInv(base, ApplyMapOps(t, ops))
    decreases |ops|
  {
    if ops != [] {
      ApplyKeepsLog(base, t, ops[0]);
      RunKeepsLog(base, ApplyMap(t, ops[0]).0, ops[1..]);
    }
  }

  /** After ClearDirty and any sequence of operations a log without FullReplace replays to the current
      map, nil-ness included, and never names a key as both set and deleted. */
  lemma MapLogReplays<V>(base: Option<map<int, V>>, ops: seq<MapOp<V>>)
    ensures var t := ApplyMapOps(ClearedMap(base), ops);
            !t.ch.fullReplace ==>
              && Replay(Contents(base), t.ch.mapDelete, t.childDirty, Contents(t.cur)) == Contents(t.cur)
              && (t.cur.None? <==> base.None? && t.childDirty == {} && t.ch.mapDelete == {})
              && t.ch.mapSet.Keys !! t.ch.mapDelete
  {
    RunKeepsLog(base, ClearedMap(base), ops);
    if !ApplyMapOps(ClearedMap(base), ops).ch.fullReplace {
      ReplayFromInv(base, ApplyMapOps(ClearedMap(base), ops));
    }
  }

  lemma ReplayFromInv<V>(base: Option<map<int, V>>, t: TrackedMap<V>)
    requires MapLogInv(base, t) && !t.ch.fullReplace
    ensures Replay(Contents(base), t.ch.mapDelete, t.childDirty, Contents(t.cur)) == Contents(t.cur)
  {
    var r := Replay(Contents(base), t.ch.mapDelete, t.childDirty, Contents(t.cur));
    forall k: int
      ensures k in r <==> k in Contents(t.cur)
      ensures k in r ==> r[k] == Contents(t.cur)[k]
    {
      if k !in t.childDirty && Sprint(k) !in t.ch.mapDelete {
        assert k in Contents(t.cur) <==> k in Contents(base);
      }
    }
    assert r.Keys == Contents(t.cur).Keys;
  }

  /** The log starting at `mid` says that key `k` was set, updated or deleted. */
  predicate Touches<V>(t: TrackedMap<V>, k: int) {
    k in t.childDirty || Sprint(k) in t.ch.mapDelete
  }

  predicate AgreeAt<V(==)>(a: map<int, V>, b: map<int, V>, k: int) {
    (k in a <==> k in b) && (k in a ==> a[k] == b[k])
  }

  /** A reader that skipped the log leading from `base` to `mid` and applies the next one to `base` gets
      the current map exactly when the next log touches every key in which `base` and `mid` differ. */
  lemma SkippedLogIsHarmlessIff<V>(base: Option<map<int, V>>, mid: Option<map<int, V>>, t: TrackedMap<V>)
    requires MapLogInv(mid, t) && !t.ch.fullReplace
    ensures Replay(Contents(base), t.ch.mapDelete, t.childDirty, Contents(t.cur)) == Contents(t.cur)
      <==> forall k :: AgreeAt(Contents(base), Contents(mid), k) || Touches(t, k)
  {
    var r := Replay(Contents(base), t.ch.mapDelete, t.childDirty, Contents(t.cur));
    forall k: int
      ensures AgreeAt(r, Contents(t.cur), k) <==> AgreeAt(Contents(base), Contents(mid), k) || Touches(t, k)
    {
      ReplayAgrees(base, mid, t, k);
    }
    AgreeEverywhere(r, Contents(t.cur));
  }

  lemma ReplayAgrees<V>(base: Option<map<int, V>>, mid: Option<map<int, V>>, t: TrackedMap<V>, k: int)
    requires MapLogInv(mid, t) && !t.ch.fullReplace
    ensures AgreeAt(Replay(Contents(base), t.ch.mapDelete, t.childDirty, Contents(t.cur)), Contents(t.cur), k)
      <==> AgreeAt(Contents(base), Contents(mid), k) || Touches(t, k)
  {
  }

  lemma AgreeEverywhere<V>(a: map<int, V>, b: map<int, V>)
    ensures a == b <==> forall k :: AgreeAt(a, b, k)
  {
    if forall k :: AgreeAt(a, b, k) {
      forall k: int
        ensures k in a <==> k in b
        ensures k in a ==> a[k] == b[k]
      {
        assert AgreeAt(a, b, k);
      }
      assert a == b;
    }
  }

  // ---------- The logged values ----------

  /** The reading of the log that takes the values from mapSet instead of from the saved state. */
  ghost predicate ValuesReplay<V>(base: map<int, V>, ch: Change<V>, cur: map<int, V>) {
    forall k: int {:trigger Sprint(k)} ::
      && (k in cur <==> Sprint(k) in ch.mapSet || (k in base && Sprint(k) !in ch.mapDelete))
      && (k in cur ==> cur[k] == if Sprint(k) in ch.mapSet then ch.mapSet[Sprint(k)] else base[k])
  }

  /** Update logs only the key: an operation breaks the value reading of a correct log exactly when it is
      an Update that changes its child. */
  lemma UpdateIsNotInTheValues<V>(base: Option<map<int, V>>, t: TrackedMap<V>, op: MapOp<V>)
    requires MapLogInv(base, t) && ValuesReplay(Contents(base), t.ch, Contents(t.cur))
    requires op.Put? || op.Update? || op.Del?
    requires !t.ch.fullReplace
    ensures var t' := ApplyMap(t, op).0;
            ValuesReplay(Contents(base), t'.ch, Contents(t'.cur)) <==>
            !(op.Update? && op.ukey in Contents(t.cur) && op.next != Contents(t.cur)[op.ukey])
  {
    SprintDistinct();
    var t' := ApplyMap(t, op).0;
    if op.Update? && op.ukey in Contents(t.cur) && op.next != Contents(t.cur)[op.ukey] {
      assert t'.ch == t.ch && Contents(t'.cur)[op.ukey] == op.next;
      assert Sprint(op.ukey) == Sprint(op.ukey);
    }
  }

  // ---------- Slice fields ----------

  datatype TrackedSlice<V> = TrackedSlice(cur: Option<seq<V>>, ch: Change<V>)

  function ClearedSlice<V>(cur: Option<seq<V>>): TrackedSlice<V> {
    TrackedSlice(cur, NoChange())
  }

  function Items<V>(s: Option<seq<V>>): seq<V> {
    if s.None? then [] else s.value
  }

  datatype SliceOp<+V> =
    | Append(values: seq<V>)
    | SetAt(index: int, value: V)
    | UpdateAt(uindex: int, next: V)  // next is what the callback leaves in the element
    | RemoveAt(rindex: int)
    | SwapRemoveAt(sindex: int)
    | ReplaceAll(with: Option<seq<V>>)
    | ClearAll

  /** AppendX marks each value separately. */
  function AppendAll<V>(t: TrackedSlice<V>, values: seq<V>): TrackedSlice<V>
    decreases |values|
  {
    if values == [] then t
    else AppendAll(TrackedSlice(Some(Items(t.cur) + [values[0]]), MarkSliceAppend(t.ch, [values[0]])), values[1..])
  }

  function StoreAt<V(==)>(t: TrackedSlice<V>, index: int, value: V): (TrackedSlice<V>, bool) {
    if !(0 <= index < |Items(t.cur)|) || Items(t.cur)[index] == value then (t, false)
    else (TrackedSlice(Some(t.cur.value[index := value]), MarkSliceSet(t.ch, index, value)), true)
  }

  function Without<V>(s: seq<V>, index: nat): seq<V>
    requires index < |s|
  {
    s[..index] + s[index + 1..]
  }

  function SwapWithout<V>(s: seq<V>, index: nat): seq<V>
    requires index < |s|
  {
    s[index := s[|s| - 1]][..|s| - 1]
  }

  function ApplySlice<V(==)>(t: TrackedSlice<V>, op: SliceOp<V>): (TrackedSlice<V>, bool) {
    match op
    case Append(values) => (AppendAll(t, values), values != [])
    case SetAt(index, value) => StoreAt(t, index, value)
    case UpdateAt(index, next) => StoreAt(t, index, next)
    case RemoveAt(index) =>
      if !(0 <= index < |Items(t.cur)|) then (t, false)
      else (TrackedSlice(Some(Without(t.cur.value, index)), MarkSliceRemoveAt(t.ch, index)), true)
    case SwapRemoveAt(index) =>
      if !(0 <= index < |Items(t.cur)|) then (t, false)
      else (TrackedSlice(Some(SwapWithout(t.cur.value, index)), MarkSliceSwapRemoveAt(t.ch, index)), true)
    case ReplaceAll(with) =>
      if t.cur == with then (t, false) else (TrackedSlice(with, MarkFullReplace(t.ch)), true)
    case ClearAll =>
      if |Items(t.cur)| == 0 then (t, false) else (TrackedSlice(None, MarkFullReplace(t.ch)), true)
  }

  function ApplySliceOps<V(==)>(t: TrackedSlice<V>, ops: seq<SliceOp<V>>): TrackedSlice<V>
    decreases |ops|
  {
    if ops == [] then t else ApplySliceOps(ApplySlice(t, ops[0]).0, ops[1..])
  }

  /** Appends first, then the stored elements by index. */
  function ReplaySlice<V>(base: seq<V>, appended: seq<V>, stored: map<int, V>): seq<V> {
    var all := base + appended;
    seq(|all|, i requires 0 <= i < |all| => if i in stored then stored[i] else all[i])
  }

  predicate NoRemovals<V>(ch: Change<V>) {
    ch.sliceRemoveAt == [] && ch.sliceSwapRemoveAt == []
  }

  ghost predicate SliceLogInv<V>(base: Option<seq<V>>, t: TrackedSlice<V>) {
    !t.ch.fullReplace && NoRemovals(t.ch) ==>
      && |Items(t.cur)| == |Items(base) + t.ch.sliceAppend|
      && (forall i | 0 <= i < |Items(t.cur)| ::
            Items(t.cur)[i] == if i in t.ch.sliceSet then t.ch.sliceSet[i] else (Items(base) + t.ch.sliceAppend)[i])
      && (forall i | i in t.ch.sliceSet :: 0 <= i < |Items(t.cur)|)
      && (t.cur.None? <==> base.None? && t.ch.sliceAppend == [])
  }

  lemma AppendOneKeepsLog<V>(base: Option<seq<V>>, t: TrackedSlice<V>, value: V)
    requires SliceLogInv(base, t)
    ensures SliceLogInv(base, TrackedSlice(Some(Items(t.cur) + [value]), MarkSliceAppend(t.ch, [value])))
  {
    assert Items(base) + (t.ch.sliceAppend + [value]) == Items(base) + t.ch.sliceAppend + [value];
  }

  lemma {:induction false} AppendKeepsLog<V>(base: Option<seq<V>>, t: TrackedSlice<V>, values: seq<V>)
    requires SliceLogInv(base, t)
    ensures SliceLogInv(base, AppendAll(t, values))
    decreases |values|
  {
    if values != [] {
      AppendOneKeepsLog(base, t, values[0]);
      AppendKeepsLog(base, TrackedSlice(Some(Items(t.cur) + [values[0]]), MarkSliceAppend(t.ch, [values[0]])), values[1..]);
    }
  }

  lemma SliceOpKeepsLog<V>(base: Option<seq<V>>, t: TrackedSlice<V>, op: SliceOp<V>)
    requires SliceLogInv(base, t)
    ensures SliceLogInv(base, ApplySlice(t, op).0)
  {
    if op.Append? {
      AppendKeepsLog(base, t, op.values);
    }
  }

  lemma {:induction false} SliceRunKeepsLog<V>(base: Option<seq<V>>, t: TrackedSlice<V>, ops: seq<SliceOp<V>>)
    requires SliceLogInv(base, t)
    ensures SliceLogInv(base, ApplySliceOps(t, ops))
    decreases |ops|
  {
    if ops != [] {
      SliceOpKeepsLog(base, t, ops[0]);
      SliceRunKeepsLog(base, ApplySlice(t, ops[0]).0, ops[1..]);
    }
  }

  /** After ClearDirty and any sequence of operations, a slice log that shows neither FullReplace nor a
      removal replays to the current slice. */
  lemma SliceLogReplays<V>(base: Option<seq<V>>, ops: seq<SliceOp<V>>)
    ensures var t := ApplySliceOps(ClearedSlice(base), ops);
            !t.ch.fullReplace && NoRemovals(t.ch) ==>
              && ReplaySlice(Items(base), t.ch.sliceAppend, t.ch.sliceSet) == Items(t.cur)
              && (t.cur.None? <==> base.None? && t.ch.sliceAppend == [])
  {
    SliceRunKeepsLog(base, ClearedSlice(base), ops);
  }

  /** With a removal the log is ambiguous: storing into the removed element and storing after the removal
      leave the same log behind different slices, so no reader of the log can be right about both. */
  lemma RemovalLogAmbiguous()
    ensures var base := Some(['a', 'b']);
            var t := ApplySliceOps(ClearedSlice(base), [SetAt(0, 'x'), RemoveAt(0)]);
            var u := ApplySliceOps(ClearedSlice(base), [RemoveAt(0), SetAt(0, 'x')]);
            t.ch == u.ch && t.cur == Some(['b']) && u.cur == Some(['x'])
  {
    var store: SliceOp<char>, remove: SliceOp<char> := SetAt(0, 'x'), RemoveAt(0);
    assert [store, remove][1..] == [remove] && [remove, store][1..] == [store];
    assert [store][1..] == [] && [remove][1..] == [];
    var base := ClearedSlice(Some(['a', 'b']));
    var t1, u1 := ApplySlice(base, store).0, ApplySlice(base, remove).0;
    assert t1.cur.value == ['x', 'b'] && u1.cur.value == ['b'];
    var t2, u2 := ApplySlice(t1, remove).0, ApplySlice(u1, store).0;
    assert t2.cur.value == ['b'] && u2.cur.value == ['x'];
    assert t2.ch == u2.ch;
    assert ApplySliceOps(t1, [remove]) == t2 && ApplySliceOps(u1, [store]) == u2;
  }
}
