/** What the operations on tracked collections do to the collection itself, apart from the log, and which
    part of the log each of them writes. */
module CollectionContents {
  import opened Wrappers
  import opened Decimal
  import opened ChangeLog

  // ---------- Maps ----------

  /** The entries stored one after the other. */
  function Overlay<V>(m: map<int, V>, entries: seq<(int, V)>): map<int, V> {
    if entries == [] then m
    else Overlay(m, entries[..|entries| - 1])[entries[|entries| - 1].0 := entries[|entries| - 1].1]
  }

  lemma {:induction false} OverlayFirst<V>(m: map<int, V>, entries: seq<(int, V)>)
    requires entries != []
    ensures Overlay(m, entries) == Overlay(m[entries[0].0 := entries[0].1], entries[1..])
  {
    if |entries| > 1 {
      var before, last := entries[..|entries| - 1], entries[|entries| - 1];
      OverlayFirst(m, before);
      assert entries[1..][..|entries| - 2] == before[1..];
    } else {
      assert entries[1..] == [] && entries[..0] == [];
    }
  }

  /** Every key the entries name has the value of the last one that names it, and the other keys are as before. */
  lemma {:induction false} OverlayEntries<V>(m: map<int, V>, entries: seq<(int, V)>)
    ensures forall k :: k in Overlay(m, entries) <==> k in m || exists i :: 0 <= i < |entries| && entries[i].0 == k
    ensures forall i :: 0 <= i < |entries| && (forall j :: i < j < |entries| ==> entries[j].0 != entries[i].0) ==>
      entries[i].0 in Overlay(m, entries) && Overlay(m, entries)[entries[i].0] == entries[i].1
    ensures forall k :: k in m && (forall i :: 0 <= i < |entries| ==> entries[i].0 != k) ==>
      k in Overlay(m, entries) && Overlay(m, entries)[k] == m[k]
    decreases |entries|
  {
    if entries != [] {
      var before := entries[..|entries| - 1];
      OverlayEntries(m, before);
      assert forall i :: 0 <= i < |before| ==> before[i] == entries[i];
    }
  }

  /** The operation on a plain map. Only the distinction between nil and empty goes beyond the entries. */
  function Stored<V>(m: Option<map<int, V>>, op: MapOp<V>): Option<map<int, V>> {
    match op
    case Put(key, value) => Some(Contents(m)[key := value])
    case PutMany(entries) => if entries == [] then m else Some(Overlay(Contents(m), entries))
    case Update(key, next) => if key in Contents(m) then Some(Contents(m)[key := next]) else m
    case Del(key) => if m.Some? then Some(m.value - {key}) else None
    case DelMany(keys) => if m.Some? then Some(m.value - set k | k in keys) else None
    case Replace(with) => with
    case Clear => if Contents(m) == map[] then m else None
  }

  /** Whether the operation finds something to do, which is what it returns. */
  predicate Applies<V>(m: Option<map<int, V>>, op: MapOp<V>) {
    match op
    case Put(_, _) => true
    case PutMany(entries) => entries != []
    case Update(key, _) => key in Contents(m)
    case Del(key) => key in Contents(m)
    case DelMany(keys) => exists i :: 0 <= i < |keys| && keys[i] in Contents(m)
    case Replace(with) => m.Some? || with.Some?
    case Clear => Contents(m) != map[]
  }

  lemma {:induction false} PutAllContents<V>(t: TrackedMap<V>, entries: seq<(int, V)>)
    requires entries != []
    ensures PutAll(t, entries).cur == Some(Overlay(Contents(t.cur), entries))
    decreases |entries|
  {
    OverlayFirst(Contents(t.cur), entries);
    if |entries| > 1 {
      PutAllContents(PutOne(t, entries[0].0, entries[0].1), entries[1..]);
    }
  }

  lemma {:induction false} DelAllContents<V>(t: TrackedMap<V>, keys: seq<int>)
    ensures DelAll(t, keys).cur == Stored(t.cur, DelMany(keys))
    decreases |keys|
  {
    if keys == [] {
      if t.cur.Some? {
        assert t.cur.value - {} == t.cur.value;
        assert (set k | k in keys) == {};
      }
    } else {
      var present := keys[0] in Contents(t.cur);
      var t1 := if present then DelOne(t, keys[0]) else t;
      DelAllContents(t1, keys[1..]);
      if t.cur.Some? {
        assert t1.cur.Some?;
        assert t1.cur.value - (set k | k in keys[1..]) == t.cur.value - set k | k in keys;
      }
    }
  }

  /** Without anything to do the map stays as it was. */
  lemma NothingToDo<V>(m: Option<map<int, V>>, op: MapOp<V>)
    requires !Applies(m, op)
    ensures Stored(m, op) == m
  {
    if m.Some? {
      match op
      case Del(key) => assert m.value - {key} == m.value;
      case DelMany(keys) => assert m.value - (set k | k in keys) == m.value;
      case _ =>
    }
  }

  /** An operation leaves in the tracked map what it leaves in a plain one. */
  lemma MapContents<V>(t: TrackedMap<V>, op: MapOp<V>)
    ensures ApplyMap(t, op).0.cur == Stored(t.cur, op)
    ensures ApplyMap(t, op).1 <==> Applies(t.cur, op)
  {
    match op
    case PutMany(entries) => if entries != [] { PutAllContents(t, entries); }
    case DelMany(keys) => DelAllContents(t, keys);
    case Del(key) => if t.cur.Some? && key !in t.cur.value { assert t.cur.value - {key} == t.cur.value; }
    case _ =>
  }

  function StoredAll<V>(m: Option<map<int, V>>, ops: seq<MapOp<V>>): Option<map<int, V>>
    decreases |ops|
  {
    if ops == [] then m else StoredAll(Stored(m, ops[0]), ops[1..])
  }

  /** So does any run of operations. */
  lemma {:induction false} MapRunContents<V>(t: TrackedMap<V>, ops: seq<MapOp<V>>)
    ensures ApplyMapOps(t, ops).cur == StoredAll(t.cur, ops)
    decreases |ops|
  {
    if ops != [] {
      MapContents(t, ops[0]);
      MapRunContents(ApplyMap(t, ops[0]).0, ops[1..]);
    }
  }

  // ---------- What a map operation writes to the log ----------

  /** The keys an operation speaks of. */
  predicate Names<V>(op: MapOp<V>, k: int) {
    match op
    case Put(key, _) => k == key
    case PutMany(entries) => exists i :: 0 <= i < |entries| && entries[i].0 == k
    case Update(key, _) => k == key
    case Del(key) => k == key
    case DelMany(keys) => k in keys
    case _ => true
  }

  predicate Swaps<V>(op: MapOp<V>) {
    op.Replace? || op.Clear?
  }

  /** The log says the same of key `k`. */
  ghost predicate SameOf<V>(t: TrackedMap<V>, t': TrackedMap<V>, k: int) {
    && (k in t'.childDirty <==> k in t.childDirty)
    && (Sprint(k) in t'.ch.mapDelete <==> Sprint(k) in t.ch.mapDelete)
    && (Sprint(k) in t'.ch.mapSet <==> Sprint(k) in t.ch.mapSet)
    && (Sprint(k) in t.ch.mapSet ==> t'.ch.mapSet[Sprint(k)] == t.ch.mapSet[Sprint(k)])
  }

  lemma PutSameOf<V>(t: TrackedMap<V>, key: int, value: V, k: int)
    requires k != key
    ensures SameOf(t, PutOne(t, key, value), k)
  {
    SprintDistinct();
  }

  lemma DelSameOf<V>(t: TrackedMap<V>, key: int, k: int)
    requires k != key && key in Contents(t.cur)
    ensures SameOf(t, DelOne(t, key), k)
  {
    SprintDistinct();
  }

  lemma {:induction false} PutAllSameOf<V>(t: TrackedMap<V>, entries: seq<(int, V)>, k: int)
    requires forall i :: 0 <= i < |entries| ==> entries[i].0 != k
    ensures SameOf(t, PutAll(t, entries), k) && PutAll(t, entries).ch.fullReplace == t.ch.fullReplace
    decreases |entries|
  {
    if entries != [] {
      PutSameOf(t, entries[0].0, entries[0].1, k);
      PutAllSameOf(PutOne(t, entries[0].0, entries[0].1), entries[1..], k);
    }
  }

  lemma {:induction false} DelAllSameOf<V>(t: TrackedMap<V>, keys: seq<int>, k: int)
    requires k !in keys
    ensures SameOf(t, DelAll(t, keys), k) && DelAll(t, keys).ch.fullReplace == t.ch.fullReplace
    decreases |keys|
  {
    if keys != [] {
      if keys[0] in Contents(t.cur) {
        DelSameOf(t, keys[0], k);
        DelAllSameOf(DelOne(t, keys[0]), keys[1..], k);
      } else {
        DelAllSameOf(t, keys[1..], k);
      }
    }
  }

  /** No operation but Replace and Clear writes anything about a key it does not name. */
  lemma OnlyNamedKeys<V>(t: TrackedMap<V>, op: MapOp<V>, k: int)
    requires !Names(op, k)
    ensures SameOf(t, ApplyMap(t, op).0, k)
  {
    match op
    case Put(key, value) => PutSameOf(t, key, value, k);
    case PutMany(entries) => PutAllSameOf(t, entries, k);
    case Del(key) => if key in Contents(t.cur) { DelSameOf(t, key, k); }
    case DelMany(keys) => DelAllSameOf(t, keys, k);
    case _ =>
  }

  /** The log has the key with this value, or, for None, as deleted. */
  ghost predicate LoggedAs<V>(ch: Change<V>, key: string, value: Option<V>) {
    match value
    case Some(v) => key in ch.mapSet && ch.mapSet[key] == v && key !in ch.mapDelete
    case None => key in ch.mapDelete && key !in ch.mapSet
  }

  /** Put logs the key with its value and takes back a deletion, Update logs the key alone, Del logs the
      deletion and takes back the value. */
  lemma NamedKeyLogged<V>(t: TrackedMap<V>, op: MapOp<V>)
    requires !t.ch.fullReplace && Applies(t.cur, op)
    ensures var t' := ApplyMap(t, op).0;
      && (op.Put? ==> op.key in t'.childDirty && LoggedAs(t'.ch, Sprint(op.key), Some(op.value)))
      && (op.Update? ==> op.ukey in t'.childDirty && t'.ch == t.ch)
      && (op.Del? ==> op.dkey !in t'.childDirty && LoggedAs(t'.ch, Sprint(op.dkey), None))
  {
  }

  lemma {:induction false} PutAllFull<V>(t: TrackedMap<V>, entries: seq<(int, V)>)
    ensures PutAll(t, entries).ch.fullReplace == t.ch.fullReplace
    decreases |entries|
  {
    if entries != [] {
      PutAllFull(PutOne(t, entries[0].0, entries[0].1), entries[1..]);
    }
  }

  lemma {:induction false} DelAllFull<V>(t: TrackedMap<V>, keys: seq<int>)
    ensures DelAll(t, keys).ch.fullReplace == t.ch.fullReplace
    decreases |keys|
  {
    if keys != [] {
      DelAllFull(if keys[0] in Contents(t.cur) then DelOne(t, keys[0]) else t, keys[1..]);
    }
  }

  /** The log gives up exactly at a Replace or Clear that does something. */
  lemma FullReplaceExactly<V>(t: TrackedMap<V>, op: MapOp<V>)
    ensures ApplyMap(t, op).0.ch.fullReplace <==> t.ch.fullReplace || (Swaps(op) && Applies(t.cur, op))
  {
    match op
    case PutMany(entries) => PutAllFull(t, entries);
    case DelMany(keys) => DelAllFull(t, keys);
    case _ =>
  }

  /** So a run without Replace and Clear always leaves a log that can be replayed. */
  lemma {:induction false} RunWithoutSwaps<V>(t: TrackedMap<V>, ops: seq<MapOp<V>>)
    requires !t.ch.fullReplace && forall i :: 0 <= i < |ops| ==> !Swaps(ops[i])
    ensures !ApplyMapOps(t, ops).ch.fullReplace
    decreases |ops|
  {
    if ops != [] {
      FullReplaceExactly(t, ops[0]);
      RunWithoutSwaps(ApplyMap(t, ops[0]).0, ops[1..]);
    }
  }

  // ---------- Slices ----------

  predicate Within<V>(s: Option<seq<V>>, i: int) {
    0 <= i < |Items(s)|
  }

  /** The slice with the last element in the place of the one taken out. */
  function SwappedOut<V>(s: seq<V>, i: nat): seq<V>
    requires i < |s|
  {
    var short := s[..|s| - 1];
    if i == |s| - 1 then short else short[i := s[|s| - 1]]
  }

  function Kept<V>(s: Option<seq<V>>, op: SliceOp<V>): Option<seq<V>> {
    match op
    case Append(values) => if values == [] then s else Some(Items(s) + values)
    case SetAt(i, value) => if Within(s, i) then Some(Items(s)[i := value]) else s
    case UpdateAt(i, next) => if Within(s, i) then Some(Items(s)[i := next]) else s
    case RemoveAt(i) => if Within(s, i) then Some(Items(s)[..i] + Items(s)[i + 1..]) else s
    case SwapRemoveAt(i) => if Within(s, i) then Some(SwappedOut(Items(s), i)) else s
    case ReplaceAll(with) => with
    case ClearAll => if Items(s) == [] then s else None
  }

  predicate Alters<V(==)>(s: Option<seq<V>>, op: SliceOp<V>) {
    match op
    case Append(values) => values != []
    case SetAt(i, value) => Within(s, i) && Items(s)[i] != value
    case UpdateAt(i, next) => Within(s, i) && Items(s)[i] != next
    case RemoveAt(i) => Within(s, i)
    case SwapRemoveAt(i) => Within(s, i)
    case ReplaceAll(with) => s != with
    case ClearAll => Items(s) != []
  }

  lemma {:induction false} AppendAllItems<V>(t: TrackedSlice<V>, values: seq<V>)
    ensures AppendAll(t, values).cur == if values == [] then t.cur else Some(Items(t.cur) + values)
    ensures AppendAll(t, values).ch.fullReplace == t.ch.fullReplace
    decreases |values|
  {
    if values != [] {
      var t1 := TrackedSlice(Some(Items(t.cur) + [values[0]]), MarkSliceAppend(t.ch, [values[0]]));
      AppendAllItems(t1, values[1..]);
      assert values == [values[0]] + values[1..];
      assert Items(t.cur) + [values[0]] + values[1..] == Items(t.cur) + values;
      if |values| == 1 {
        assert values == [values[0]];
      }
    }
  }

  lemma StoreChanges<V>(s: seq<V>, i: nat, v: V)
    requires i < |s|
    ensures s[i := v] == s <==> s[i] == v
  {
    assert s[i := v][i] == v;
    if s[i] == v {
      assert s[i := v] == s;
    }
  }

  /** An operation leaves in the tracked slice what it leaves in a plain one; it reports a change exactly if
      it makes one, and the log gives up exactly at a replacement that makes one. */
  lemma SliceItems<V>(t: TrackedSlice<V>, op: SliceOp<V>)
    ensures ApplySlice(t, op).0.cur == Kept(t.cur, op)
    ensures ApplySlice(t, op).1 <==> Alters(t.cur, op)
    ensures ApplySlice(t, op).1 <==> Kept(t.cur, op) != t.cur
    ensures ApplySlice(t, op).0.ch.fullReplace <==>
      t.ch.fullReplace || ((op.ReplaceAll? || op.ClearAll?) && Alters(t.cur, op))
  {
    match op
    case Append(values) => AppendAllItems(t, values);
    case RemoveAt(i) => if Within(t.cur, i) { assert |Kept(t.cur, op).value| == |Items(t.cur)| - 1; }
    case SwapRemoveAt(i) =>
      if Within(t.cur, i) {
        assert SwapWithout(Items(t.cur), i) == SwappedOut(Items(t.cur), i);
        assert |Kept(t.cur, op).value| == |Items(t.cur)| - 1;
      }
    case SetAt(i, value) =>
      if Within(t.cur, i) { StoreChanges(Items(t.cur), i, value); }
    case UpdateAt(i, next) =>
      if Within(t.cur, i) { StoreChanges(Items(t.cur), i, next); }
    case _ =>
  }

  function KeptAll<V>(s: Option<seq<V>>, ops: seq<SliceOp<V>>): Option<seq<V>>
    decreases |ops|
  {
    if ops == [] then s else KeptAll(Kept(s, ops[0]), ops[1..])
  }

  lemma {:induction false} SliceRunItems<V>(t: TrackedSlice<V>, ops: seq<SliceOp<V>>)
    ensures ApplySliceOps(t, ops).cur == KeptAll(t.cur, ops)
    decreases |ops|
  {
    if ops != [] {
      SliceItems(t, ops[0]);
      SliceRunItems(ApplySlice(t, ops[0]).0, ops[1..]);
    }
  }

  // ---------- Removals alone ----------

  /** The elements taken out at these indexes, one after the other. */
  function Cut<V>(s: seq<V>, at: seq<int>, swap: bool): seq<V> {
    if at == [] then s
    else
      var before, i := Cut(s, at[..|at| - 1], swap), at[|at| - 1];
      if !(0 <= i < |before|) then before
      else if swap then SwappedOut(before, i) else before[..i] + before[i + 1..]
  }

  function RemovalLog<V>(ch: Change<V>, swap: bool): seq<int> {
    if swap then ch.sliceSwapRemoveAt else ch.sliceRemoveAt
  }

  /** With removals of one sort alone the log of indexes, read in order, leads to the current slice. */
  lemma {:induction false} RemovalsReplay<V>(base: seq<V>, t: TrackedSlice<V>, ops: seq<SliceOp<V>>, swap: bool)
    requires !t.ch.fullReplace && t.cur == Some(Cut(base, RemovalLog(t.ch, swap), swap))
    requires forall i :: 0 <= i < |ops| ==> if swap then ops[i].SwapRemoveAt? else ops[i].RemoveAt?
    ensures var t' := ApplySliceOps(t, ops);
      !t'.ch.fullReplace && t'.cur == Some(Cut(base, RemovalLog(t'.ch, swap), swap))
    decreases |ops|
  {
    if ops != [] {
      var t1 := ApplySlice(t, ops[0]).0;
      SliceItems(t, ops[0]);
      var log, log1 := RemovalLog(t.ch, swap), RemovalLog(t1.ch, swap);
      if Alters(t.cur, ops[0]) {
        assert log1[..|log1| - 1] == log;
      }
      RemovalsReplay(base, t1, ops[1..], swap);
    }
  }

  lemma RemovalsFromCleared<V>(base: seq<V>, ops: seq<SliceOp<V>>, swap: bool)
    requires forall i :: 0 <= i < |ops| ==> if swap then ops[i].SwapRemoveAt? else ops[i].RemoveAt?
    ensures var t := ApplySliceOps(ClearedSlice(Some(base)), ops);
      t.cur == Some(Cut(base, RemovalLog(t.ch, swap), swap))
  {
    RemovalsReplay(base, ClearedSlice(Some(base)), ops, swap);
  }
}
