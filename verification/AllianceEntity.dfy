/** The generated alliance entity: in-place setters and collection operations that keep the trace `_dt`.
    Class `AllianceEntity` changes its fields step by step; `Apply` says what one operation does to the
    value of the whole entity, and the methods are proved against it. Children are held by value: a child
    is only reachable through the callback of an Update. */
module Alliance {
  import opened Wrappers
  import opened Decimal
  import opened ChangeLog
  import opened CollectionContents

  datatype MajorState = MajorState(id: int, name: string, title: int)
  datatype ApplyItemState = ApplyItemState(playerId: int, nick: string)

  datatype AllianceState = AllianceState(
    id: int,
    worldId: int,
    name: string,
    notice: string,
    majors: Option<map<int, MajorState>>,
    applyList: Option<seq<ApplyItemState>>)

  datatype Field = FieldId | FieldWorldId | FieldName | FieldNotice | FieldMajors | FieldApplyList

  /** The value of an entity, trace included. */
  datatype Model = Model(
    id: int,
    worldId: int,
    name: string,
    notice: string,
    majors: TrackedMap<MajorState>,
    applyList: TrackedSlice<ApplyItemState>,
    dirty: bool,
    trace: set<Field>)

  datatype Op =
    | SetId(id: int)
    | SetWorldId(worldId: int)
    | SetName(name: string)
    | SetNotice(notice: string)
    | Majors(m: MapOp<MajorState>)
    | ApplyList(s: SliceOp<ApplyItemState>)

  function Save(e: Model): AllianceState {
    AllianceState(e.id, e.worldId, e.name, e.notice, e.majors.cur, e.applyList.cur)
  }

  function Hydrate(s: AllianceState): Model {
    Model(s.id, s.worldId, s.name, s.notice, ClearedMap(s.majors), ClearedSlice(s.applyList), false, {})
  }

  function ClearDirty(e: Model): Model {
    e.(majors := ClearedMap(e.majors.cur), applyList := ClearedSlice(e.applyList.cur), dirty := false, trace := {})
  }

  function Mark(e: Model, f: Field): Model {
    e.(dirty := true, trace := e.trace + {f})
  }

  /** The entity after an operation and what the operation returns. */
  function Apply(e: Model, op: Op): (Model, bool) {
    match op
    case SetId(v) => if e.id == v then (e, false) else (Mark(e.(id := v), FieldId), true)
    case SetWorldId(v) => if e.worldId == v then (e, false) else (Mark(e.(worldId := v), FieldWorldId), true)
    case SetName(v) => if e.name == v then (e, false) else (Mark(e.(name := v), FieldName), true)
    case SetNotice(v) => if e.notice == v then (e, false) else (Mark(e.(notice := v), FieldNotice), true)
    case Majors(m) =>
      var (t, ok) := ApplyMap(e.majors, m);
      (if ok then Mark(e.(majors := t), FieldMajors) else e, ok)
    case ApplyList(s) =>
      var (t, ok) := ApplySlice(e.applyList, s);
      (if ok then Mark(e.(applyList := t), FieldApplyList) else e, ok)
  }

  /** Every entry stored and marked on its own. */
  function PutEach(e: Model, entries: seq<(int, MajorState)>): Model
    decreases |entries|
  {
    if entries == [] then e
    else PutEach(Mark(e.(majors := PutOne(e.majors, entries[0].0, entries[0].1)), FieldMajors), entries[1..])
  }

  lemma {:induction false} PutEachIs(e: Model, entries: seq<(int, MajorState)>)
    requires entries != []
    ensures PutEach(e, entries) == Mark(e.(majors := PutAll(e.majors, entries)), FieldMajors)
    decreases |entries|
  {
    if |entries| > 1 {
      PutEachIs(Mark(e.(majors := PutOne(e.majors, entries[0].0, entries[0].1)), FieldMajors), entries[1..]);
    }
  }

  /** The dirty flag is complete: an operation that changes what Save returns reports a change and leaves
      the entity dirty, the field it changed is in the trace, and no operation clears the flag. */
  lemma DirtyIsComplete(e: Model, op: Op)
    ensures var (e', ok) := Apply(e, op);
            && (Save(e') != Save(e) ==> ok)
            && (ok ==> e'.dirty)
            && (e.dirty ==> e'.dirty)
            && e.trace <= e'.trace
            && (e'.id != e.id ==> FieldId in e'.trace)
            && (e'.worldId != e.worldId ==> FieldWorldId in e'.trace)
            && (e'.name != e.name ==> FieldName in e'.trace)
            && (e'.notice != e.notice ==> FieldNotice in e'.trace)
            && (Save(e').majors != Save(e).majors ==> FieldMajors in e'.trace)
            && (Save(e').applyList != Save(e).applyList ==> FieldApplyList in e'.trace)
  {
  }

  /** What an operation leaves in the saved form: the argument in its field, the collection as a plain one
      after the same operation, and everything else as it was. */
  function Saved(s: AllianceState, op: Op): AllianceState {
    match op
    case SetId(v) => s.(id := v)
    case SetWorldId(v) => s.(worldId := v)
    case SetName(v) => s.(name := v)
    case SetNotice(v) => s.(notice := v)
    case Majors(m) => s.(majors := Stored(s.majors, m))
    case ApplyList(l) => s.(applyList := Kept(s.applyList, l))
  }

  function FieldOf(op: Op): Field {
    match op
    case SetId(_) => FieldId
    case SetWorldId(_) => FieldWorldId
    case SetName(_) => FieldName
    case SetNotice(_) => FieldNotice
    case Majors(_) => FieldMajors
    case ApplyList(_) => FieldApplyList
  }

  /** Whether there is anything to do; a map operation may store what is there already. */
  predicate Works(s: AllianceState, op: Op) {
    if op.Majors? then Applies(s.majors, op.m) else Saved(s, op) != s
  }

  /** An operation changes the saved form as meant, reports whether there was anything to do, and marks its
      own field exactly then. */
  lemma ApplyMeans(e: Model, op: Op)
    ensures var (e', ok) := Apply(e, op);
      && Save(e') == Saved(Save(e), op)
      && ok == Works(Save(e), op)
      && e'.dirty == (e.dirty || ok) && e'.trace == e.trace + (if ok then {FieldOf(op)} else {})
  {
    match op
    case Majors(m) =>
      MapContents(e.majors, m);
      if !Applies(e.majors.cur, m) {
        NothingToDo(e.majors.cur, m);
      }
    case ApplyList(l) => SliceItems(e.applyList, l);
    case _ =>
  }

  function ApplyAll(e: Model, ops: seq<Op>): Model
    decreases |ops|
  {
    if ops == [] then e else ApplyAll(Apply(e, ops[0]).0, ops[1..])
  }

  function SavedAll(s: AllianceState, ops: seq<Op>): AllianceState
    decreases |ops|
  {
    if ops == [] then s else SavedAll(Saved(s, ops[0]), ops[1..])
  }

  /** Over any run of operations the saved form is that of a plain record under them, and only the fields of
      operations that occurred are marked. */
  lemma {:induction false} RunMeans(e: Model, ops: seq<Op>)
    ensures Save(ApplyAll(e, ops)) == SavedAll(Save(e), ops)
    ensures forall f :: f in ApplyAll(e, ops).trace ==> f in e.trace || exists i :: 0 <= i < |ops| && FieldOf(ops[i]) == f
    decreases |ops|
  {
    if ops != [] {
      var e1 := Apply(e, ops[0]).0;
      ApplyMeans(e, ops[0]);
      RunMeans(e1, ops[1..]);
      forall f | f in ApplyAll(e, ops).trace
        ensures f in e.trace || exists i :: 0 <= i < |ops| && FieldOf(ops[i]) == f
      {
        if f !in e.trace && f != FieldOf(ops[0]) {
          var i :| 0 <= i < |ops[1..]| && FieldOf(ops[1..][i]) == f;
          assert FieldOf(ops[i + 1]) == f;
        }
      }
    }
  }

  /** An entity hydrated from a saved state saves to that state and is clean. */
  lemma HydrateSave(s: AllianceState, e: Model)
    ensures Save(Hydrate(s)) == s && !Hydrate(s).dirty
    ensures Hydrate(Save(e)) == ClearDirty(e)
  {
  }

  class AllianceEntity {
    var id: int
    var worldId: int
    var name: string
    var notice: string
    var majors: Option<map<int, MajorState>>
    var applyList: Option<seq<ApplyItemState>>
    // the trace _dt
    var dirty: bool
    var trace: set<Field>
    var majorsChange: Change<MajorState>
    var applyListChange: Change<ApplyItemState>
    var childDirtyMajors: set<int>

    ghost function View(): Model
      reads this
    {
      Model(id, worldId, name, notice, TrackedMap(majors, majorsChange, childDirtyMajors),
            TrackedSlice(applyList, applyListChange), dirty, trace)
    }

    constructor (s: AllianceState)
      ensures View() == Hydrate(s)
    {
      id, worldId, name, notice := s.id, s.worldId, s.name, s.notice;
      majors, applyList := s.majors, s.applyList;
      dirty, trace, childDirtyMajors := false, {}, {};
      majorsChange, applyListChange := NoChange(), NoChange();
    }

    method MarkField(f: Field)
      modifies `dirty, `trace
      ensures View() == Mark(old(View()), f)
    {
      dirty := true;
      trace := trace + {f};
    }

    method ClearTrace()
      modifies this
      ensures View() == ClearDirty(old(View()))
    {
      dirty, trace, childDirtyMajors := false, {}, {};
      majorsChange, applyListChange := NoChange(), NoChange();
    }

    method SetNameTo(v: string) returns (ok: bool)
      modifies this
      ensures (View(), ok) == Apply(old(View()), SetName(v))
      ensures name == v && ok == (old(name) != v)
    {
      if name == v {
        return false;
      }
      name := v;
      MarkField(FieldName);
      ok := true;
    }

    /** The statements Put and PutMany share. */
    method StoreMajor(key: int, value: MajorState)
      requires majors.Some?
      modifies this
      ensures View() == Mark(old(View()).(majors := PutOne(old(View()).majors, key, value)), FieldMajors)
    {
      majors := Some(majors.value[key := value]);
      majorsChange := MarkMapSet(majorsChange, Sprint(key), value);
      MarkField(FieldMajors);
      childDirtyMajors := childDirtyMajors + {key};
    }

    /** The statements Del and DelMany share. */
    method DropMajor(key: int)
      requires majors.Some? && key in majors.value
      modifies this
      ensures View() == Mark(old(View()).(majors := DelOne(old(View()).majors, key)), FieldMajors)
    {
      majors := Some(majors.value - {key});
      majorsChange := MarkMapDelete(majorsChange, Sprint(key));
      MarkField(FieldMajors);
      childDirtyMajors := childDirtyMajors - {key};
    }

    method PutMajors(key: int, value: MajorState) returns (ok: bool)
      modifies this
      ensures (View(), ok) == Apply(old(View()), Majors(Put(key, value)))
      ensures ok && majors == Some(old(Contents(majors))[key := value])
    {
      if majors.None? {
        majors := Some(map[]);
      }
      StoreMajor(key, value);
      ok := true;
    }

    /** The argument map is given in the order it is ranged over. */
    method PutMajorsMany(entries: seq<(int, MajorState)>) returns (changed: bool)
      modifies this
      ensures (View(), changed) == Apply(old(View()), Majors(PutMany(entries)))
      ensures majors == (if entries == [] then old(majors) else Some(Overlay(old(Contents(majors)), entries)))
    {
      MapContents(View().majors, PutMany(entries));
      if |entries| == 0 {
        return false;
      }
      ghost var goal := PutEach(View(), entries);
      PutEachIs(View(), entries);
      if majors.None? {
        majors := Some(map[]);
      }
      changed := false;
      for i := 0 to |entries|
        invariant majors.Some?
        invariant PutEach(View(), entries[i..]) == goal
        invariant changed <==> i > 0
      {
        assert entries[i..][1..] == entries[i + 1..];
        StoreMajor(entries[i].0, entries[i].1);
        changed := true;
      }
    }

    /** `fn` is the callback, as a function on the saved form of the child. */
    method UpdateMajors(key: int, fn: MajorState -> MajorState) returns (ok: bool)
      modifies this
      ensures key in old(Contents(majors)) ==>
                (View(), ok) == Apply(old(View()), Majors(Update(key, fn(old(majors).value[key]))))
      ensures key !in old(Contents(majors)) ==> View() == old(View()) && !ok
      ensures ok == (key in old(Contents(majors)))
      ensures ok ==> majors == Some(old(majors).value[key := fn(old(majors).value[key])])
    {
      if majors.None? || key !in majors.value {
        return false;
      }
      majors := Some(majors.value[key := fn(majors.value[key])]);
      MarkField(FieldMajors);
      childDirtyMajors := childDirtyMajors + {key};
      ok := true;
    }

    method DelMajors(key: int) returns (ok: bool)
      modifies this
      ensures (View(), ok) == Apply(old(View()), Majors(Del(key)))
      ensures ok == (key in old(Contents(majors))) && Contents(majors) == old(Contents(majors)) - {key}
    {
      if majors.None? || key !in majors.value {
        return false;
      }
      DropMajor(key);
      ok := true;
    }

    method DelMajorsMany(keys: seq<int>) returns (changed: bool)
      modifies this
      ensures (View(), changed) == Apply(old(View()), Majors(DelMany(keys)))
      ensures Contents(majors) == old(Contents(majors)) - set k | k in keys
    {
      MapContents(View().majors, DelMany(keys));
      DelAllOnlyPresent(View().majors, keys);
      if majors.None? || |keys| == 0 {
        return false;
      }
      changed := false;
      ghost var goal := DelAll(View().majors, keys);
      for i := 0 to |keys|
        invariant majors.Some?
        invariant DelAll(View().majors, keys[i..]) == goal
        invariant !changed ==> View() == old(View()) && forall j | 0 <= j < i :: keys[j] !in old(majors).value
        invariant changed ==> View() == Mark(old(View()).(majors := View().majors), FieldMajors)
        invariant changed ==> exists j :: 0 <= j < i && keys[j] in old(majors).value
      {
        assert keys[i..][1..] == keys[i + 1..];
        if keys[i] in majors.value {
          assert !changed ==> keys[i] in old(majors).value;
          DropMajor(keys[i]);
          changed := true;
        }
      }
      assert keys[|keys|..] == [] && View().majors == goal;
    }

    method ReplaceMajors(v: Option<map<int, MajorState>>) returns (ok: bool)
      modifies this
      ensures (View(), ok) == Apply(old(View()), Majors(Replace(v)))
      ensures majors == v && ok == (old(majors).Some? || v.Some?)
    {
      if majors.None? && v.None? {
        return false;
      }
      majors := v;
      MarkField(FieldMajors);
      majorsChange := MarkFullReplace(majorsChange);
      ok := true;
    }

    method ClearMajors() returns (ok: bool)
      modifies this
      ensures (View(), ok) == Apply(old(View()), Majors(Clear))
      ensures Contents(majors) == map[] && ok == (old(Contents(majors)) != map[])
    {
      if majors.None? || |majors.value| == 0 {
        return false;
      }
      majors := None;
      MarkField(FieldMajors);
      majorsChange := MarkFullReplace(majorsChange);
      childDirtyMajors := {};
      ok := true;
    }

    method AppendApplyList(values: seq<ApplyItemState>) returns (ok: bool)
      modifies this
      ensures (View(), ok) == Apply(old(View()), ApplyList(Append(values)))
      ensures Items(applyList) == Items(old(applyList)) + values
    {
      SliceItems(View().applyList, Append(values));
      if |values| == 0 {
        return false;
      }
      ghost var goal := AppendAll(View().applyList, values);
      for i := 0 to |values|
        invariant AppendAll(View().applyList, values[i..]) == goal
        invariant i == 0 ==> View() == old(View())
        invariant i > 0 ==> View() == Mark(old(View()).(applyList := View().applyList), FieldApplyList)
      {
        assert values[i..][1..] == values[i + 1..];
        applyList := Some((if applyList.None? then [] else applyList.value) + [values[i]]);
        MarkField(FieldApplyList);
        applyListChange := MarkSliceAppend(applyListChange, [values[i]]);
      }
      ok := true;
    }

    method SetApplyListAt(index: int, value: ApplyItemState) returns (ok: bool)
      modifies this
      ensures (View(), ok) == Apply(old(View()), ApplyList(SetAt(index, value)))
      ensures applyList == Kept(old(applyList), SetAt(index, value))
    {
      SliceItems(View().applyList, SetAt(index, value));
      if applyList.None? || index < 0 || index >= |applyList.value| {
        return false;
      }
      if applyList.value[index] == value {
        return false;
      }
      applyList := Some(applyList.value[index := value]);
      MarkField(FieldApplyList);
      applyListChange := MarkSliceSet(applyListChange, index, value);
      ok := true;
    }

    method UpdateApplyListAt(index: int, fn: ApplyItemState -> ApplyItemState) returns (ok: bool)
      modifies this
      ensures 0 <= index < |Items(old(applyList))| ==>
                (View(), ok) == Apply(old(View()), ApplyList(UpdateAt(index, fn(old(applyList).value[index]))))
      ensures !(0 <= index < |Items(old(applyList))|) ==> View() == old(View()) && !ok
      ensures 0 <= index < |Items(old(applyList))| ==>
                applyList == Some(old(applyList).value[index := fn(old(applyList).value[index])])
    {
      if applyList.None? || index < 0 || index >= |applyList.value| {
        return false;
      }
      var before := applyList.value[index];
      var after := fn(before);
      StoreChanges(applyList.value, index, after);
      if before == after {
        return false;
      }
      applyList := Some(applyList.value[index := after]);
      MarkField(FieldApplyList);
      applyListChange := MarkSliceSet(applyListChange, index, after);
      ok := true;
    }

    method RemoveApplyListAt(index: int) returns (ok: bool)
      modifies this
      ensures (View(), ok) == Apply(old(View()), ApplyList(RemoveAt(index)))
      ensures ok == (0 <= index < |Items(old(applyList))|)
      ensures ok ==> applyList == Some(old(applyList).value[..index] + old(applyList).value[index + 1..])
    {
      if applyList.None? || index < 0 || index >= |applyList.value| {
        return false;
      }
      applyList := Some(applyList.value[..index] + applyList.value[index + 1..]);
      MarkField(FieldApplyList);
      applyListChange := MarkSliceRemoveAt(applyListChange, index);
      ok := true;
    }

    method SwapRemoveApplyListAt(index: int) returns (ok: bool)
      modifies this
      ensures (View(), ok) == Apply(old(View()), ApplyList(SwapRemoveAt(index)))
      ensures ok == (0 <= index < |Items(old(applyList))|)
      ensures ok ==> applyList == Some(SwappedOut(old(applyList).value, index))
    {
      SliceItems(View().applyList, SwapRemoveAt(index));
      if applyList.None? || index < 0 || index >= |applyList.value| {
        return false;
      }
      var last := |applyList.value| - 1;
      if index != last {
        applyList := Some(applyList.value[index := applyList.value[last]]);
      }
      applyList := Some(applyList.value[..last]);
      MarkField(FieldApplyList);
      applyListChange := MarkSliceSwapRemoveAt(applyListChange, index);
      ok := true;
    }

    method ReplaceApplyList(v: Option<seq<ApplyItemState>>) returns (ok: bool)
      modifies this
      ensures (View(), ok) == Apply(old(View()), ApplyList(ReplaceAll(v)))
      ensures applyList == v
    {
      if applyList == v {
        return false;
      }
      applyList := v;
      MarkField(FieldApplyList);
      applyListChange := MarkFullReplace(applyListChange);
      ok := true;
    }
  }
}
