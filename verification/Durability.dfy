/** The alliance entity, its data center and the repository as one system: what the entity's dirty
    tracking and the write-behind protocol guarantee together. */
module Durability {
  import opened Wrappers
  import opened ChangeLog
  import A = Alliance
  import opened DataCenterState
  import opened WriteBehind

  /** The incremental part of a snapshot: the change logs and child-dirty keys it carries. */
  datatype Delta = Delta(majors: TrackedMap<A.MajorState>, applyList: TrackedSlice<A.ApplyItemState>)

  /** `deltas[v-1]` is what snapshot v carries beside its state, and `loaded` the state the actor
      loaded or, for a new alliance, the initial state it was given. */
  datatype System = System(
    entity: A.Model,
    dc: Config<A.AllianceState>,
    loaded: A.AllianceState,
    deltas: seq<Delta>)

  datatype Event =
    | Call(op: A.Op)                          // the actor runs an entity operation
    | Protocol(l: Label<A.AllianceState>)     // any other step of the data center

  ghost function Next(s: System, ev: Event): Option<System> {
    match ev
    case Call(op) =>
      var (e', ok) := A.Apply(s.entity, op);
      var dc' := WriteBehind.Next(s.dc, Mutate(A.Save(e'), ok));
      if dc'.None? then None else Some(s.(entity := e', dc := dc'.value))
    case Protocol(l) =>
      var dc' := WriteBehind.Next(s.dc, l);
      if l.Mutate? || dc'.None? then None
      else if l.BuildSnapshot? then
        Some(System(A.ClearDirty(s.entity), dc'.value, s.loaded,
                    s.deltas + [Delta(s.entity.majors, s.entity.applyList)]))
      else Some(s.(dc := dc'.value))
  }

  /** The entity was hydrated from a document and possibly changed before the first message. */
  ghost predicate Init(s: System) {
    && WriteBehind.Init(s.dc)
    && s.dc.current == A.Save(s.entity)
    && s.dc.dirty == s.entity.dirty
    && s.deltas == []
    && MapLogInv(s.loaded.majors, s.entity.majors)
    && SliceLogInv(s.loaded.applyList, s.entity.applyList)
  }

  ghost function Exec(s: System, evs: seq<Event>): Option<System>
    decreases |evs|
  {
    if evs == [] then Some(s) else
    var s' := Next(s, evs[0]);
    if s'.None? then None else Exec(s'.value, evs[1..])
  }

  ghost predicate Reachable(s: System) {
    exists s0: System, evs: seq<Event> :: Init(s0) && Exec(s0, evs) == Some(s)
  }

  function Before(loaded: A.AllianceState, built: seq<A.AllianceState>, v: nat): A.AllianceState
    requires v <= |built|
  {
    if v == 0 then loaded else built[v - 1]
  }

  /** The state the entity's logs start from. */
  function Base(s: System): A.AllianceState {
    Before(s.loaded, s.dc.built, |s.dc.built|)
  }

  ghost predicate DeltaReplays(base: A.AllianceState, d: Delta, end: A.AllianceState) {
    && d.majors.cur == end.majors
    && d.applyList.cur == end.applyList
    && (!d.majors.ch.fullReplace ==>
          Replay(Contents(base.majors), d.majors.ch.mapDelete, d.majors.childDirty, Contents(end.majors))
          == Contents(end.majors))
    && (!d.applyList.ch.fullReplace && NoRemovals(d.applyList.ch) ==>
          ReplaySlice(Items(base.applyList), d.applyList.ch.sliceAppend, d.applyList.ch.sliceSet)
          == Items(end.applyList))
  }

  ghost predicate AllReplay(loaded: A.AllianceState, built: seq<A.AllianceState>, deltas: seq<Delta>) {
    && |deltas| == |built|
    && forall v {:trigger deltas[v]} | 0 <= v < |deltas| :: DeltaReplays(Before(loaded, built, v), deltas[v], built[v])
  }

  ghost predicate Agrees(s: System) {
    && s.dc.current == A.Save(s.entity)
    && s.dc.dirty == s.entity.dirty
    && MapLogInv(Base(s).majors, s.entity.majors)
    && SliceLogInv(Base(s).applyList, s.entity.applyList)
    && AllReplay(s.loaded, s.dc.built, s.deltas)
  }

  /** An entity operation never gets stuck: whatever it changes it marks. */
  lemma CallIsEnabled(s: System, op: A.Op)
    requires Agrees(s) && s.dc.actor.Idle?
    ensures Next(s, Call(op)).Some?
  {
    A.DirtyIsComplete(s.entity, op);
  }

  lemma OperationKeepsLogs(base: A.AllianceState, e: A.Model, op: A.Op)
    requires MapLogInv(base.majors, e.majors) && SliceLogInv(base.applyList, e.applyList)
    ensures var e' := A.Apply(e, op).0;
            MapLogInv(base.majors, e'.majors) && SliceLogInv(base.applyList, e'.applyList)
  {
    if op.Majors? {
      ApplyKeepsLog(base.majors, e.majors, op.m);
    } else if op.ApplyList? {
      SliceOpKeepsLog(base.applyList, e.applyList, op.s);
    }
  }

  lemma CallAgrees(s: System, op: A.Op)
    requires Agrees(s) && Next(s, Call(op)).Some?
    ensures Agrees(Next(s, Call(op)).value)
  {
    A.DirtyIsComplete(s.entity, op);
    OperationKeepsLogs(Base(s), s.entity, op);
    var (e', ok) := A.Apply(s.entity, op);
    MutateOnly(s.dc, A.Save(e'), ok);
  }

  lemma MutateOnly(c: Config<A.AllianceState>, next: A.AllianceState, marks: bool)
    requires WriteBehind.Next(c, Mutate(next, marks)).Some?
    ensures WriteBehind.Next(c, Mutate(next, marks)).value == c.(current := next, dirty := c.dirty || marks)
  {
  }

  lemma BuildOnly(c: Config<A.AllianceState>)
    requires WriteBehind.Next(c, BuildSnapshot).Some?
    ensures var c' := WriteBehind.Next(c, BuildSnapshot).value;
            c'.current == c.current && !c'.dirty && c'.built == c.built + [c.current]
  {
  }

  lemma HistoryGrows(loaded: A.AllianceState, built: seq<A.AllianceState>, deltas: seq<Delta>,
                     end: A.AllianceState, d: Delta)
    requires AllReplay(loaded, built, deltas) && DeltaReplays(Before(loaded, built, |built|), d, end)
    ensures AllReplay(loaded, built + [end], deltas + [d])
  {
    forall v {:trigger (deltas + [d])[v]} | 0 <= v < |deltas + [d]|
      ensures DeltaReplays(Before(loaded, built + [end], v), (deltas + [d])[v], (built + [end])[v])
    {
      assert Before(loaded, built + [end], v) == Before(loaded, built, v);
    }
  }

  lemma AgreesAfterSnapshot(s: System, dc': Config<A.AllianceState>)
    requires Agrees(s)
    requires dc'.current == s.dc.current && !dc'.dirty && dc'.built == s.dc.built + [s.dc.current]
    ensures Agrees(System(A.ClearDirty(s.entity), dc', s.loaded, s.deltas + [Delta(s.entity.majors, s.entity.applyList)]))
  {
    var d := Delta(s.entity.majors, s.entity.applyList);
    if !s.entity.majors.ch.fullReplace {
      ReplayFromInv(Base(s).majors, s.entity.majors);
    }
    assert DeltaReplays(Base(s), d, A.Save(s.entity));
    HistoryGrows(s.loaded, s.dc.built, s.deltas, A.Save(s.entity), d);
  }

  lemma ProtocolAgrees(s: System, l: Label<A.AllianceState>)
    requires Agrees(s) && Next(s, Protocol(l)).Some?
    ensures Agrees(Next(s, Protocol(l)).value)
  {
    if l.BuildSnapshot? {
      BuildOnly(s.dc);
      AgreesAfterSnapshot(s, WriteBehind.Next(s.dc, l).value);
    } else {
      StepFrame(s.dc, l);
    }
  }

  lemma {:induction false} RunAgrees(s: System, evs: seq<Event>)
    requires Agrees(s) && WriteBehind.Reachable(s.dc) && Exec(s, evs).Some?
    ensures Agrees(Exec(s, evs).value) && WriteBehind.Reachable(Exec(s, evs).value.dc)
    decreases |evs|
  {
    if evs != [] {
      StepAgrees(s, evs[0]);
      RunAgrees(Next(s, evs[0]).value, evs[1..]);
    }
  }

  lemma StepAgrees(s: System, ev: Event)
    requires Agrees(s) && WriteBehind.Reachable(s.dc) && Next(s, ev).Some?
    ensures Agrees(Next(s, ev).value) && WriteBehind.Reachable(Next(s, ev).value.dc)
  {
    match ev
    case Call(op) =>
      var (e', ok) := A.Apply(s.entity, op);
      ReachableStep(s.dc, Mutate(A.Save(e'), ok));
      CallAgrees(s, op);
    case Protocol(l) =>
      ReachableStep(s.dc, l);
      ProtocolAgrees(s, l);
  }

  lemma ReachableAgrees(s: System)
    requires Reachable(s)
    ensures Agrees(s) && WriteBehind.Reachable(s.dc)
  {
    var s0: System, evs: seq<Event> :| Init(s0) && Exec(s0, evs) == Some(s);
    assert WriteBehind.Init(s0.dc) && WriteBehind.Exec(s0.dc, []) == Some(s0.dc);
    RunAgrees(s0, evs);
  }

  /** End to end: once the entity is clean and the newest version is persisted, the repository holds
      exactly what the entity saves, over all entity operations and all interleavings, save failures and
      retries. */
  lemma EndToEnd(s: System)
    requires Reachable(s)
    requires !s.entity.dirty && s.dc.sh.persisted == s.dc.sh.version > 0
    ensures s.dc.stored == Some(A.Save(s.entity))
  {
    ReachableAgrees(s);
    CleanAndPersistedIsStored(s.dc);
  }

  /** The log inside every snapshot takes the previous snapshot's state, not the previously saved one, to
      its own. */
  lemma SnapshotLogsReplay(s: System, v: nat)
    requires Reachable(s) && v < |s.dc.built|
    ensures |s.deltas| == |s.dc.built|
    ensures DeltaReplays(Before(s.loaded, s.dc.built, v), s.deltas[v], s.dc.built[v])
  {
    ReachableAgrees(s);
  }

  /** A repository that applied only the logs of the snapshots it saved would diverge: when snapshot 1 is
      coalesced away, the log of snapshot 2 alone does not lead from the loaded state to its state. */
  lemma SkippedLogLosesChanges(m: A.MajorState)
    ensures var t1 := ApplyMap(ClearedMap(None), Put(1, m)).0;
            var t2 := ApplyMap(ClearedMap(t1.cur), Put(2, m)).0;
            && Contents(t2.cur) == map[1 := m, 2 := m]
            && Replay(map[], t2.ch.mapDelete, t2.childDirty, Contents(t2.cur)) == map[2 := m]
  {
  }
}
