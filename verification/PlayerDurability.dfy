/** The player entity, its data center and the repository as one system. The entity's dirt is its own
    and its children's, which change through pointers handed out. */
module PlayerDurability {
  import opened Wrappers
  import P = Players
  import opened DataCenterState
  import opened WriteBehind

  datatype System = System(entity: P.Model, dc: Config<P.State>)

  datatype Event =
    | Call(op: P.Op)                   // the actor changes the entity or one of its children
    | Protocol(l: Label<P.State>)      // any other step of the data center

  ghost function Next(s: System, ev: Event): Option<System> {
    match ev
    case Call(op) =>
      var e' := P.Apply(s.entity, op);
      var dc' := WriteBehind.Next(s.dc, Mutate(P.Save(e'), P.Dirty(e')));
      if dc'.None? then None else Some(System(e', dc'.value))
    case Protocol(l) =>
      var dc' := WriteBehind.Next(s.dc, l);
      if l.Mutate? || dc'.None? then None
      else Some(System(if l.BuildSnapshot? then P.ClearDirty(s.entity) else s.entity, dc'.value))
  }

  ghost predicate Init(s: System) {
    WriteBehind.Init(s.dc) && Agrees(s)
  }

  /** What the data center sees of the entity is what the entity saves and whether it is dirty. */
  ghost predicate Agrees(s: System) {
    && s.dc.current == P.Save(s.entity)
    && s.dc.dirty == P.Dirty(s.entity)
    && (s.entity.dirty <==> s.entity.trace != {})
  }

  ghost function Exec(s: System, evs: seq<Event>): Option<System>
    decreases |evs|
  {
    if evs == [] then Some(s) else
    var s' := Next(s, evs[0]);
    if s'.None? then None else Exec(s'.value, evs[1..])
  }

  ghost predicate Reachable(s: System) {
    exists s0: System, evs: seq<Event> :: Init(s0) && Exec(s0, evs) == Some(s)
  }

  /** A call never gets stuck: whatever it changes, in the entity or in a child, makes the entity dirty. */
  lemma CallIsEnabled(s: System, op: P.Op)
    requires Agrees(s) && s.dc.actor.Idle?
    ensures Next(s, Call(op)).Some?
  {
    P.ChangeIsDirty(s.entity, op);
  }

  lemma CallAgrees(s: System, op: P.Op)
    requires Agrees(s) && Next(s, Call(op)).Some?
    ensures Agrees(Next(s, Call(op)).value)
  {
    P.ChangeIsDirty(s.entity, op);
    var e' := P.Apply(s.entity, op);
    MutateOnly(s.dc, P.Save(e'), P.Dirty(e'));
  }

  lemma MutateOnly(c: Config<P.State>, next: P.State, marks: bool)
    requires WriteBehind.Next(c, Mutate(next, marks)).Some?
    ensures WriteBehind.Next(c, Mutate(next, marks)).value == c.(current := next, dirty := c.dirty || marks)
  {
  }

  lemma ProtocolAgrees(s: System, l: Label<P.State>)
    requires Agrees(s) && Next(s, Protocol(l)).Some?
    ensures Agrees(Next(s, Protocol(l)).value)
  {
    if l.BuildSnapshot? {
      P.ClearDirtyKeepsState(s.entity);
      BuildOnly(s.dc);
    } else {
      StepFrame(s.dc, l);
    }
  }

  lemma BuildOnly(c: Config<P.State>)
    requires WriteBehind.Next(c, BuildSnapshot).Some?
    ensures var c' := WriteBehind.Next(c, BuildSnapshot).value; c'.current == c.current && !c'.dirty
  {
  }

  lemma StepAgrees(s: System, ev: Event)
    requires Agrees(s) && WriteBehind.Reachable(s.dc) && Next(s, ev).Some?
    ensures Agrees(Next(s, ev).value) && WriteBehind.Reachable(Next(s, ev).value.dc)
  {
    match ev
    case Call(op) =>
      var e' := P.Apply(s.entity, op);
      ReachableStep(s.dc, Mutate(P.Save(e'), P.Dirty(e')));
      CallAgrees(s, op);
    case Protocol(l) =>
      ReachableStep(s.dc, l);
      ProtocolAgrees(s, l);
  }

  lemma {:induction false} RunAgrees(s: System, evs: seq<Event>)
    requires Agrees(s) && WriteBehind.Reachable(s.dc) && Exec(s, evs).Some?
    ensures Agrees(Exec(s, evs).value) && WriteBehind.Reachable(Exec(s, evs).value.dc)
    decreases |evs|
  {
    if evs != [] {
      StepAgrees(s, evs[0]);
      RunAgrees(Next(s, evs[0]).value, evs[1..]);
    }
  }

  /** End to end: once neither the player nor any child is dirty and the newest version is persisted, the
      repository holds exactly what the player saves, over all operations on the entity and on handed-out
      children, and all interleavings, save failures and retries. */
  lemma EndToEnd(s: System)
    requires Reachable(s)
    requires !P.Dirty(s.entity) && s.dc.sh.persisted == s.dc.sh.version > 0
    ensures s.dc.stored == Some(P.Save(s.entity))
  {
    var s0: System, evs: seq<Event> :| Init(s0) && Exec(s0, evs) == Some(s);
    assert WriteBehind.Init(s0.dc) && WriteBehind.Exec(s0.dc, []) == Some(s0.dc);
    RunAgrees(s0, evs);
    CleanAndPersistedIsStored(s.dc);
  }
}
