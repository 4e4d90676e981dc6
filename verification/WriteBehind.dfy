/** The write-behind protocol as a step system: one actor thread, the writer goroutine and any number
    of waiters, interleaved at lock boundaries and channel operations. */
module WriteBehind {
  import opened Wrappers
  import opened DataCenterState

  // ---------- Program counters ----------

  /** Which public call the actor is in: Tick, FlushSync, or the FlushSync inside Close. */
  datatype Call = Tick | FlushSync | Close

  datatype WaitResult = Reached | WriterDone | Cancelled

  datatype WaitPc =
    | Check                      // about to lock and compare persisted with the target
    | Blocked(ch: nat)           // in the select, holding the channel captured under the lock
    | Recheck                    // saw done, about to lock once more
    | Returned(result: WaitResult)

  datatype ActorPc<S> =
    | Idle
    | Bumping(call: Call)                        // dirty, about to lock in buildNextSnapshot
    | Building(call: Call, v: nat)               // version taken, snapshot not yet taken
    | Enqueueing(call: Call, s: Snap<S>)         // snapshot in hand, dirty flags cleared
    | Waking(call: Call, s: Snap<S>)             // snapshot in the mailbox, wake not yet sent
    | Waiting(call: Call, s: Snap<S>, w: WaitPc) // in waitPersisted(s.version)
    | Stopping                                   // in Close, about to set closed
    | Draining                                   // in Close, waiting for done

  datatype WriterPc<S> =
    | Parked
    | Popping(last: bool)
    | Comparing(s: Snap<S>, last: bool)
    | Saving(s: Snap<S>, last: bool)
    | Requeueing(s: Snap<S>, last: bool)
    | Rewaking(last: bool)
    | Marking(s: Snap<S>, last: bool)
    | Broadcasting(ch: nat, last: bool)
    | Returning
    | Exited

  datatype Waiter = Waiter(target: nat, w: WaitPc)

  /** What the actor's last call returned. Close ignores the error of the FlushSync inside it. */
  datatype Outcome =
    | NoCall
    | Clean              // version 0 and no error: the entity was not dirty
    | NoRepo
    | ClosedError
    | Queued(v: nat)     // Tick returned this version
    | Waited(result: WaitResult)

  /** `current` is what the entity's Save would return now and `dirty` what its Dirty would return.
      `stored` is the repository's document. History variables: `built[v-1]` is the state of the
      snapshot numbered v, `storedVersion` the snapshot the document came from (0 for a document that
      was there before), `saves` the versions of the successful saves in order, and `lost` records
      that requeueOnError dropped the newest snapshot because the data center was closed. */
  datatype Config<S> = Config(
    sh: Shared<S>,
    actor: ActorPc<S>,
    writer: WriterPc<S>,
    waiters: map<nat, Waiter>,
    hasRepo: bool,
    dirty: bool,
    current: S,
    stored: Option<S>,
    storedVersion: nat,
    built: seq<S>,
    saves: seq<nat>,
    lost: bool,
    outcome: Outcome)

  // ---------- Steps ----------

  datatype Choice = Lock | SeeNotify | SeeDone | Cancel

  datatype Label<S> =
    | Mutate(next: S, marks: bool)
    | StartCall(call: Call)
    | BumpVersion
    | BuildSnapshot
    | EnqueueSnapshot
    | SendWake
    | ActorWait(choice: Choice)
    | FinishWait
    | SetClosed
    | FinishClose
    | TakeWake
    | TakeStop
    | PopMailbox
    | CompareVersion
    | SaveOk
    | SaveFail(wrote: bool)
    | RequeueSnapshot
    | SendRewake
    | MarkVersion
    | CloseNotify
    | ExitWriter
    | StartWaiter(id: nat, target: nat)
    | WaiterStep(id: nat, choice: Choice)

  /** The entry of a call: a clean entity or a missing repository ends Tick at once, and Close carries
      on to its own critical section. */
  function AfterTick<S>(call: Call): ActorPc<S> {
    if call == Close then Stopping else Idle
  }

  /** Tick returns the version of its snapshot; FlushSync and Close go on to wait for it. */
  function AfterEnqueue<S>(c: Config<S>, call: Call, s: Snap<S>): Config<S> {
    if call == Tick then c.(actor := Idle, outcome := Queued(s.version))
    else c.(actor := Waiting(call, s, Check))
  }

  /** One step of waitPersisted; None when the chosen select branch is not ready. */
  function WaitNext<S>(sh: Shared<S>, target: nat, w: WaitPc, choice: Choice): Option<WaitPc> {
    match (w, choice)
    case (Check, Lock) => Some(if sh.persisted >= target then Returned(Reached) else Blocked(sh.notify))
    case (Blocked(ch), SeeNotify) => if ch in sh.closedNotify then Some(Check) else None
    case (Blocked(_), SeeDone) => if sh.done then Some(Recheck) else None
    case (Blocked(_), Cancel) => Some(Returned(Cancelled))
    case (Recheck, Lock) => Some(Returned(if sh.persisted >= target then Reached else WriterDone))
    case _ => None
  }

  ghost function ActorNext<S>(c: Config<S>, l: Label<S>): Option<Config<S>> {
    match l
    case Mutate(next, marks) =>
      // An entity operation either marks the entity dirty or leaves its saved form unchanged.
      if !c.actor.Idle? || (next != c.current && !marks) then None
      else Some(c.(current := next, dirty := c.dirty || marks))
    case StartCall(call) =>
      if !c.actor.Idle? then None
      else if !c.dirty then Some(c.(actor := AfterTick(call), outcome := Clean))
      else if !c.hasRepo then Some(c.(actor := AfterTick(call), outcome := NoRepo))
      else Some(c.(actor := Bumping(call)))
    case BumpVersion =>
      if !c.actor.Bumping? then None else
      var (sh, v) := Bump(c.sh);
      if v.None? then Some(c.(actor := AfterTick(c.actor.call), outcome := ClosedError))
      else Some(c.(sh := sh, actor := Building(c.actor.call, v.value)))
    case BuildSnapshot =>
      if !c.actor.Building? then None else
      Some(c.(actor := Enqueueing(c.actor.call, Snap(c.actor.v, c.current)),
              built := c.built + [c.current], dirty := false))
    case EnqueueSnapshot =>
      if !c.actor.Enqueueing? then None else
      var (sh, sent) := Enqueue(c.sh, c.actor.s);
      if sent then Some(c.(sh := sh, actor := Waking(c.actor.call, c.actor.s)))
      else Some(AfterEnqueue(c, c.actor.call, c.actor.s))
    case SendWake =>
      if !c.actor.Waking? then None
      else Some(AfterEnqueue(c.(sh := c.sh.(wake := true)), c.actor.call, c.actor.s))
    case ActorWait(choice) =>
      if !c.actor.Waiting? then None else
      var w := WaitNext(c.sh, c.actor.s.version, c.actor.w, choice);
      if w.None? then None else Some(c.(actor := c.actor.(w := w.value)))
    case FinishWait =>
      if !c.actor.Waiting? || !c.actor.w.Returned? then None
      else Some(c.(actor := AfterTick(c.actor.call), outcome := Waited(c.actor.w.result)))
    case SetClosed =>
      if !c.actor.Stopping? then None
      else Some(c.(sh := c.sh.(closed := true), actor := Draining))
    case FinishClose =>
      // Either done is closed or the caller's context has ended.
      if !c.actor.Draining? then None else Some(c.(actor := Idle))
    case _ => None
  }

  ghost function WriterNext<S>(c: Config<S>, l: Label<S>): Option<Config<S>> {
    match l
    case TakeWake =>
      if !c.writer.Parked? || !c.sh.wake then None
      else Some(c.(sh := c.sh.(wake := false), writer := Popping(false)))
    case TakeStop =>
      if !c.writer.Parked? || !c.sh.closed then None else Some(c.(writer := Popping(true)))
    case PopMailbox =>
      if !c.writer.Popping? then None else
      var (sh, s) := Pop(c.sh);
      Some(c.(sh := sh,
              writer := if s.Some? then Comparing(s.value, c.writer.last)
                        else if c.writer.last then Returning else Parked))
    case CompareVersion =>
      if !c.writer.Comparing? then None
      else if c.sh.version > c.writer.s.version then Some(c.(writer := Popping(c.writer.last)))
      else Some(c.(writer := Saving(c.writer.s, c.writer.last)))
    case SaveOk =>
      if !c.writer.Saving? then None else
      Some(c.(stored := Some(c.writer.s.state), storedVersion := c.writer.s.version,
              saves := c.saves + [c.writer.s.version], writer := Marking(c.writer.s, c.writer.last)))
    case SaveFail(wrote) =>
      // A failed save may still have replaced the document, for instance when only the reply is lost.
      if !c.writer.Saving? then None else
      var failed := c.(writer := Requeueing(c.writer.s, c.writer.last));
      Some(if wrote then failed.(stored := Some(c.writer.s.state), storedVersion := c.writer.s.version) else failed)
    case RequeueSnapshot =>
      if !c.writer.Requeueing? then None else
      var (sh, sent) := Requeue(c.sh, c.writer.s);
      Some(c.(sh := sh,
              writer := if sent then Rewaking(c.writer.last) else Popping(c.writer.last),
              lost := c.lost || (c.sh.closed && c.writer.s.version == c.sh.version)))
    case SendRewake =>
      if !c.writer.Rewaking? then None
      else Some(c.(sh := c.sh.(wake := true), writer := Popping(c.writer.last)))
    case MarkVersion =>
      if !c.writer.Marking? then None else
      var (sh, ch) := Mark(c.sh, c.writer.s.version);
      Some(c.(sh := sh,
              writer := if ch.Some? then Broadcasting(ch.value, c.writer.last) else Popping(c.writer.last)))
    case CloseNotify =>
      if !c.writer.Broadcasting? then None else
      Some(c.(sh := c.sh.(closedNotify := c.sh.closedNotify + {c.writer.ch}), writer := Popping(c.writer.last)))
    case ExitWriter =>
      if !c.writer.Returning? then None else Some(c.(sh := c.sh.(done := true), writer := Exited))
    case _ => None
  }

  ghost function WaiterNext<S>(c: Config<S>, l: Label<S>): Option<Config<S>> {
    match l
    case StartWaiter(id, target) =>
      if id in c.waiters then None else Some(c.(waiters := c.waiters[id := Waiter(target, Check)]))
    case WaiterStep(id, choice) =>
      if id !in c.waiters then None else
      var w' := WaitNext(c.sh, c.waiters[id].target, c.waiters[id].w, choice);
      if w'.None? then None else Some(c.(waiters := c.waiters[id := c.waiters[id].(w := w'.value)]))
    case _ => None
  }

  ghost function Next<S>(c: Config<S>, l: Label<S>): Option<Config<S>> {
    if l.StartWaiter? || l.WaiterStep? then WaiterNext(c, l)
    else if l.Mutate? || l.StartCall? || l.BumpVersion? || l.BuildSnapshot? || l.EnqueueSnapshot? || l.SendWake?
            || l.ActorWait? || l.FinishWait? || l.SetClosed? || l.FinishClose? then ActorNext(c, l)
    else WriterNext(c, l)
  }

  /** A freshly constructed data center over a loaded entity. A document that was not found is loaded as
      an initial entity that is dirty already. */
  ghost predicate Init<S>(c: Config<S>) {
    && c.sh == Shared(None, 0, 0, false, false, 0, {}, false)
    && c.actor == Idle
    && c.writer == Parked
    && c.waiters == map[]
    && c.storedVersion == 0
    && c.built == []
    && c.saves == []
    && !c.lost
    && c.outcome == NoCall
  }

  /** The configuration after a run, or None when some step of it is not enabled. */
  ghost function Exec<S>(c: Config<S>, ls: seq<Label<S>>): Option<Config<S>>
    decreases |ls|
  {
    if ls == [] then Some(c) else
    var c' := Next(c, ls[0]);
    if c'.None? then None else Exec(c'.value, ls[1..])
  }

  // ---------- The invariant ----------

  /** The snapshot the writer holds outside the mailbox and has not marked. */
  function WriterHand<S>(c: Config<S>): Option<Snap<S>> {
    match c.writer
    case Comparing(s, _) => Some(s)
    case Saving(s, _) => Some(s)
    case Requeueing(s, _) => Some(s)
    case Marking(s, _) => Some(s)
    case _ => None
  }

  ghost predicate Genuine<S>(c: Config<S>, s: Snap<S>) {
    1 <= s.version <= |c.built| && s.state == c.built[s.version - 1]
  }

  /** Versions and the places a snapshot can be in. */
  ghost predicate SnapInv<S>(c: Config<S>) {
    && c.sh.version == |c.built| + (if c.actor.Building? then 1 else 0)
    && (c.actor.Building? ==> c.actor.v == c.sh.version)
    && c.sh.persisted <= |c.built|
    && (c.sh.pending.Some? ==> Genuine(c, c.sh.pending.value) && c.sh.persisted < c.sh.pending.value.version)
    && (WriterHand(c).Some? ==>
          && Genuine(c, WriterHand(c).value)
          && c.sh.persisted < WriterHand(c).value.version
          && (c.sh.pending.Some? ==> WriterHand(c).value.version < c.sh.pending.value.version))
    && (c.actor.Enqueueing? ==>
          && c.sh.persisted < c.sh.version
          && (c.sh.pending.Some? ==> c.sh.pending.value.version < c.sh.version)
          && (WriterHand(c).Some? ==> WriterHand(c).value.version < c.sh.version))
  }

  /** The entity against the newest snapshot. */
  ghost predicate EntityInv<S>(c: Config<S>) {
    && (c.actor.Bumping? || c.actor.Building? ==> c.dirty && c.hasRepo)
    && (!c.dirty && |c.built| > 0 ==> c.current == c.built[|c.built| - 1])
    && (c.actor.Enqueueing? || c.actor.Waking? || c.actor.Waiting? ==>
          !c.dirty && Genuine(c, c.actor.s) && c.actor.s.version == c.sh.version)
    && (c.sh.closed ==> c.actor.Idle? || c.actor.Bumping? || c.actor.Stopping? || c.actor.Draining?)
    && (!c.hasRepo ==> c.built == [])
  }

  ghost predicate RepoInv<S>(c: Config<S>) {
    && c.sh.persisted <= c.storedVersion <= |c.built|
    && (c.storedVersion > 0 ==> c.stored == Some(c.built[c.storedVersion - 1]))
    && (c.writer.Marking? ==> c.storedVersion == c.writer.s.version)
  }

  /** Some place holds the snapshot of exactly the newest version, or is about to create it. */
  ghost predicate NewestInFlight<S>(c: Config<S>) {
    || c.actor.Building?
    || c.actor.Enqueueing?
    || (c.sh.pending.Some? && c.sh.pending.value.version == c.sh.version)
    || (WriterHand(c).Some? && WriterHand(c).value.version == c.sh.version)
  }

  ghost predicate FlightInv<S>(c: Config<S>) {
    && (c.sh.persisted < c.sh.version && !c.lost ==> NewestInFlight(c))
    && (c.lost ==> c.sh.closed && c.sh.persisted < c.sh.version && c.sh.pending.None? && WriterHand(c).None?)
  }

  /** The writer left its select through the stop channel. */
  predicate LastPass<S>(w: WriterPc<S>) {
    !w.Parked? && !w.Returning? && !w.Exited? && w.last
  }

  ghost predicate WriterInv<S>(c: Config<S>) {
    && (c.writer.Parked? && c.sh.pending.Some? ==> c.sh.wake || c.actor.Waking?)
    && (LastPass(c.writer) ==> c.sh.closed)
    && (c.writer.Returning? || c.writer.Exited? ==> c.sh.closed && c.sh.pending.None?)
    && (c.sh.done <==> c.writer.Exited?)
  }

  ghost predicate ClosedBelow(closed: set<nat>, n: nat) {
    forall i: nat :: i in closed <==> i < n
  }

  /** Exactly the channels older than the current one are closed, bar the one being closed now. */
  ghost predicate ChannelInv<S>(c: Config<S>) {
    if c.writer.Broadcasting? then
      c.writer.ch + 1 == c.sh.notify && ClosedBelow(c.sh.closedNotify, c.writer.ch)
    else
      ClosedBelow(c.sh.closedNotify, c.sh.notify)
  }

  ghost predicate WaitOk<S>(c: Config<S>, target: nat, w: WaitPc) {
    match w
    case Check => true
    case Blocked(ch) => ch <= c.sh.notify && (ch == c.sh.notify ==> c.sh.persisted < target)
    case Recheck => c.sh.done
    case Returned(r) =>
      && (r.Reached? ==> target <= c.sh.persisted)
      && (r.WriterDone? ==> c.sh.done && c.sh.persisted < target)
  }

  ghost predicate WaiterInv<S>(c: Config<S>) {
    && (forall id | id in c.waiters :: WaitOk(c, c.waiters[id].target, c.waiters[id].w))
    && (c.actor.Waiting? ==> WaitOk(c, c.actor.s.version, c.actor.w))
  }

  ghost predicate Increasing(vs: seq<nat>) {
    forall i, j | 0 <= i < j < |vs| :: vs[i] < vs[j]
  }

  ghost predicate SavesInv<S>(c: Config<S>) {
    && Increasing(c.saves)
    && (if |c.saves| == 0 then c.sh.persisted == 0 && !c.writer.Marking?
        else c.saves[|c.saves| - 1] == if c.writer.Marking? then c.writer.s.version else c.sh.persisted)
  }

  ghost predicate Inv<S>(c: Config<S>) {
    SnapInv(c) && EntityInv(c) && RepoInv(c) && FlightInv(c) && WriterInv(c) && ChannelInv(c) && WaiterInv(c) && SavesInv(c)
  }

  lemma InitInv<S>(c: Config<S>)
    requires Init(c)
    ensures Inv(c)
  {
  }

  // What each thread leaves alone.

  lemma ActorFrame<S>(c: Config<S>, l: Label<S>)
    requires ActorNext(c, l).Some?
    ensures var c' := ActorNext(c, l).value;
            && c'.writer == c.writer && c'.waiters == c.waiters && c'.hasRepo == c.hasRepo
            && c'.stored == c.stored && c'.storedVersion == c.storedVersion && c'.saves == c.saves && c'.lost == c.lost
            && c'.sh.persisted == c.sh.persisted && c'.sh.done == c.sh.done
            && c'.sh.notify == c.sh.notify && c'.sh.closedNotify == c.sh.closedNotify
            && c.built <= c'.built && c.sh.version <= c'.sh.version && (c.sh.closed ==> c'.sh.closed)
            && (!l.Mutate? ==> c'.current == c.current)
            && (!l.Mutate? && !l.BuildSnapshot? ==> c'.dirty == c.dirty && c'.built == c.built)
  {
    ActorLeavesThreads(c, l);
    ActorLeavesMarks(c, l);
    ActorOnlyBuilds(c, l);
  }

  lemma ActorLeavesThreads<S>(c: Config<S>, l: Label<S>)
    requires ActorNext(c, l).Some?
    ensures var c' := ActorNext(c, l).value;
            && c'.writer == c.writer && c'.waiters == c.waiters && c'.hasRepo == c.hasRepo
            && c'.stored == c.stored && c'.storedVersion == c.storedVersion && c'.saves == c.saves && c'.lost == c.lost
  {
  }

  lemma ActorLeavesMarks<S>(c: Config<S>, l: Label<S>)
    requires ActorNext(c, l).Some?
    ensures var c' := ActorNext(c, l).value;
            && c'.sh.persisted == c.sh.persisted && c'.sh.done == c.sh.done
            && c'.sh.notify == c.sh.notify && c'.sh.closedNotify == c.sh.closedNotify
            && c.sh.version <= c'.sh.version && (c.sh.closed ==> c'.sh.closed)
  {
    ActorLeavesPersisted(c, l);
    ActorLeavesChannels(c, l);
    ActorBumpsOnly(c, l);
  }

  lemma ActorLeavesPersisted<S>(c: Config<S>, l: Label<S>)
    requires ActorNext(c, l).Some?
    ensures var c' := ActorNext(c, l).value; c'.sh.persisted == c.sh.persisted && c'.sh.done == c.sh.done
  {
  }

  lemma ActorLeavesChannels<S>(c: Config<S>, l: Label<S>)
    requires ActorNext(c, l).Some?
    ensures var c' := ActorNext(c, l).value;
            c'.sh.notify == c.sh.notify && c'.sh.closedNotify == c.sh.closedNotify
  {
  }

  lemma ActorBumpsOnly<S>(c: Config<S>, l: Label<S>)
    requires ActorNext(c, l).Some?
    ensures var c' := ActorNext(c, l).value; c.sh.version <= c'.sh.version && (c.sh.closed ==> c'.sh.closed)
  {
  }

  lemma ActorOnlyBuilds<S>(c: Config<S>, l: Label<S>)
    requires ActorNext(c, l).Some?
    ensures var c' := ActorNext(c, l).value;
            && c.built <= c'.built
            && (!l.Mutate? ==> c'.current == c.current)
            && (!l.Mutate? && !l.BuildSnapshot? ==> c'.dirty == c.dirty && c'.built == c.built)
  {
  }

  lemma WriterFrame<S>(c: Config<S>, l: Label<S>)
    requires WriterNext(c, l).Some?
    ensures var c' := WriterNext(c, l).value;
            && c'.actor == c.actor && c'.waiters == c.waiters && c'.hasRepo == c.hasRepo && c'.outcome == c.outcome
            && c'.built == c.built && c'.current == c.current && c'.dirty == c.dirty
            && c'.sh.version == c.sh.version && c'.sh.closed == c.sh.closed
            && c.sh.persisted <= c'.sh.persisted && c.saves <= c'.saves
            && (c'.sh.persisted != c.sh.persisted ==> c.writer.Marking? && c'.sh.persisted == c.writer.s.version)
  {
    WriterLeavesActor(c, l);
    WriterOnlyMarks(c, l);
  }

  lemma WriterLeavesActor<S>(c: Config<S>, l: Label<S>)
    requires WriterNext(c, l).Some?
    ensures var c' := WriterNext(c, l).value;
            && c'.actor == c.actor && c'.waiters == c.waiters && c'.hasRepo == c.hasRepo && c'.outcome == c.outcome
            && c'.built == c.built && c'.current == c.current && c'.dirty == c.dirty
  {
  }

  lemma WriterOnlyMarks<S>(c: Config<S>, l: Label<S>)
    requires WriterNext(c, l).Some?
    ensures var c' := WriterNext(c, l).value;
            && c'.sh.version == c.sh.version && c'.sh.closed == c.sh.closed
            && c.sh.persisted <= c'.sh.persisted && c.saves <= c'.saves
            && (c'.sh.persisted != c.sh.persisted ==> c.writer.Marking? && c'.sh.persisted == c.writer.s.version)
  {
    WriterKeepsVersion(c, l);
    WriterKeepsClosed(c, l);
    WriterSavesGrow(c, l);
    WriterMarksHand(c, l);
  }

  lemma WriterKeepsVersion<S>(c: Config<S>, l: Label<S>)
    requires WriterNext(c, l).Some?
    ensures WriterNext(c, l).value.sh.version == c.sh.version
  {
  }

  lemma WriterKeepsClosed<S>(c: Config<S>, l: Label<S>)
    requires WriterNext(c, l).Some?
    ensures WriterNext(c, l).value.sh.closed == c.sh.closed
  {
  }

  lemma WriterSavesGrow<S>(c: Config<S>, l: Label<S>)
    requires WriterNext(c, l).Some?
    ensures c.saves <= WriterNext(c, l).value.saves
  {
  }

  lemma WriterMarksHand<S>(c: Config<S>, l: Label<S>)
    requires WriterNext(c, l).Some?
    ensures var c' := WriterNext(c, l).value;
            && c.sh.persisted <= c'.sh.persisted
            && (c'.sh.persisted != c.sh.persisted ==> c.writer.Marking? && c'.sh.persisted == c.writer.s.version)
  {
  }

  lemma WaiterFrame<S>(c: Config<S>, l: Label<S>)
    requires WaiterNext(c, l).Some?
    ensures WaiterNext(c, l).value == c.(waiters := WaiterNext(c, l).value.waiters)
  {
  }

  lemma ThreeThreads<S>(c: Config<S>, l: Label<S>)
    requires Next(c, l).Some?
    ensures || Next(c, l) == WaiterNext(c, l)
            || Next(c, l) == ActorNext(c, l)
            || (Next(c, l) == WriterNext(c, l) && !l.Mutate? && !l.BuildSnapshot?)
  {
  }

  lemma ActorKeepsSnap<S>(c: Config<S>, l: Label<S>)
    requires SnapInv(c) && EntityInv(c) && ActorNext(c, l).Some?
    ensures SnapInv(ActorNext(c, l).value)
  {
    var c' := ActorNext(c, l).value;
    assert WriterHand(c') == WriterHand(c);
    assert forall s: Snap<S> :: Genuine(c, s) ==> Genuine(c', s);
  }

  lemma WriterKeepsSnap<S>(c: Config<S>, l: Label<S>)
    requires SnapInv(c) && WriterNext(c, l).Some?
    ensures SnapInv(WriterNext(c, l).value)
  {
    WriterFrame(c, l);
    WriterPasses(c, l);
    WriterPassesOneOnly(c, l);
  }

  /** The writer moves snapshots between mailbox and hand; it makes none. */
  lemma WriterPasses<S>(c: Config<S>, l: Label<S>)
    requires WriterNext(c, l).Some?
    ensures var c' := WriterNext(c, l).value;
            && (c'.sh.pending.Some? ==> c'.sh.pending == c.sh.pending || c'.sh.pending == WriterHand(c))
            && (WriterHand(c').Some? ==> WriterHand(c') == WriterHand(c) || WriterHand(c') == c.sh.pending)
  {
  }

  lemma WriterPassesOneOnly<S>(c: Config<S>, l: Label<S>)
    requires SnapInv(c) && WriterNext(c, l).Some?
    ensures var c' := WriterNext(c, l).value;
            && (c'.sh.pending.Some? ==> c'.sh.persisted < c'.sh.pending.value.version)
            && (WriterHand(c').Some? ==>
                  && c'.sh.persisted < WriterHand(c').value.version
                  && (c'.sh.pending.Some? ==> WriterHand(c').value.version < c'.sh.pending.value.version))
  {
  }

  lemma ActorKeepsEntity<S>(c: Config<S>, l: Label<S>)
    requires SnapInv(c) && EntityInv(c) && ActorNext(c, l).Some?
    ensures EntityInv(ActorNext(c, l).value)
  {
  }

  lemma WriterKeepsEntity<S>(c: Config<S>, l: Label<S>)
    requires EntityInv(c) && WriterNext(c, l).Some?
    ensures EntityInv(WriterNext(c, l).value)
  {
  }

  lemma ActorKeepsRepo<S>(c: Config<S>, l: Label<S>)
    requires SnapInv(c) && RepoInv(c) && ActorNext(c, l).Some?
    ensures RepoInv(ActorNext(c, l).value)
  {
    ActorFrame(c, l);
  }

  lemma WriterKeepsRepo<S>(c: Config<S>, l: Label<S>)
    requires SnapInv(c) && RepoInv(c) && WriterNext(c, l).Some?
    ensures RepoInv(WriterNext(c, l).value)
  {
  }

  lemma ActorKeepsSaves<S>(c: Config<S>, l: Label<S>)
    requires SavesInv(c) && ActorNext(c, l).Some?
    ensures SavesInv(ActorNext(c, l).value)
  {
  }

  lemma WriterKeepsSaves<S>(c: Config<S>, l: Label<S>)
    requires SnapInv(c) && SavesInv(c) && WriterNext(c, l).Some?
    ensures SavesInv(WriterNext(c, l).value)
  {
  }

  lemma ActorKeepsFlight<S>(c: Config<S>, l: Label<S>)
    requires SnapInv(c) && EntityInv(c) && FlightInv(c) && ActorNext(c, l).Some?
    ensures FlightInv(ActorNext(c, l).value)
  {
  }

  lemma WriterKeepsFlight<S>(c: Config<S>, l: Label<S>)
    requires SnapInv(c) && EntityInv(c) && FlightInv(c) && WriterNext(c, l).Some?
    ensures FlightInv(WriterNext(c, l).value)
  {
    WriterFrame(c, l);
    assert SnapInv(c) && EntityInv(c) && FlightInv(c);
  }

  lemma ActorKeepsWriter<S>(c: Config<S>, l: Label<S>)
    requires EntityInv(c) && WriterInv(c) && ActorNext(c, l).Some?
    ensures WriterInv(ActorNext(c, l).value)
  {
  }

  lemma WriterKeepsWriter<S>(c: Config<S>, l: Label<S>)
    requires WriterInv(c) && WriterNext(c, l).Some?
    ensures WriterInv(WriterNext(c, l).value)
  {
  }

  lemma ActorKeepsChannel<S>(c: Config<S>, l: Label<S>)
    requires ChannelInv(c) && ActorNext(c, l).Some?
    ensures ChannelInv(ActorNext(c, l).value)
  {
  }

  lemma WriterKeepsChannel<S>(c: Config<S>, l: Label<S>)
    requires ChannelInv(c) && WriterNext(c, l).Some?
    ensures ChannelInv(WriterNext(c, l).value)
  {
  }

  lemma ActorKeepsWaiter<S>(c: Config<S>, l: Label<S>)
    requires SnapInv(c) && EntityInv(c) && WriterInv(c) && WaiterInv(c) && ActorNext(c, l).Some?
    ensures WaiterInv(ActorNext(c, l).value)
  {
  }

  lemma WriterKeepsWaiter<S>(c: Config<S>, l: Label<S>)
    requires SnapInv(c) && WriterInv(c) && ChannelInv(c) && WaiterInv(c) && WriterNext(c, l).Some?
    ensures WaiterInv(WriterNext(c, l).value)
  {
  }

  lemma WaiterKeepsInv<S>(c: Config<S>, l: Label<S>)
    requires Inv(c) && WaiterNext(c, l).Some?
    ensures Inv(WaiterNext(c, l).value)
  {
    var c' := WaiterNext(c, l).value;
    assert c' == c.(waiters := c'.waiters);
    assert WaiterInv(c');
    OnlyWaitersChanged(c, c'.waiters);
  }

  lemma OnlyWaitersChanged<S>(c: Config<S>, waiters: map<nat, Waiter>)
    requires Inv(c) && WaiterInv(c.(waiters := waiters))
    ensures Inv(c.(waiters := waiters))
  {
    var c' := c.(waiters := waiters);
    assert WriterHand(c') == WriterHand(c);
    assert forall s: Snap<S> :: Genuine(c', s) <==> Genuine(c, s);
  }

  lemma StepInv<S>(c: Config<S>, l: Label<S>)
    requires Inv(c) && Next(c, l).Some?
    ensures Inv(Next(c, l).value)
  {
    if l.StartWaiter? || l.WaiterStep? {
      WaiterKeepsInv(c, l);
    } else if Next(c, l) == ActorNext(c, l) {
      ActorKeepsSnap(c, l);
      ActorKeepsEntity(c, l);
      ActorKeepsRepo(c, l);
      ActorKeepsSaves(c, l);
      ActorKeepsFlight(c, l);
      ActorKeepsWriter(c, l);
      ActorKeepsChannel(c, l);
      ActorKeepsWaiter(c, l);
    } else {
      WriterKeepsSnap(c, l);
      WriterKeepsEntity(c, l);
      WriterKeepsRepo(c, l);
      WriterKeepsSaves(c, l);
      WriterKeepsFlight(c, l);
      WriterKeepsWriter(c, l);
      WriterKeepsChannel(c, l);
      WriterKeepsWaiter(c, l);
    }
  }

  /** Every configuration of every run keeps the invariant. */
  lemma {:induction false} RunInv<S>(c: Config<S>, ls: seq<Label<S>>)
    requires Inv(c) && Exec(c, ls).Some?
    ensures Inv(Exec(c, ls).value)
    decreases |ls|
  {
    if ls != [] {
      StepInv(c, ls[0]);
      RunInv(Next(c, ls[0]).value, ls[1..]);
    }
  }

  ghost predicate Reachable<S(!new)>(c: Config<S>) {
    exists c0: Config<S>, ls: seq<Label<S>> :: Init(c0) && Exec(c0, ls) == Some(c)
  }

  lemma ReachableInv<S(!new)>(c: Config<S>)
    requires Reachable(c)
    ensures Inv(c)
  {
    var c0: Config<S>, ls: seq<Label<S>> :| Init(c0) && Exec(c0, ls) == Some(c);
    InitInv(c0);
    RunInv(c0, ls);
  }

  lemma {:induction false} ExecOne<S(!new)>(c: Config<S>, ls: seq<Label<S>>, l: Label<S>)
    requires Exec(c, ls).Some?
    ensures Exec(c, ls + [l]) == Next(Exec(c, ls).value, l)
    decreases |ls|
  {
    if ls == [] {
      assert [l][1..] == [];
    } else {
      assert (ls + [l])[1..] == ls[1..] + [l];
      ExecOne(Next(c, ls[0]).value, ls[1..], l);
    }
  }

  lemma ReachableStep<S(!new)>(c: Config<S>, l: Label<S>)
    requires Reachable(c) && Next(c, l).Some?
    ensures Reachable(Next(c, l).value)
  {
    var c0: Config<S>, ls: seq<Label<S>> :| Init(c0) && Exec(c0, ls) == Some(c);
    ExecOne(c0, ls, l);
  }

  // ---------- Durability ----------

  /** Once the entity is clean and the newest version is persisted, the repository holds exactly what
      the entity would save now. */
  lemma CleanAndPersistedIsStored<S(!new)>(c: Config<S>)
    requires Reachable(c)
    requires !c.dirty && c.sh.persisted == c.sh.version > 0
    ensures c.stored == Some(c.current)
  {
    ReachableInv(c);
  }

  /** Every place a snapshot can be between its creation and its being marked persisted. */
  function InFlight<S(==)>(c: Config<S>): set<Snap<S>> {
    (if c.actor.Enqueueing? then {c.actor.s} else {})
    + (if c.sh.pending.Some? then {c.sh.pending.value} else {})
    + (if WriterHand(c).Some? then {WriterHand(c).value} else {})
  }

  /** No lost update: until the newest version is persisted, the snapshot of exactly that version, with
      the state the entity had when it was built, is somewhere in flight (or just about to be built). */
  lemma NoLostUpdate<S(!new)>(c: Config<S>)
    requires Reachable(c)
    requires !c.sh.closed && c.sh.persisted < c.sh.version
    ensures c.actor.Building? ||
            (c.sh.version == |c.built| && Snap(c.sh.version, c.built[c.sh.version - 1]) in InFlight(c))
  {
    ReachableInv(c);
  }

  /** A snapshot leaves the system only when it is persisted, superseded by a newer version, or dropped
      by requeueOnError on a closed data center. */
  ghost predicate RightlyGone<S>(c: Config<S>, l: Label<S>, c': Config<S>, s: Snap<S>) {
    || s.version <= c'.sh.persisted
    || s.version < c'.sh.version
    || (l.RequeueSnapshot? && c.sh.closed && c'.lost)
  }

  lemma ActorDiscardsOnlySuperseded<S>(c: Config<S>, l: Label<S>, s: Snap<S>)
    requires Inv(c) && ActorNext(c, l).Some?
    requires s in InFlight(c) && s !in InFlight(ActorNext(c, l).value)
    ensures RightlyGone(c, l, ActorNext(c, l).value, s)
  {
    assert WriterHand(ActorNext(c, l).value) == WriterHand(c);
  }

  lemma WriterDiscardsOnlySuperseded<S>(c: Config<S>, l: Label<S>, s: Snap<S>)
    requires Inv(c) && WriterNext(c, l).Some?
    requires s in InFlight(c) && s !in InFlight(WriterNext(c, l).value)
    ensures RightlyGone(c, l, WriterNext(c, l).value, s)
  {
    assert WriterNext(c, l).value.actor == c.actor;
  }

  lemma DiscardsOnlySuperseded<S(!new)>(c: Config<S>, l: Label<S>, s: Snap<S>)
    requires Reachable(c) && Next(c, l).Some?
    requires s in InFlight(c) && s !in InFlight(Next(c, l).value)
    ensures RightlyGone(c, l, Next(c, l).value, s)
  {
    ReachableInv(c);
    if !l.StartWaiter? && !l.WaiterStep? {
      if Next(c, l) == ActorNext(c, l) {
        ActorDiscardsOnlySuperseded(c, l, s);
      } else {
        WriterDiscardsOnlySuperseded(c, l, s);
      }
    }
  }

  /** The step as seen from outside: what only grows and what only the entity's own operations change. */
  lemma StepFrame<S>(c: Config<S>, l: Label<S>)
    requires Next(c, l).Some?
    ensures var c' := Next(c, l).value;
            && c.built <= c'.built && c.saves <= c'.saves
            && c.sh.persisted <= c'.sh.persisted && c.sh.version <= c'.sh.version
            && (c'.sh.persisted != c.sh.persisted ==> c.writer.Marking? && c'.sh.persisted == c.writer.s.version)
            && (!l.Mutate? ==> c'.current == c.current)
            && (!l.Mutate? && !l.BuildSnapshot? ==> c'.dirty == c.dirty && c'.built == c.built)
  {
    ThreeThreads(c, l);
    if Next(c, l) == WaiterNext(c, l) {
      WaiterFrame(c, l);
    } else if Next(c, l) == ActorNext(c, l) {
      ActorFrame(c, l);
    } else {
      WriterFrame(c, l);
    }
  }

  lemma PersistedWasSaved<S>(c: Config<S>)
    requires Inv(c)
    ensures c.sh.persisted <= c.sh.version
    ensures c.writer.Marking? ==> c.writer.s.version in c.saves
  {
  }

  /** persisted never decreases and never exceeds version, and it moves only to a version that a
      successful save has just written. */
  lemma PersistedMonotone<S(!new)>(c: Config<S>, l: Label<S>)
    requires Reachable(c) && Next(c, l).Some?
    ensures var c' := Next(c, l).value;
            && c.sh.persisted <= c'.sh.persisted <= c'.sh.version
            && c.sh.version <= c'.sh.version
            && (c'.sh.persisted != c.sh.persisted ==> c'.sh.persisted in c.saves)
  {
    ReachableInv(c);
    StepFrame(c, l);
    StepInv(c, l);
    PersistedWasSaved(c);
  }

  /** Successful saves happen in strictly increasing version order and are never undone. */
  lemma SavesIncrease<S(!new)>(c: Config<S>, l: Label<S>)
    requires Reachable(c) && Next(c, l).Some?
    ensures Increasing(Next(c, l).value.saves) && c.saves <= Next(c, l).value.saves
  {
    StepFrame(c, l);
    ReachableStep(c, l);
    ReachableInv(Next(c, l).value);
  }

  // ---------- FlushSync ----------

  /** The actor stays inside one call throughout the run. */
  ghost predicate InCall<S>(c: Config<S>, ls: seq<Label<S>>)
    decreases |ls|
  {
    && !c.actor.Idle?
    && (ls == [] || (Next(c, ls[0]).Some? && InCall(Next(c, ls[0]).value, ls[1..])))
  }

  lemma {:induction false} CallKeepsEntity<S(!new)>(c: Config<S>, ls: seq<Label<S>>)
    requires Reachable(c) && InCall(c, ls)
    ensures Exec(c, ls).Some? && Reachable(Exec(c, ls).value) && Exec(c, ls).value.current == c.current
    decreases |ls|
  {
    if ls != [] {
      StepFrame(c, ls[0]);
      ReachableStep(c, ls[0]);
      CallKeepsEntity(Next(c, ls[0]).value, ls[1..]);
    }
  }

  lemma ReachedMeansStored<S>(c: Config<S>)
    requires Inv(c) && c.actor.Waiting? && c.actor.w == Returned(Reached)
    ensures c.stored == Some(c.current) && !c.dirty
  {
  }

  /** A FlushSync that found the entity dirty and returned nil leaves the repository holding the entity
      state of that call, whatever the writer and the waiters did meanwhile. */
  lemma FlushSyncDurable<S(!new)>(c: Config<S>, ls: seq<Label<S>>, c2: Config<S>)
    requires Reachable(c) && c.actor.Idle? && c.dirty && c.hasRepo
    requires InCall(Next(c, StartCall(FlushSync)).value, ls)
    requires Exec(Next(c, StartCall(FlushSync)).value, ls) == Some(c2)
    requires Next(c2, FinishWait).Some? && Next(c2, FinishWait).value.outcome == Waited(Reached)
    ensures var end := Next(c2, FinishWait).value;
            end.stored == Some(c.current) && end.current == c.current && !end.dirty
  {
    ReachableStep(c, StartCall(FlushSync));
    CallKeepsEntity(Next(c, StartCall(FlushSync)).value, ls);
    ReachableInv(c2);
    ReachedMeansStored(c2);
  }

  // ---------- Waiters ----------

  /** No lost notification: a waiter blocked although its target is persisted holds a channel that is
      closed already or that the writer closes next. */
  lemma NoLostNotification<S(!new)>(c: Config<S>, id: nat)
    requires Reachable(c)
    requires id in c.waiters && c.waiters[id].w.Blocked? && c.waiters[id].target <= c.sh.persisted
    ensures c.waiters[id].w.ch in c.sh.closedNotify || (c.writer.Broadcasting? && c.writer.ch == c.waiters[id].w.ch)
  {
    ReachableInv(c);
  }

  /** The same for the actor itself, waiting in FlushSync or Close. */
  lemma NoLostNotificationToActor<S(!new)>(c: Config<S>)
    requires Reachable(c)
    requires c.actor.Waiting? && c.actor.w.Blocked? && c.actor.s.version <= c.sh.persisted
    ensures c.actor.w.ch in c.sh.closedNotify || (c.writer.Broadcasting? && c.writer.ch == c.actor.w.ch)
  {
    ReachableInv(c);
  }

  /** Closing a channel twice panics; the writer never does. */
  lemma NoDoubleClose<S(!new)>(c: Config<S>)
    requires Reachable(c) && c.writer.Broadcasting?
    ensures c.writer.ch !in c.sh.closedNotify && c.sh.notify !in c.sh.closedNotify
  {
    ReachableInv(c);
  }

  /** A waiter's verdict is right when it is given and stays right. */
  lemma WaiterVerdict<S(!new)>(c: Config<S>, id: nat)
    requires Reachable(c) && id in c.waiters
    ensures c.waiters[id].w == Returned(Reached) ==> c.waiters[id].target <= c.sh.persisted
    ensures c.waiters[id].w == Returned(WriterDone) ==> c.sh.done && c.sh.persisted < c.waiters[id].target
  {
    ReachableInv(c);
  }

  /** So is the actor's, and its target is the newest version. */
  lemma ActorVerdict<S(!new)>(c: Config<S>)
    requires Reachable(c) && c.actor.Waiting?
    ensures c.actor.s.version == c.sh.version
    ensures c.actor.w == Returned(Reached) ==> c.sh.persisted == c.sh.version
    ensures c.actor.w == Returned(WriterDone) ==> c.sh.done && c.sh.persisted < c.sh.version
  {
    ReachableInv(c);
    PersistedWasSaved(c);
  }

  // ---------- Wake-ups and shutdown ----------

  /** No lost wake-up: the writer never parks for good on a full mailbox. */
  lemma NoLostWakeup<S(!new)>(c: Config<S>)
    requires Reachable(c) && c.writer.Parked? && c.sh.pending.Some?
    ensures c.sh.wake || c.actor.Waking?
  {
    ReachableInv(c);
  }
}
