/** What runs of the write-behind protocol can and cannot do: every schedule without failures persists
    the newest version of an open data center, and two runs in which less holds than a caller might expect. */
module WriteBehindRuns {
  import opened Wrappers
  import opened DataCenterState
  import opened WriteBehind

  /** The steps that move a snapshot along: those of the writer and of the actor inside a call. Waiting
      is not among them. */
  predicate Works<S>(l: Label<S>) {
    !l.Mutate? && !l.StartCall? && !l.ActorWait? && !l.FinishWait? && !l.SetClosed? && !l.FinishClose?
    && !l.StartWaiter? && !l.WaiterStep?
  }

  /** No new call, no change of the entity, and no save fails. */
  predicate Calm<S>(l: Label<S>) {
    !l.Mutate? && !l.StartCall? && !l.SaveFail?
  }

  function Working<S>(ls: seq<Label<S>>): nat {
    if ls == [] then 0 else (if Works(ls[0]) then 1 else 0) + Working(ls[1..])
  }

  function ActorEffort<S>(a: ActorPc<S>): nat {
    match a
    case Bumping(_) => 13
    case Building(_, _) => 12
    case Enqueueing(_, _) => 11
    case Waking(_, _) => 3
    case _ => 0
  }

  function WriterEffort<S>(w: WriterPc<S>): nat {
    match w
    case Exited => 0
    case Returning => 1
    case Popping(last) => if last then 2 else 4
    case Parked => 3
    case Broadcasting(_, _) => 5
    case Marking(_, _) => 6
    case Saving(_, _) => 7
    case Comparing(_, _) => 8
    case Rewaking(_) => 7
    case Requeueing(_, _) => 15
  }

  /** The most work that can be left: never more than 37 steps. */
  function Effort<S>(c: Config<S>): (n: nat)
    ensures n <= 37
  {
    ActorEffort(c.actor) + WriterEffort(c.writer)
    + (if c.sh.pending.Some? then 7 else 0) + if c.sh.wake then 2 else 0
  }

  lemma CalmStep<S>(c: Config<S>, l: Label<S>)
    requires Inv(c) && Next(c, l).Some? && Calm(l)
    ensures Effort(Next(c, l).value) + (if Works(l) then 1 else 0) <= Effort(c)
  {
    ThreeThreads(c, l);
    if Next(c, l) == WaiterNext(c, l) {
      WaiterFrame(c, l);
    } else if Next(c, l) == ActorNext(c, l) {
      CalmActorStep(c, l);
    } else {
      CalmWriterStep(c, l);
    }
  }

  lemma CalmActorStep<S>(c: Config<S>, l: Label<S>)
    requires ActorNext(c, l).Some? && Calm(l)
    ensures Effort(ActorNext(c, l).value) + (if Works(l) then 1 else 0) <= Effort(c)
  {
  }

  lemma CalmWriterStep<S>(c: Config<S>, l: Label<S>)
    requires WriterNext(c, l).Some? && Calm(l)
    ensures Effort(WriterNext(c, l).value) + 1 <= Effort(c)
  {
  }

  /** The step that takes the newest snapshot closer to the repository when saves succeed. */
  function Drive<S>(c: Config<S>): Label<S> {
    match c.actor
    case Building(_, _) => BuildSnapshot
    case Enqueueing(_, _) => EnqueueSnapshot
    case Waking(_, _) => SendWake
    case _ =>
      match c.writer
      case Parked => TakeWake
      case Popping(_) => PopMailbox
      case Comparing(_, _) => CompareVersion
      case Saving(_, _) => SaveOk
      case Requeueing(_, _) => RequeueSnapshot
      case Rewaking(_) => SendRewake
      case Marking(_, _) => MarkVersion
      case Broadcasting(_, _) => CloseNotify
      case _ => ExitWriter
  }

  /** Nothing moves any more. */
  ghost predicate AtRest<S(!new)>(c: Config<S>) {
    forall l: Label<S> :: Works(l) ==> Next(c, l).None?
  }

  lemma RestIsPersisted<S(!new)>(c: Config<S>)
    requires Inv(c) && AtRest(c) && !c.lost
    ensures c.sh.persisted == c.sh.version
  {
    assert Next(c, BuildSnapshot) == ActorNext(c, BuildSnapshot);
    assert Next(c, EnqueueSnapshot) == ActorNext(c, EnqueueSnapshot);
    assert Next(c, SendWake) == ActorNext(c, SendWake);
    var l := Drive(c);
    if !c.writer.Parked? && !c.writer.Exited? {
      assert Next(c, l) == WriterNext(c, l);
    }
    if c.writer.Parked? {
      assert Next(c, TakeWake) == WriterNext(c, TakeWake);
    }
    assert FlightInv(c) && WriterInv(c) && SnapInv(c);
  }

  /** In every schedule without new calls, entity changes and failed saves, waiters and all, at most
      `Effort` steps move snapshots along, and when none can any more the newest version is persisted. */
  lemma {:induction false} EveryScheduleDrains<S(!new)>(c: Config<S>, ls: seq<Label<S>>, end: Config<S>)
    requires Inv(c) && Exec(c, ls) == Some(end)
    requires forall i :: 0 <= i < |ls| ==> Calm(ls[i])
    ensures Working(ls) + Effort(end) <= Effort(c)
    ensures AtRest(end) && !end.lost ==> end.sh.persisted == end.sh.version
    decreases |ls|
  {
    if ls == [] {
      if AtRest(end) && !end.lost {
        RestIsPersisted(end);
      }
    } else {
      CalmStep(c, ls[0]);
      StepInv(c, ls[0]);
      EveryScheduleDrains(Next(c, ls[0]).value, ls[1..], end);
    }
  }

  /** For a reachable data center, in particular one that is still open at the end. */
  lemma EveryScheduleOfAnOpenCenterDrains<S(!new)>(c: Config<S>, ls: seq<Label<S>>, end: Config<S>)
    requires Reachable(c) && Exec(c, ls) == Some(end) && !end.sh.closed
    requires forall i :: 0 <= i < |ls| ==> Calm(ls[i])
    ensures Working(ls) <= Effort(c)
    ensures AtRest(end) ==> end.sh.persisted == end.sh.version
  {
    ReachableInv(c);
    RunInv(c, ls);
    EveryScheduleDrains(c, ls, end);
  }

  // ---------- What a call and a pass of the writer do ----------

  /** A Tick on a dirty entity of an open data center, with nobody else at work in between: the next version is
      taken, its snapshot of the state at the time of the call fills the mailbox whatever was in it, the entity is
      clean, the writer is woken, and the caller gets the version. */
  lemma TickQueues<S(!new)>(c: Config<S>)
    requires Reachable(c) && c.actor.Idle? && c.dirty && c.hasRepo && !c.sh.closed
    ensures var v := c.sh.version + 1;
      Exec(c, [StartCall(Tick), BumpVersion, BuildSnapshot, EnqueueSnapshot, SendWake]) ==
        Some(c.(sh := c.sh.(version := v, pending := Some(Snap(v, c.current)), wake := true),
                dirty := false, built := c.built + [c.current], outcome := Outcome.Queued(v)))
  {
    ReachableInv(c);
    var v := c.sh.version + 1;
    var c2 := c.(actor := Building(Tick, v), sh := c.sh.(version := v));
    TickBegins(c, c2);
    var c3 := c2.(actor := Enqueueing(Tick, Snap(v, c.current)), built := c.built + [c.current], dirty := false);
    var c4 := c3.(actor := Waking(Tick, Snap(v, c.current)), sh := c3.sh.(pending := Some(Snap(v, c.current))));
    assert Next(c2, BuildSnapshot) == Some(c3);
    assert Next(c3, EnqueueSnapshot) == Some(c4);
    ExecThree(c2, BuildSnapshot, EnqueueSnapshot, SendWake);
    var all: seq<Label<S>> := [StartCall(Tick), BumpVersion, BuildSnapshot, EnqueueSnapshot, SendWake];
    assert all[2..] == [BuildSnapshot, EnqueueSnapshot, SendWake];
    ExecAfterTwo(c, all);
  }

  lemma TickBegins<S(!new)>(c: Config<S>, c2: Config<S>)
    requires c.actor.Idle? && c.dirty && c.hasRepo && !c.sh.closed
    requires c2 == c.(actor := Building(Tick, c.sh.version + 1), sh := c.sh.(version := c.sh.version + 1))
    ensures Next(c, StartCall(Tick)).Some? && Next(Next(c, StartCall(Tick)).value, BumpVersion) == Some(c2)
  {
  }

  lemma ExecThree<S(!new)>(c: Config<S>, l: Label<S>, m: Label<S>, n: Label<S>)
    requires Next(c, l).Some? && Next(Next(c, l).value, m).Some?
    ensures Exec(c, [l, m, n]) == Next(Next(Next(c, l).value, m).value, n)
  {
    ExecOne(c, [], l);
    assert [] + [l] == [l];
    ExecOne(c, [l], m);
    assert [l] + [m] == [l, m];
    ExecOne(c, [l, m], n);
    assert [l, m] + [n] == [l, m, n];
  }

  lemma ExecAfterTwo<S(!new)>(c: Config<S>, ls: seq<Label<S>>)
    requires |ls| >= 2 && Next(c, ls[0]).Some? && Next(Next(c, ls[0]).value, ls[1]).Some?
    ensures Exec(c, ls) == Exec(Next(Next(c, ls[0]).value, ls[1]).value, ls[2..])
  {
    assert ls[1..][1..] == ls[2..];
  }

  /** The writer saves a snapshot exactly if no newer version has been taken by then. */
  lemma OnlyNewestSaved<S(!new)>(c: Config<S>)
    requires Reachable(c) && c.writer.Comparing?
    ensures Next(c, CompareVersion).Some?
    ensures Next(c, CompareVersion).value.writer ==
      if c.writer.s.version == c.sh.version then Saving(c.writer.s, c.writer.last) else Popping(c.writer.last)
  {
    ReachableInv(c);
  }

  /** A snapshot whose save failed is put back exactly if the data center is open and no newer version has been
      taken; then the mailbox is empty. */
  lemma PutBackExactly<S(!new)>(c: Config<S>)
    requires Reachable(c) && c.writer.Requeueing?
    ensures Next(c, RequeueSnapshot).Some?
    ensures var c' := Next(c, RequeueSnapshot).value;
      if !c.sh.closed && c.writer.s.version == c.sh.version
      then c.sh.pending.None? && c'.sh.pending == Some(c.writer.s) && c'.writer == Rewaking(c.writer.last)
      else c'.sh.pending == c.sh.pending && c'.writer == Popping(c.writer.last)
  {
    ReachableInv(c);
  }

  // ---------- FlushSync on a clean entity ----------

  /** A FlushSync that finds the entity clean returns nil at once and changes nothing. The document is then
      the newest snapshot, which is what the entity saves, if the stored version is the newest one, as it is
      once the caller sees persisted at the version. Otherwise it is an older snapshot or one from before
      the data center was made; the newest is on its way as long as the data center is open. */
  lemma CleanFlushSyncMeans<S(!new)>(c: Config<S>)
    requires Reachable(c) && c.actor.Idle? && !c.dirty && c.sh.version > 0
    ensures var version, end := c.sh.version, Next(c, StartCall(FlushSync));
      && end == Some(c.(outcome := Clean))
      && |c.built| == version && c.current == c.built[version - 1]
      && (c.sh.persisted == version ==> c.storedVersion == version)
      && (c.storedVersion == version ==> c.stored == Some(c.current))
      && (0 < c.storedVersion < version ==> c.stored == Some(c.built[c.storedVersion - 1]))
      && (!c.sh.closed && c.storedVersion < version ==> Snap(version, c.current) in InFlight(c))
  {
    ReachableInv(c);
    if !c.sh.closed && c.storedVersion < c.sh.version {
      NoLostUpdate(c);
    }
  }

  /** The document is an older one that happens to equal what the entity saves. */
  ghost predicate SameAgain<S>(c: Config<S>) {
    if c.storedVersion == 0 then c.stored == Some(c.current)
    else c.storedVersion < |c.built| && c.built[c.storedVersion - 1] == c.current
  }

  /** So the entity's state is in the repository when such a FlushSync returns exactly if the newest version
      is the stored one, or the older document happens to be equal. */
  lemma CleanFlushSyncExactly<S(!new)>(c: Config<S>)
    requires Reachable(c) && c.actor.Idle? && !c.dirty && c.sh.version > 0
    ensures Next(c, StartCall(FlushSync)).Some?
    ensures Next(c, StartCall(FlushSync)).value.stored == Some(c.current) <==>
      c.storedVersion == c.sh.version || SameAgain(c)
  {
    CleanFlushSyncMeans(c);
    ReachableInv(c);
  }

  // ---------- Two runs ----------

  function Start(current: int): Config<int> {
    Config(Shared(None, 0, 0, false, false, 0, {}, false), Idle, Parked, map[], true, false, current,
           None, 0, [], [], false, NoCall)
  }

  /** A run written out with the configuration after each step. */
  datatype Trail<S> = End | Go(l: Label<S>, to: Config<S>, rest: Trail<S>)

  ghost predicate Follows<S>(c: Config<S>, t: Trail<S>)
    decreases t
  {
    t.Go? ==> Next(c, t.l) == Some(t.to) && Follows(t.to, t.rest)
  }

  function Last<S>(c: Config<S>, t: Trail<S>): Config<S>
    decreases t
  {
    if t.End? then c else Last(t.to, t.rest)
  }

  lemma {:induction false} TrailReachable<S(!new)>(c: Config<S>, t: Trail<S>)
    requires Reachable(c) && Follows(c, t)
    ensures Reachable(Last(c, t))
    decreases t
  {
    if t.Go? {
      ReachableStep(c, t.l);
      TrailReachable(t.to, t.rest);
    }
  }

  lemma StartReachable(current: int)
    ensures Reachable(Start(current))
  {
    assert Init(Start(current)) && Exec(Start(current), []) == Some(Start(current));
  }

  function Lone(pending: Option<Snap<int>>, closed: bool, wake: bool): Shared<int> {
    Shared(pending, 1, 0, closed, wake, 0, {}, false)
  }

  const SEVEN: Snap<int> := Snap(1, 7)

  /** The entity was changed to 7 and the call has taken version 1. */
  function Numbered(call: Call): Config<int> {
    Start(0).(current := 7, dirty := true, actor := Building(call, 1), sh := Lone(None, false, false))
  }

  lemma NumberedTrail(call: Call) returns (t: Trail<int>)
    ensures Follows(Start(0), t) && Last(Start(0), t) == Numbered(call)
  {
    var c1 := Start(0).(current := 7, dirty := true);
    var c2 := c1.(actor := Bumping(call));
    var t2 := Go(BumpVersion, Numbered(call), End);
    assert Follows(c2, t2);
    var t1 := Go(StartCall(call), c2, t2);
    assert Follows(c1, t1);
    t := Go(Mutate(7, true), c1, t1);
  }

  /** The call has put snapshot 1 into the mailbox and sent the wake for it. */
  function Queued(call: Call): Config<int> {
    AfterEnqueue(Start(0).(current := 7, built := [7], sh := Lone(Some(SEVEN), false, true)), call, SEVEN)
  }

  lemma QueuedTrail(call: Call) returns (t: Trail<int>)
    ensures Follows(Numbered(call), t) && Last(Numbered(call), t) == Queued(call)
  {
    var c1 := Numbered(call).(actor := Enqueueing(call, SEVEN), built := [7], dirty := false);
    var c2 := c1.(actor := Waking(call, SEVEN), sh := Lone(Some(SEVEN), false, false));
    var t2 := Go(SendWake, Queued(call), End);
    assert Follows(c2, t2);
    var t1 := Go(EnqueueSnapshot, c2, t2);
    assert Follows(c1, t1);
    t := Go(BuildSnapshot, c1, t1);
    assert [] + [7] == [7];
  }

  lemma QueuedReachable(call: Call)
    ensures Reachable(Queued(call))
  {
    var t1 := NumberedTrail(call);
    var t2 := QueuedTrail(call);
    StartReachable(0);
    TrailReachable(Start(0), t1);
    TrailReachable(Numbered(call), t2);
  }

  /** A FlushSync on a clean entity returns nil at once, and at that moment an earlier asynchronous
      version may not be in the repository yet. */
  lemma CleanFlushSyncPromisesNothing() returns (c: Config<int>)
    ensures Reachable(c) && c.actor.Idle? && !c.dirty
    ensures Next(c, StartCall(FlushSync)).Some? && Next(c, StartCall(FlushSync)).value.outcome == Clean
    ensures Next(c, StartCall(FlushSync)).value.stored == None
    ensures c.current == 7 && c.sh.version == 1 && c.sh.persisted == 0
  {
    QueuedReachable(Tick);
    c := Queued(Tick);
  }

  /** The save of snapshot 1 has failed and requeueOnError has not taken the lock yet. */
  function Failed(): Config<int> {
    Queued(Close).(writer := Requeueing(SEVEN, false), sh := Lone(None, false, false))
  }

  lemma FailedTrail() returns (t: Trail<int>)
    ensures Follows(Queued(Close), t) && Last(Queued(Close), t) == Failed()
  {
    var c1 := Queued(Close).(writer := Popping(false), sh := Lone(Some(SEVEN), false, false));
    var c2 := Failed().(writer := Comparing(SEVEN, false));
    var c3 := c2.(writer := Saving(SEVEN, false));
    var t3 := Go(SaveFail(false), Failed(), End);
    assert Follows(c3, t3);
    var t2 := Go(CompareVersion, c3, t3);
    assert Follows(c2, t2);
    var t1 := Go(PopMailbox, c2, t2);
    assert Follows(c1, t1);
    t := Go(TakeWake, c1, t1);
  }

  /** The caller's context has ended and Close has set closed. */
  function Shut(): Config<int> {
    Failed().(actor := Draining, outcome := Waited(Cancelled), sh := Lone(None, true, false))
  }

  lemma ShutTrail() returns (t: Trail<int>)
    ensures Follows(Failed(), t) && Last(Failed(), t) == Shut()
  {
    var c1 := Failed().(actor := Waiting(Close, SEVEN, Blocked(0)));
    var c2 := c1.(actor := Waiting(Close, SEVEN, Returned(Cancelled)));
    var c3 := c2.(actor := Stopping, outcome := Waited(Cancelled));
    var t3 := Go(SetClosed, Shut(), End);
    assert Follows(c3, t3);
    var t2 := Go(FinishWait, c3, t3);
    assert Follows(c2, t2);
    var t1 := Go(ActorWait(Cancel), c2, t2);
    assert Follows(c1, t1);
    t := Go(ActorWait(Lock), c1, t1);
  }

  /** requeueOnError has dropped the snapshot and the writer is back in its select. */
  function Dropped(): Config<int> {
    Shut().(writer := Parked, lost := true)
  }

  lemma DroppedTrail() returns (t: Trail<int>)
    ensures Follows(Shut(), t) && Last(Shut(), t) == Dropped()
  {
    var c1 := Dropped().(writer := Popping(false));
    var t1 := Go(PopMailbox, Dropped(), End);
    assert Follows(c1, t1);
    t := Go(RequeueSnapshot, c1, t1);
  }

  function Gone(): Config<int> {
    Dropped().(writer := Exited, sh := Lone(None, true, false).(done := true))
  }

  lemma GoneTrail() returns (t: Trail<int>)
    ensures Follows(Dropped(), t) && Last(Dropped(), t) == Gone()
  {
    var c1 := Dropped().(writer := Popping(true));
    var c2 := Dropped().(writer := Returning);
    var t2 := Go(ExitWriter, Gone(), End);
    assert Follows(c2, t2);
    var t1 := Go(PopMailbox, c2, t2);
    assert Follows(c1, t1);
    t := Go(TakeStop, c1, t1);
  }

  /** Close can end with the newest version lost: the save fails while the data center is still open,
      the caller's context ends, closed is set, and requeueOnError then drops the snapshot. */
  lemma CloseCanLoseAnUpdate() returns (c: Config<int>)
    ensures Reachable(c) && c.writer.Exited? && c.sh.persisted == 0 && c.sh.version == 1
    ensures c.current == 7 && !c.dirty && c.stored == None
  {
    QueuedReachable(Close);
    var t1 := FailedTrail();
    TrailReachable(Queued(Close), t1);
    var t2 := ShutTrail();
    TrailReachable(Failed(), t2);
    var t3 := DroppedTrail();
    TrailReachable(Shut(), t3);
    var t4 := GoneTrail();
    TrailReachable(Dropped(), t4);
    c := Gone();
  }
}
