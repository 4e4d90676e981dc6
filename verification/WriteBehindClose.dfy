/** Closing a data center: exactly when the newest update survives, as seen at the moment `closed` is
    set, for every way the writer may carry on from there. */
module WriteBehindClose {
  import opened Wrappers
  import opened DataCenterState
  import opened WriteBehind
  import opened WriteBehindRuns

  // ---------- What stays once closed is set ----------

  /** The run from `c` ends in `end` with the writer gone. */
  ghost predicate Ends<S>(c: Config<S>, ls: seq<Label<S>>, end: Config<S>) {
    Exec(c, ls) == Some(end) && end.writer.Exited?
  }

  /** The newest version is persisted, or its save has succeeded and is about to be recorded. */
  ghost predicate Secured<S>(c: Config<S>) {
    c.sh.persisted == c.sh.version || (c.writer.Marking? && c.writer.s.version == c.sh.version)
  }

  lemma ClosedKeepsVersion<S>(c: Config<S>, l: Label<S>)
    requires Inv(c) && c.sh.closed && Next(c, l).Some?
    ensures Next(c, l).value.sh.closed && Next(c, l).value.sh.version == c.sh.version
  {
    ThreeThreads(c, l);
    if Next(c, l) == WaiterNext(c, l) {
      WaiterFrame(c, l);
    } else if Next(c, l) == ActorNext(c, l) {
      assert EntityInv(c);
    } else {
      WriterFrame(c, l);
    }
  }

  lemma ClosedKeepsSecured<S>(c: Config<S>, l: Label<S>)
    requires Inv(c) && c.sh.closed && Secured(c) && Next(c, l).Some?
    ensures Secured(Next(c, l).value)
  {
    var c' := Next(c, l).value;
    ClosedKeepsVersion(c, l);
    StepFrame(c, l);
    StepInv(c, l);
    PersistedWasSaved(c');
    if c.sh.persisted != c.sh.version {
      ThreeThreads(c, l);
      if Next(c, l) == WaiterNext(c, l) {
        WaiterFrame(c, l);
      } else if Next(c, l) == ActorNext(c, l) {
        ActorLeavesThreads(c, l);
      }
    }
  }

  lemma {:induction false} SecuredToTheEnd<S>(c: Config<S>, ls: seq<Label<S>>, end: Config<S>)
    requires Inv(c) && c.sh.closed && Secured(c) && Ends(c, ls, end)
    ensures end.sh.persisted == end.sh.version
    decreases |ls|
  {
    if ls != [] {
      ClosedKeepsVersion(c, ls[0]);
      ClosedKeepsSecured(c, ls[0]);
      StepInv(c, ls[0]);
      SecuredToTheEnd(Next(c, ls[0]).value, ls[1..], end);
    }
  }

  // ---------- A run in which every save fails ----------

  /** What the writer does next when no save succeeds and it takes the stop channel. */
  function Doom<S>(w: WriterPc<S>): Label<S> {
    match w
    case Parked => TakeStop
    case Popping(_) => PopMailbox
    case Comparing(_, _) => CompareVersion
    case Saving(_, _) => SaveFail(false)
    case Requeueing(_, _) => RequeueSnapshot
    case Rewaking(_) => SendRewake
    case Marking(_, _) => MarkVersion
    case Broadcasting(_, _) => CloseNotify
    case Returning => ExitWriter
    case Exited => ExitWriter
  }

  function Rank<S>(w: WriterPc<S>): nat {
    match w
    case Exited => 0
    case Returning => 1
    case Popping(last) => if last then 2 else 4
    case Parked => 3
    case Broadcasting(_, _) => 5
    case Requeueing(_, _) => 6
    case Rewaking(_) => 6
    case Marking(_, _) => 6
    case Saving(_, _) => 7
    case Comparing(_, _) => 8
  }

  function Remaining<S>(c: Config<S>): nat {
    Rank(c.writer) + if c.sh.pending.Some? then 10 else 0
  }

  lemma DoomStep<S>(c: Config<S>)
    requires Inv(c) && c.sh.closed && !c.writer.Exited?
    ensures Next(c, Doom(c.writer)).Some?
    ensures var c' := Next(c, Doom(c.writer)).value;
      && c'.sh.closed && c'.sh.version == c.sh.version && Remaining(c') < Remaining(c)
      && (!Secured(c) ==> !Secured(c'))
      && c'.storedVersion == c.storedVersion
  {
    var l := Doom(c.writer);
    assert Next(c, l) == WriterNext(c, l);
  }

  /** From a closed data center whose newest version is not secured, the writer can go without it; the
      repository is left as it is. */
  lemma {:induction false} DoomedRun<S>(c: Config<S>) returns (ls: seq<Label<S>>, end: Config<S>)
    requires Inv(c) && c.sh.closed
    ensures Ends(c, ls, end) && end.sh.version == c.sh.version && end.storedVersion == c.storedVersion
    ensures !Secured(c) ==> end.sh.persisted < end.sh.version
    decreases Remaining(c)
  {
    if c.writer.Exited? {
      ls, end := [], c;
      PersistedWasSaved(c);
    } else {
      DoomStep(c);
      StepInv(c, Doom(c.writer));
      var rest;
      rest, end := DoomedRun(Next(c, Doom(c.writer)).value);
      ls := [Doom(c.writer)] + rest;
      assert ls[1..] == rest;
    }
  }

  // ---------- What Close promises ----------

  ghost function Closed<S>(c: Config<S>): Config<S> {
    c.(sh := c.sh.(closed := true), actor := Draining)
  }

  /** However the other threads carry on, the writer goes only with the newest version persisted. */
  ghost predicate CloseKeeps<S(!new)>(c: Config<S>) {
    forall ls: seq<Label<S>>, end: Config<S> :: Ends(Closed(c), ls, end) ==> end.sh.persisted == end.sh.version
  }

  lemma ClosingStep<S(!new)>(c: Config<S>)
    requires Reachable(c) && c.actor.Stopping?
    ensures Next(c, SetClosed) == Some(Closed(c)) && Inv(Closed(c))
  {
    assert Next(c, SetClosed) == ActorNext(c, SetClosed);
    ReachableStep(c, SetClosed);
    ReachableInv(Closed(c));
  }

  /** Close keeps the newest update in every continuation exactly when, as it sets closed, that version is
      persisted or its save has already succeeded. Otherwise some continuation drops it. */
  lemma CloseKeepsExactly<S(!new)>(c: Config<S>)
    requires Reachable(c) && c.actor.Stopping?
    ensures CloseKeeps(c) <==> Secured(c)
  {
    ClosingStep(c);
    var c1 := Closed(c);
    if Secured(c) {
      forall ls: seq<Label<S>>, end: Config<S> | Ends(c1, ls, end)
        ensures end.sh.persisted == end.sh.version
      {
        SecuredToTheEnd(c1, ls, end);
      }
    } else {
      var ls, end := DoomedRun(c1);
      assert Ends(c1, ls, end);
    }
  }

  /** A caller sees the condition as the FlushSync inside Close having reached its version. */
  lemma ReachedCloseKeeps<S(!new)>(c: Config<S>)
    requires Reachable(c) && c.actor.Waiting? && c.actor.call == Close && c.actor.w == Returned(Reached)
    ensures Next(c, FinishWait).Some? && Next(c, FinishWait).value.actor.Stopping?
    ensures CloseKeeps(Next(c, FinishWait).value)
  {
    ReachableInv(c);
    assert Next(c, FinishWait) == ActorNext(c, FinishWait);
    ReachableStep(c, FinishWait);
    CloseKeepsExactly(Next(c, FinishWait).value);
  }

  // ---------- Closing without failures ----------

  /** The newest snapshot has failed to save and is on its way back to the mailbox. */
  predicate FailedNewest<S>(c: Config<S>) {
    c.writer.Requeueing? && c.writer.s.version == c.sh.version
  }

  /** The newest snapshot is being dropped or has been. */
  predicate Missed<S>(c: Config<S>) {
    FailedNewest(c) || c.lost
  }

  lemma NoFailureStep<S>(c: Config<S>, l: Label<S>)
    requires Inv(c) && c.sh.closed && Next(c, l).Some? && !l.SaveFail?
    ensures Missed(Next(c, l).value) == Missed(c)
  {
    ClosedKeepsVersion(c, l);
    ThreeThreads(c, l);
    if Next(c, l) == WaiterNext(c, l) {
      WaiterFrame(c, l);
    } else if Next(c, l) == ActorNext(c, l) {
      ActorLeavesThreads(c, l);
    } else {
      assert SnapInv(c) && FlightInv(c);
    }
  }

  lemma {:induction false} NoFailureRun<S>(c: Config<S>, ls: seq<Label<S>>, end: Config<S>)
    requires Inv(c) && c.sh.closed
    requires Ends(c, ls, end) && forall i :: 0 <= i < |ls| ==> !ls[i].SaveFail?
    ensures end.sh.pending.None? && (end.sh.persisted == end.sh.version <==> !Missed(c))
    decreases |ls|
  {
    if ls != [] {
      ClosedKeepsVersion(c, ls[0]);
      NoFailureStep(c, ls[0]);
      StepInv(c, ls[0]);
      NoFailureRun(Next(c, ls[0]).value, ls[1..], end);
    }
  }

  /** If no save fails after the first Close sets closed, the writer goes with the newest version
      persisted exactly when its snapshot was not just then coming back from a failed save. */
  lemma CloseDrainsWithoutFailures<S(!new)>(c: Config<S>, ls: seq<Label<S>>, end: Config<S>)
    requires Reachable(c) && c.actor.Stopping? && !c.sh.closed
    requires Ends(Closed(c), ls, end) && forall i :: 0 <= i < |ls| ==> !ls[i].SaveFail?
    ensures end.sh.pending.None?
    ensures end.sh.persisted == end.sh.version <==> !FailedNewest(c)
  {
    ReachableInv(c);
    ClosingStep(c);
    NoFailureRun(Closed(c), ls, end);
  }

  // ---------- The document ----------

  /** No snapshot on its way to the repository is older than the document there. */
  ghost predicate NoneOlder<S>(c: Config<S>) {
    && (c.sh.pending.Some? ==> c.storedVersion <= c.sh.pending.value.version)
    && (WriterHand(c).Some? ==> c.storedVersion <= WriterHand(c).value.version)
  }

  lemma StepNoneOlder<S>(c: Config<S>, l: Label<S>)
    requires Inv(c) && NoneOlder(c) && Next(c, l).Some?
    ensures NoneOlder(Next(c, l).value)
  {
    ThreeThreads(c, l);
    if Next(c, l) == WaiterNext(c, l) {
      WaiterFrame(c, l);
    } else if Next(c, l) == ActorNext(c, l) {
      ActorNoneOlder(c, l);
    } else {
      WriterNoneOlder(c, l);
    }
  }

  lemma ActorNoneOlder<S>(c: Config<S>, l: Label<S>)
    requires SnapInv(c) && EntityInv(c) && RepoInv(c) && NoneOlder(c) && ActorNext(c, l).Some?
    ensures NoneOlder(ActorNext(c, l).value)
  {
    ActorLeavesThreads(c, l);
  }

  lemma WriterNoneOlder<S>(c: Config<S>, l: Label<S>)
    requires SnapInv(c) && NoneOlder(c) && WriterNext(c, l).Some?
    ensures NoneOlder(WriterNext(c, l).value)
  {
  }

  lemma {:induction false} RunNoneOlder<S>(c: Config<S>, ls: seq<Label<S>>)
    requires Inv(c) && NoneOlder(c) && Exec(c, ls).Some?
    ensures NoneOlder(Exec(c, ls).value)
    decreases |ls|
  {
    if ls != [] {
      StepNoneOlder(c, ls[0]);
      StepInv(c, ls[0]);
      RunNoneOlder(Next(c, ls[0]).value, ls[1..]);
    }
  }

  lemma ReachableNoneOlder<S(!new)>(c: Config<S>)
    requires Reachable(c)
    ensures NoneOlder(c)
  {
    var c0: Config<S>, ls: seq<Label<S>> :| Init(c0) && Exec(c0, ls) == Some(c);
    InitInv(c0);
    RunNoneOlder(c0, ls);
  }

  lemma ClosedKeepsDocument<S>(c: Config<S>, l: Label<S>)
    requires Inv(c) && NoneOlder(c) && c.sh.closed && c.storedVersion == c.sh.version && Next(c, l).Some?
    ensures Next(c, l).value.storedVersion == Next(c, l).value.sh.version
  {
    ClosedKeepsVersion(c, l);
    ThreeThreads(c, l);
    if Next(c, l) == WaiterNext(c, l) {
      WaiterFrame(c, l);
    } else if Next(c, l) == ActorNext(c, l) {
      ActorLeavesThreads(c, l);
    } else {
      assert SnapInv(c);
    }
  }

  lemma {:induction false} DocumentToTheEnd<S>(c: Config<S>, ls: seq<Label<S>>, end: Config<S>)
    requires Inv(c) && NoneOlder(c) && c.sh.closed && c.storedVersion == c.sh.version && Ends(c, ls, end)
    ensures end.storedVersion == end.sh.version
    decreases |ls|
  {
    if ls != [] {
      ClosedKeepsVersion(c, ls[0]);
      ClosedKeepsDocument(c, ls[0]);
      StepInv(c, ls[0]);
      StepNoneOlder(c, ls[0]);
      DocumentToTheEnd(Next(c, ls[0]).value, ls[1..], end);
    }
  }

  ghost predicate CloseKeepsDocument<S(!new)>(c: Config<S>) {
    forall ls: seq<Label<S>>, end: Config<S> :: Ends(Closed(c), ls, end) ==> end.storedVersion == end.sh.version
  }

  /** The repository is sure to end with the newest snapshot exactly when it holds it already as Close
      sets closed. */
  lemma CloseKeepsDocumentExactly<S(!new)>(c: Config<S>)
    requires Reachable(c) && c.actor.Stopping?
    ensures CloseKeepsDocument(c) <==> c.storedVersion == c.sh.version
  {
    ClosingStep(c);
    ReachableNoneOlder(c);
    var c1 := Closed(c);
    assert NoneOlder(c1);
    if c.storedVersion == c.sh.version {
      forall ls: seq<Label<S>>, end: Config<S> | Ends(c1, ls, end)
        ensures end.storedVersion == end.sh.version
      {
        DocumentToTheEnd(c1, ls, end);
      }
    } else {
      var ls, end := DoomedRun(c1);
      assert Ends(c1, ls, end);
    }
  }

  // ---------- A save under way ----------

  /** The save of snapshot 1 has succeeded and is not recorded. */
  function Saved(): Config<int> {
    WriteBehindRuns.Queued(Close).(
      writer := Marking(SEVEN, false), sh := Lone(None, false, false),
      stored := Some(7), storedVersion := 1, saves := [1])
  }

  lemma SavedTrail() returns (t: Trail<int>)
    ensures Follows(WriteBehindRuns.Queued(Close), t) && Last(WriteBehindRuns.Queued(Close), t) == Saved()
  {
    var c1 := WriteBehindRuns.Queued(Close).(writer := Popping(false), sh := Lone(Some(SEVEN), false, false));
    var c2 := c1.(writer := Comparing(SEVEN, false), sh := Lone(None, false, false));
    var c3 := c2.(writer := Saving(SEVEN, false));
    assert [] + [1] == [1];
    var t3 := Go(SaveOk, Saved(), End);
    assert Follows(c3, t3);
    var t2 := Go(CompareVersion, c3, t3);
    assert Follows(c2, t2);
    var t1 := Go(PopMailbox, c2, t2);
    assert Follows(c1, t1);
    t := Go(TakeWake, c1, t1);
  }

  /** The caller of Close has given up waiting meanwhile. */
  function SaveUnrecorded(): Config<int> {
    Saved().(actor := Stopping, outcome := Waited(Cancelled))
  }

  lemma GiveUpTrail() returns (t: Trail<int>)
    ensures Follows(Saved(), t) && Last(Saved(), t) == SaveUnrecorded()
  {
    var c1 := Saved().(actor := Waiting(Close, SEVEN, Blocked(0)));
    var c2 := Saved().(actor := Waiting(Close, SEVEN, Returned(Cancelled)));
    var t2 := Go(FinishWait, SaveUnrecorded(), End);
    assert Follows(c2, t2);
    var t1 := Go(ActorWait(Cancel), c2, t2);
    assert Follows(c1, t1);
    t := Go(ActorWait(Lock), c1, t1);
  }

  /** persisted lags behind and Close still loses nothing. */
  lemma CloseKeepsASaveUnderWay()
    ensures Reachable(SaveUnrecorded()) && SaveUnrecorded().actor.Stopping?
    ensures SaveUnrecorded().sh.persisted < SaveUnrecorded().sh.version
    ensures CloseKeeps(SaveUnrecorded())
  {
    QueuedReachable(Close);
    var t1 := SavedTrail();
    TrailReachable(WriteBehindRuns.Queued(Close), t1);
    var t2 := GiveUpTrail();
    TrailReachable(Saved(), t2);
    CloseKeepsExactly(SaveUnrecorded());
  }
}
