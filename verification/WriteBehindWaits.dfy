/** What a call that waits is told: a waiter whose context does not end gets a true answer, and gets it
    in two steps of its own once its target is persisted. The same for the actor inside FlushSync or Close. */
module WriteBehindWaits {
  import opened Wrappers
  import opened DataCenterState
  import opened WriteBehind

  /** Waiter `id` is there, and has not been told that its context ended. */
  predicate Going<S>(c: Config<S>, id: nat) {
    id in c.waiters && c.waiters[id].w != Returned(Cancelled)
  }

  /** The waiter's context does not end during the run. */
  predicate Patient<S>(ls: seq<Label<S>>, id: nat) {
    forall i :: 0 <= i < |ls| ==> ls[i] != WaiterStep(id, Cancel)
  }

  /** The steps waiter `id` takes itself. */
  function OwnSteps<S>(ls: seq<Label<S>>, id: nat): nat {
    if ls == [] then 0
    else (if ls[0].WaiterStep? && ls[0].id == id then 1 else 0) + OwnSteps(ls[1..], id)
  }

  /** A step of the system keeps the waiter's target, and changes the waiter only if the step is its own. */
  lemma WaiterKept<S>(c: Config<S>, l: Label<S>, id: nat)
    requires Next(c, l).Some? && id in c.waiters
    ensures var c' := Next(c, l).value;
      && id in c'.waiters && c'.waiters[id].target == c.waiters[id].target
      && (!(l.WaiterStep? && l.id == id) ==> c'.waiters[id] == c.waiters[id])
      && c.sh.persisted <= c'.sh.persisted
  {
    StepFrame(c, l);
    ThreeThreads(c, l);
    if Next(c, l) == WaiterNext(c, l) {
      WaiterFrame(c, l);
    } else if Next(c, l) == ActorNext(c, l) {
      ActorFrame(c, l);
    } else {
      WriterFrame(c, l);
    }
  }

  /** A waiter whose context does not end is never told that it did. */
  lemma {:induction false} PatientIsNotCancelled<S(!new)>(c: Config<S>, ls: seq<Label<S>>, end: Config<S>, id: nat)
    requires Exec(c, ls) == Some(end) && Going(c, id) && Patient(ls, id)
    ensures Going(end, id) && end.waiters[id].target == c.waiters[id].target
    decreases |ls|
  {
    if ls != [] {
      WaiterKept(c, ls[0], id);
      assert Patient(ls[1..], id);
      PatientIsNotCancelled(Next(c, ls[0]).value, ls[1..], end, id);
    }
  }

  /** How many steps of its own a waiter is from its answer once its target is persisted. */
  function StepsLeft(w: WaitPc): nat {
    match w
    case Blocked(_) => 2
    case Check => 1
    case Recheck => 1
    case Returned(_) => 0
  }

  lemma OwnStepNearsAnswer<S>(c: Config<S>, choice: Choice, id: nat)
    requires Next(c, WaiterStep(id, choice)).Some? && choice != Cancel
    requires c.waiters[id].target <= c.sh.persisted
    requires c.waiters[id].w.Returned? ==> c.waiters[id].w == Returned(Reached)
    ensures var w, w' := c.waiters[id].w, Next(c, WaiterStep(id, choice)).value.waiters[id].w;
      && StepsLeft(w') + 1 == StepsLeft(w)
      && (w'.Returned? ==> w' == Returned(Reached))
  {
  }

  /** Once its target is persisted, such a waiter takes at most two steps of its own in any run, and after two
      it has been told that the target is reached. It is told nothing else. */
  lemma {:induction false} PersistedIsAnswered<S(!new)>(c: Config<S>, ls: seq<Label<S>>, end: Config<S>, id: nat)
    requires Exec(c, ls) == Some(end) && Patient(ls, id)
    requires id in c.waiters && c.waiters[id].target <= c.sh.persisted
    requires c.waiters[id].w.Returned? ==> c.waiters[id].w == Returned(Reached)
    ensures id in end.waiters && OwnSteps(ls, id) + StepsLeft(end.waiters[id].w) == StepsLeft(c.waiters[id].w) <= 2
    ensures OwnSteps(ls, id) <= 2 && (OwnSteps(ls, id) == 2 ==> end.waiters[id].w == Returned(Reached))
    ensures end.waiters[id].w.Returned? ==> end.waiters[id].w == Returned(Reached)
    decreases |ls|
  {
    if ls != [] {
      WaiterKept(c, ls[0], id);
      if ls[0].WaiterStep? && ls[0].id == id {
        assert ls[0].choice != Cancel;
        OwnStepNearsAnswer(c, ls[0].choice, id);
      }
      assert Patient(ls[1..], id);
      PersistedIsAnswered(Next(c, ls[0]).value, ls[1..], end, id);
    }
  }

  /** The waiter has a step of its own to take other than giving up. */
  ghost predicate CanStep<S>(c: Config<S>, id: nat) {
    exists choice :: choice != Cancel && Next(c, WaiterStep(id, choice)).Some?
  }

  /** A waiter without an answer is held up exactly while its channel is open and the writer is there; if its
      target is persisted by then, the writer is about to close that channel. */
  lemma HeldUpExactly<S(!new)>(c: Config<S>, id: nat)
    requires Reachable(c) && id in c.waiters && !c.waiters[id].w.Returned?
    ensures !CanStep(c, id) <==>
      c.waiters[id].w.Blocked? && c.waiters[id].w.ch !in c.sh.closedNotify && !c.writer.Exited?
    ensures !CanStep(c, id) && c.waiters[id].target <= c.sh.persisted ==>
      && Next(c, CloseNotify).Some?
      && CanStep(Next(c, CloseNotify).value, id)
  {
    ReachableInv(c);
    if c.waiters[id].w.Blocked? {
      if c.waiters[id].w.ch in c.sh.closedNotify {
        assert Next(c, WaiterStep(id, SeeNotify)).Some?;
      } else if c.writer.Exited? {
        assert Next(c, WaiterStep(id, SeeDone)).Some?;
      } else if c.waiters[id].target <= c.sh.persisted {
        NoLostNotification(c, id);
        var c' := Next(c, CloseNotify).value;
        assert Next(c', WaiterStep(id, SeeNotify)).Some?;
      }
    } else {
      assert Next(c, WaiterStep(id, Lock)).Some?;
    }
  }

  // ---------- The actor ----------

  /** Neither the wait the actor is in nor its last call has ended with its context. */
  predicate ActorGoing<S>(c: Config<S>) {
    && (c.actor.Waiting? ==> c.actor.w != Returned(Cancelled))
    && c.outcome != Waited(Cancelled)
  }

  predicate ActorPatient<S>(ls: seq<Label<S>>) {
    forall i :: 0 <= i < |ls| ==> ls[i] != ActorWait(Cancel)
  }

  lemma ActorStepGoing<S>(c: Config<S>, l: Label<S>)
    requires Next(c, l).Some? && ActorGoing(c) && l != ActorWait(Cancel)
    ensures ActorGoing(Next(c, l).value)
  {
    ThreeThreads(c, l);
    if Next(c, l) == WaiterNext(c, l) {
      WaiterFrame(c, l);
    } else if Next(c, l) != ActorNext(c, l) {
      WriterFrame(c, l);
    }
  }

  /** A FlushSync or Close whose context does not end is never told that it did. */
  lemma {:induction false} PatientFlushIsNotCancelled<S(!new)>(c: Config<S>, ls: seq<Label<S>>, end: Config<S>)
    requires Exec(c, ls) == Some(end) && ActorGoing(c) && ActorPatient(ls)
    ensures ActorGoing(end)
    decreases |ls|
  {
    if ls != [] {
      ActorStepGoing(c, ls[0]);
      assert ActorPatient(ls[1..]);
      PatientFlushIsNotCancelled(Next(c, ls[0]).value, ls[1..], end);
    }
  }

  function ActorWaits<S>(ls: seq<Label<S>>): nat {
    if ls == [] then 0 else (if ls[0].ActorWait? then 1 else 0) + ActorWaits(ls[1..])
  }

  /** The actor stays in its call. */
  ghost predicate StillIn<S>(ls: seq<Label<S>>) {
    forall i :: 0 <= i < |ls| ==> !ls[i].FinishWait?
  }

  lemma ActorStepNears<S>(c: Config<S>, l: Label<S>)
    requires Next(c, l).Some? && l != ActorWait(Cancel) && !l.FinishWait?
    requires c.actor.Waiting? && c.actor.s.version <= c.sh.persisted
    requires c.actor.w.Returned? ==> c.actor.w == Returned(Reached)
    ensures var c' := Next(c, l).value;
      && c'.actor.Waiting? && c'.actor.s == c.actor.s && c'.actor.call == c.actor.call
      && c.sh.persisted <= c'.sh.persisted
      && StepsLeft(c'.actor.w) + (if l.ActorWait? then 1 else 0) == StepsLeft(c.actor.w)
      && (c'.actor.w.Returned? ==> c'.actor.w == Returned(Reached))
  {
    StepFrame(c, l);
    ThreeThreads(c, l);
    if Next(c, l) == WaiterNext(c, l) {
      WaiterFrame(c, l);
    } else if Next(c, l) != ActorNext(c, l) {
      WriterFrame(c, l);
    }
  }

  /** Once its version is persisted, such a FlushSync takes two more steps at most and returns nil. */
  lemma {:induction false} PersistedFlushReturns<S(!new)>(c: Config<S>, ls: seq<Label<S>>, end: Config<S>)
    requires Exec(c, ls) == Some(end) && ActorPatient(ls) && StillIn(ls)
    requires c.actor.Waiting? && c.actor.s.version <= c.sh.persisted
    requires c.actor.w.Returned? ==> c.actor.w == Returned(Reached)
    ensures end.actor.Waiting? && ActorWaits(ls) + StepsLeft(end.actor.w) == StepsLeft(c.actor.w) <= 2
    ensures ActorWaits(ls) == 2 ==> end.actor.w == Returned(Reached)
    ensures end.actor.w.Returned? ==>
      Next(end, FinishWait).Some? && Next(end, FinishWait).value.outcome == Waited(Reached)
    decreases |ls|
  {
    if ls != [] {
      ActorStepNears(c, ls[0]);
      assert ActorPatient(ls[1..]) && StillIn(ls[1..]);
      PersistedFlushReturns(Next(c, ls[0]).value, ls[1..], end);
    }
  }

  ghost predicate ActorCanStep<S>(c: Config<S>) {
    exists choice :: choice != Cancel && Next(c, ActorWait(choice)).Some?
  }

  /** The actor waiting is held up exactly while its channel is open: the writer is still there. */
  lemma ActorHeldUpExactly<S(!new)>(c: Config<S>)
    requires Reachable(c) && c.actor.Waiting? && !c.actor.w.Returned?
    ensures !ActorCanStep(c) <==> c.actor.w.Blocked? && c.actor.w.ch !in c.sh.closedNotify
    ensures !ActorCanStep(c) && c.actor.s.version <= c.sh.persisted ==>
      Next(c, CloseNotify).Some? && ActorCanStep(Next(c, CloseNotify).value)
  {
    ReachableInv(c);
    if c.actor.w.Blocked? {
      if c.actor.w.ch in c.sh.closedNotify {
        assert Next(c, ActorWait(SeeNotify)).Some?;
      } else if c.actor.s.version <= c.sh.persisted {
        NoLostNotificationToActor(c);
        assert Next(Next(c, CloseNotify).value, ActorWait(SeeNotify)).Some?;
      }
    } else {
      assert Next(c, ActorWait(Lock)).Some?;
    }
  }
}
