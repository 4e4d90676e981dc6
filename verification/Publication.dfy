/** Alliance summaries: an alliance actor publishes the summary of a snapshot to the manager only after
    that snapshot is persisted, and the manager keeps the newest summary of each alliance. */
module Manager {
  import opened Wrappers

  /** `id` is the alliance id inside the summary. */
  datatype Upsert<+M> = Upsert(worldId: int, version: nat, id: int, summary: M)

  datatype Entry<+M> = Entry(summary: M, version: nat)

  predicate Accepts<M>(worldID: int, summaries: map<int, Entry<M>>, u: Upsert<M>) {
    && u.worldId > 0 && u.worldId == worldID
    && u.id > 0
    && (u.id in summaries ==> summaries[u.id].version <= u.version)
  }

  function ApplySummary<M>(worldID: int, summaries: map<int, Entry<M>>, u: Upsert<M>): map<int, Entry<M>> {
    if Accepts(worldID, summaries, u) then summaries[u.id := Entry(u.summary, u.version)] else summaries
  }

  class ManagerActor<M(0)> {
    const worldID: int
    var summaries: map<int, Entry<M>>
    var dbLoaded: bool

    constructor (worldID: int)
      ensures this.worldID == (if worldID < 0 then 0 else worldID) && summaries == map[] && !dbLoaded
    {
      this.worldID := if worldID < 0 then 0 else worldID;
      summaries, dbLoaded := map[], false;
    }

    /** Stored versions never decrease, and every other alliance keeps its entry. */
    method Apply(u: Upsert<M>)
      modifies `summaries
      ensures summaries == ApplySummary(worldID, old(summaries), u)
      ensures forall id | id in old(summaries) :: id in summaries && old(summaries)[id].version <= summaries[id].version
    {
      if u.worldId <= 0 || u.worldId != worldID {
        return;
      }
      if u.id <= 0 {
        return;
      }
      if u.id in summaries && u.version < summaries[u.id].version {
        return;
      }
      summaries := summaries[u.id := Entry(u.summary, u.version)];
    }

    /** `states` are the rows of the database query as (world id, alliance id, summary); the last row of
        an alliance wins and everything stored before is forgotten. */
    method ReloadFromDB(states: seq<(int, int, M)>)
      modifies this
      ensures dbLoaded
      ensures forall id | id in summaries :: summaries[id].version == 0
      ensures forall id :: id in summaries <==> exists i :: 0 <= i < |states| && states[i].0 == worldID && states[i].1 == id
      ensures forall i | 0 <= i < |states| && states[i].0 == worldID
                && (forall j | i < j < |states| :: states[j].0 == worldID ==> states[j].1 != states[i].1) ::
                summaries[states[i].1].summary == states[i].2
    {
      var next: map<int, Entry<M>> := map[];
      for n := 0 to |states|
        invariant forall id | id in next :: next[id].version == 0
        invariant forall id :: id in next <==> exists i :: 0 <= i < n && states[i].0 == worldID && states[i].1 == id
        invariant forall i | 0 <= i < n && states[i].0 == worldID
                    && (forall j | i < j < n :: states[j].0 == worldID ==> states[j].1 != states[i].1) ::
                    next[states[i].1].summary == states[i].2
      {
        if states[n].0 == worldID {
          next := next[states[n].1 := Entry(states[n].2, 0)];
        }
      }
      summaries := next;
      dbLoaded := true;
    }
  }

  /** The summaries after a sequence of messages. */
  function Delivered<M>(worldID: int, summaries: map<int, Entry<M>>, us: seq<Upsert<M>>): map<int, Entry<M>> {
    if us == [] then summaries
    else ApplySummary(worldID, Delivered(worldID, summaries, us[..|us| - 1]), us[|us| - 1])
  }

  /** The messages of one incarnation of alliance `id`, among any others: its versions never fall. */
  ghost predicate Incarnation<M>(worldID: int, us: seq<Upsert<M>>, id: int) {
    && (forall i :: 0 <= i < |us| && us[i].id == id ==> us[i].worldId == worldID)
    && (forall i, j :: 0 <= i < j < |us| && us[i].id == id && us[j].id == id ==> us[i].version <= us[j].version)
  }

  /** The last message of alliance `id`, or -1. */
  function LastOf<M>(us: seq<Upsert<M>>, id: int): (k: int)
    ensures -1 <= k < |us|
    ensures k >= 0 ==> us[k].id == id
    ensures forall j :: k < j < |us| ==> us[j].id != id
  {
    if us == [] then -1
    else if us[|us| - 1].id == id then |us| - 1
    else LastOf(us[..|us| - 1], id)
  }

  /** A new incarnation of an alliance actor counts its versions from the beginning again. Whatever else
      arrives in between, the entry its predecessor left stays as it was as long as the newest message
      delivered is below that entry's version, and from then on the entry is the newest message. */
  lemma {:induction false} RestartedActorIsIgnored<M>(
      worldID: int, summaries: map<int, Entry<M>>, us: seq<Upsert<M>>, id: int)
    requires worldID > 0 && id > 0 && id in summaries && Incarnation(worldID, us, id)
    ensures var k := LastOf(us, id);
      && id in Delivered(worldID, summaries, us)
      && Delivered(worldID, summaries, us)[id] ==
           if k < 0 || us[k].version < summaries[id].version then summaries[id]
           else Entry(us[k].summary, us[k].version)
  {
    if us != [] {
      var before, u := us[..|us| - 1], us[|us| - 1];
      RestartedActorIsIgnored(worldID, summaries, before, id);
      var k := LastOf(before, id);
      if u.id == id && k >= 0 {
        assert us[k].version <= u.version;
      }
    }
  }
}

module Publication {
  import opened Wrappers
  import opened DataCenterState
  import opened WriteBehind
  import opened Manager

  /** One incarnation of an alliance actor with its data center, the goroutines it spawned, the messages
      on their way and the manager. `capturing` is the summary taken at the start of a flushTick whose
      Tick is still running. */
  datatype Pub<S, M(==)> = Pub(
    dc: Config<S>,
    capturing: Option<M>,
    pending: Option<(nat, M)>,
    spawned: set<nat>,
    ready: multiset<nat>,
    upserts: multiset<Upsert<M>>,
    summaries: map<int, Entry<M>>,
    dbLoaded: bool)

  /** What is fixed during a run: the world, and how a saved state is summarised. */
  datatype Setting<!S, !M> = Setting(worldID: int, summarise: S -> M, idOf: M -> int)

  datatype Event<S, M> =
    | Data(l: Label<S>)           // any step of the data center outside a flushTick's own start
    | FlushTick                   // take the summary and call Tick
    | EndTick(id: nat)            // remember the summary and spawn the goroutine waiting for the version
    | SendReady(id: nat)          // the goroutine's WaitPersisted returned nil
    | HandleReady(v: nat)
    | Bootstrap                   // the version-0 summary sent once the actor is online
    | ForgetPending               // stopping or restarting
    | Deliver(u: Upsert<M>)
    | ReloadDB(rows: map<int, M>)

  function Message<S, M>(k: Setting<S, M>, version: nat, m: M): Upsert<M> {
    Upsert(k.worldID, version, k.idOf(m), m)
  }

  /** The events that leave the data center alone. */
  ghost function MessageNext<S, M>(k: Setting<S, M>, p: Pub<S, M>, ev: Event<S, M>): Option<Pub<S, M>> {
    match ev
    case SendReady(id) =>
      if id !in p.spawned || id !in p.dc.waiters || p.dc.waiters[id].w != Returned(Reached) then None else
      Some(p.(spawned := p.spawned - {id}, ready := p.ready + multiset{p.dc.waiters[id].target}))
    case HandleReady(v) =>
      if v !in p.ready || !p.dc.actor.Idle? || p.capturing.Some? then None
      else if p.pending.None? || p.pending.value.0 != v then Some(p.(ready := p.ready - multiset{v}))
      else
        Some(p.(ready := p.ready - multiset{v}, pending := None,
                upserts := p.upserts + multiset{Message(k, v, p.pending.value.1)}))
    case Bootstrap =>
      if !p.dc.actor.Idle? || p.capturing.Some? then None else
      Some(p.(upserts := p.upserts + multiset{Message(k, 0, k.summarise(p.dc.current))}))
    case ForgetPending =>
      if p.capturing.Some? then None else Some(p.(pending := None))
    case Deliver(u) =>
      if u !in p.upserts then None else
      Some(p.(upserts := p.upserts - multiset{u}, summaries := ApplySummary(k.worldID, p.summaries, u)))
    case ReloadDB(rows) =>
      if p.dbLoaded then None else
      Some(p.(summaries := map id | id in rows :: Entry(rows[id], 0), dbLoaded := true))
    case _ => None
  }

  ghost function Next<S, M>(k: Setting<S, M>, p: Pub<S, M>, ev: Event<S, M>): Option<Pub<S, M>> {
    match ev
    case Data(l) =>
      // While the handler of a flushTick runs, the actor does nothing else.
      if p.capturing.Some? && (l.Mutate? || l.StartCall?) then None else
      var dc' := WriteBehind.Next(p.dc, l);
      if dc'.None? then None else Some(p.(dc := dc'.value))
    case FlushTick =>
      if !p.dc.actor.Idle? || p.capturing.Some? then None else
      Some(p.(capturing := Some(k.summarise(p.dc.current)), dc := WriteBehind.Next(p.dc, StartCall(Tick)).value))
    case EndTick(id) =>
      if !p.dc.actor.Idle? || p.capturing.None? || id in p.dc.waiters then None
      else if !p.dc.outcome.Queued? then Some(p.(capturing := None))
      else
        Some(p.(capturing := None,
                pending := Some((p.dc.outcome.v, p.capturing.value)),
                dc := p.dc.(waiters := p.dc.waiters[id := Waiter(p.dc.outcome.v, Check)]),
                spawned := p.spawned + {id}))
    case _ => MessageNext(k, p, ev)
  }

  ghost predicate Init<S, M>(p: Pub<S, M>) {
    && WriteBehind.Init(p.dc)
    && p.capturing.None? && p.pending.None?
    && p.spawned == {} && p.ready == multiset{} && p.upserts == multiset{}
    && p.summaries == map[] && !p.dbLoaded
  }

  ghost function Exec<S, M>(k: Setting<S, M>, p: Pub<S, M>, evs: seq<Event<S, M>>): Option<Pub<S, M>>
    decreases |evs|
  {
    if evs == [] then Some(p) else
    var p' := Next(k, p, evs[0]);
    if p'.None? then None else Exec(k, p'.value, evs[1..])
  }

  // ---------- The invariant ----------

  /** A summary with version v > 0 belongs to snapshot v. */
  ghost predicate OfSnapshot<S, M>(k: Setting<S, M>, dc: Config<S>, v: nat, m: M) {
    1 <= v <= |dc.built| && m == k.summarise(dc.built[v - 1])
  }

  ghost predicate Published<S, M>(k: Setting<S, M>, dc: Config<S>, v: nat, m: M) {
    v > 0 ==> OfSnapshot(k, dc, v, m) && v <= dc.sh.persisted
  }

  ghost predicate InTick<S>(dc: Config<S>) {
    match dc.actor
    case Bumping(call) => call == Tick
    case Building(call, _) => call == Tick
    case Enqueueing(call, _) => call == Tick
    case Waking(call, _) => call == Tick
    case Idle =>
      dc.outcome.Queued? ==>
        dc.outcome.v == |dc.built| >= 1 && dc.current == dc.built[dc.outcome.v - 1]
    case _ => false
  }

  ghost predicate SummaryInv<S, M>(k: Setting<S, M>, p: Pub<S, M>) {
    && (p.capturing.Some? ==> p.capturing.value == k.summarise(p.dc.current) && InTick(p.dc))
    && (p.pending.Some? ==> OfSnapshot(k, p.dc, p.pending.value.0, p.pending.value.1))
    && (forall v | v in p.ready :: v <= p.dc.sh.persisted)
    && (forall u | u in p.upserts :: Published(k, p.dc, u.version, u.summary))
    && (forall id | id in p.summaries :: Published(k, p.dc, p.summaries[id].version, p.summaries[id].summary))
  }

  lemma ActorKeepsTick<S>(c: Config<S>, l: Label<S>)
    requires Inv(c) && ActorNext(c, l).Some? && !l.Mutate? && !l.StartCall?
    requires InTick(c)
    ensures InTick(ActorNext(c, l).value)
  {
  }

  lemma DataKeepsTick<S>(c: Config<S>, l: Label<S>)
    requires Inv(c) && WriteBehind.Next(c, l).Some? && !l.Mutate? && !l.StartCall?
    requires InTick(c)
    ensures InTick(WriteBehind.Next(c, l).value)
  {
    ThreeThreads(c, l);
    if WriteBehind.Next(c, l) == WaiterNext(c, l) {
      WaiterFrame(c, l);
    } else if WriteBehind.Next(c, l) == ActorNext(c, l) {
      ActorKeepsTick(c, l);
    } else {
      WriterFrame(c, l);
    }
  }

  lemma StartTick<S>(c: Config<S>)
    requires Inv(c) && c.actor.Idle?
    ensures var c' := WriteBehind.Next(c, StartCall(Tick));
            c'.Some? && InTick(c'.value) && c'.value.current == c.current
            && c'.value.built == c.built && c'.value.sh == c.sh
  {
  }

  /** Every event grows the data center, so facts about its snapshots last. */
  ghost predicate Grows<S>(dc: Config<S>, dc': Config<S>) {
    dc.built <= dc'.built && dc.sh.persisted <= dc'.sh.persisted
  }

  lemma GrowthKeepsSummaries<S, M>(k: Setting<S, M>, p: Pub<S, M>, dc': Config<S>)
    requires SummaryInv(k, p) && Grows(p.dc, dc')
    requires p.capturing.Some? ==> dc'.current == p.dc.current && InTick(dc')
    ensures SummaryInv(k, p.(dc := dc'))
  {
    assert forall v: nat, m: M :: OfSnapshot(k, p.dc, v, m) ==> OfSnapshot(k, dc', v, m);
    assert forall v: nat, m: M :: Published(k, p.dc, v, m) ==> Published(k, dc', v, m);
  }

  lemma DataKeepsSummaries<S, M>(k: Setting<S, M>, p: Pub<S, M>, l: Label<S>)
    requires SummaryInv(k, p) && Inv(p.dc) && Next(k, p, Data(l)).Some?
    ensures SummaryInv(k, Next(k, p, Data(l)).value)
  {
    StepFrame(p.dc, l);
    if p.capturing.Some? {
      DataKeepsTick(p.dc, l);
    }
    GrowthKeepsSummaries(k, p, WriteBehind.Next(p.dc, l).value);
  }

  lemma FlushTickKeepsSummaries<S, M>(k: Setting<S, M>, p: Pub<S, M>)
    requires SummaryInv(k, p) && Inv(p.dc) && Next(k, p, FlushTick).Some?
    ensures SummaryInv(k, Next(k, p, FlushTick).value)
  {
    StartTick(p.dc);
    GrowthKeepsSummaries(k, p, WriteBehind.Next(p.dc, StartCall(Tick)).value);
  }

  lemma EndTickKeepsSummaries<S, M>(k: Setting<S, M>, p: Pub<S, M>, id: nat)
    requires SummaryInv(k, p) && Next(k, p, EndTick(id)).Some?
    ensures SummaryInv(k, Next(k, p, EndTick(id)).value)
  {
    GrowthKeepsSummaries(k, p.(capturing := None), Next(k, p, EndTick(id)).value.dc);
  }

  /** The remaining events leave the data center alone. */
  lemma ReadyKeepsSummaries<S, M>(k: Setting<S, M>, p: Pub<S, M>, ev: Event<S, M>)
    requires SummaryInv(k, p) && WaiterInv(p.dc) && MessageNext(k, p, ev).Some?
    requires ev.SendReady? || ev.HandleReady?
    ensures SummaryInv(k, MessageNext(k, p, ev).value)
  {
  }

  lemma MessageKeepsSummaries<S, M>(k: Setting<S, M>, p: Pub<S, M>, ev: Event<S, M>)
    requires SummaryInv(k, p) && MessageNext(k, p, ev).Some?
    requires !ev.SendReady? && !ev.HandleReady?
    ensures SummaryInv(k, MessageNext(k, p, ev).value)
  {
  }

  lemma MessageKeepsData<S, M>(k: Setting<S, M>, p: Pub<S, M>, ev: Event<S, M>)
    requires MessageNext(k, p, ev).Some?
    ensures MessageNext(k, p, ev).value.dc == p.dc
  {
  }

  lemma EventKeepsSummaries<S, M>(k: Setting<S, M>, p: Pub<S, M>, ev: Event<S, M>)
    requires SummaryInv(k, p) && Inv(p.dc) && Next(k, p, ev).Some?
    ensures SummaryInv(k, Next(k, p, ev).value)
  {
    match ev
    case Data(l) => DataKeepsSummaries(k, p, l);
    case FlushTick => FlushTickKeepsSummaries(k, p);
    case EndTick(id) => EndTickKeepsSummaries(k, p, id);
    case SendReady(_) => ReadyKeepsSummaries(k, p, ev);
    case HandleReady(_) => ReadyKeepsSummaries(k, p, ev);
    case _ => MessageKeepsSummaries(k, p, ev);
  }

  lemma EventKeepsData<S, M>(k: Setting<S, M>, p: Pub<S, M>, ev: Event<S, M>)
    requires Inv(p.dc) && Next(k, p, ev).Some?
    ensures Inv(Next(k, p, ev).value.dc)
  {
    match ev
    case Data(l) => StepInv(p.dc, l);
    case FlushTick =>
      StartTick(p.dc);
      StepInv(p.dc, StartCall(Tick));
    case EndTick(id) =>
      if p.dc.outcome.Queued? {
        StepInv(p.dc, StartWaiter(id, p.dc.outcome.v));
      }
    case _ => MessageKeepsData(k, p, ev);
  }

  lemma {:induction false} RunKeepsInv<S, M>(k: Setting<S, M>, p: Pub<S, M>, evs: seq<Event<S, M>>)
    requires SummaryInv(k, p) && Inv(p.dc) && Exec(k, p, evs).Some?
    ensures SummaryInv(k, Exec(k, p, evs).value) && Inv(Exec(k, p, evs).value.dc)
    decreases |evs|
  {
    if evs != [] {
      EventKeepsSummaries(k, p, evs[0]);
      EventKeepsData(k, p, evs[0]);
      RunKeepsInv(k, Next(k, p, evs[0]).value, evs[1..]);
    }
  }

  /** Publication safety: in every run, a summary the manager holds with version v > 0 is the summary of
      the state in snapshot v, and that snapshot, or a later one, is in the repository. */
  lemma StoredSummaryIsPersisted<S, M>(k: Setting<S, M>, p0: Pub<S, M>, evs: seq<Event<S, M>>, id: int)
    requires Init(p0) && Exec(k, p0, evs).Some?
    requires var p := Exec(k, p0, evs).value; id in p.summaries && p.summaries[id].version > 0
    ensures var p := Exec(k, p0, evs).value;
            var e := p.summaries[id];
            && e.version <= p.dc.sh.persisted <= |p.dc.built|
            && e.summary == k.summarise(p.dc.built[e.version - 1])
            && p.dc.storedVersion >= e.version
  {
    InitInv(p0.dc);
    RunKeepsInv(k, p0, evs);
  }

  /** A summary is sent only after its snapshot was persisted. */
  lemma SentSummaryIsPersisted<S, M>(k: Setting<S, M>, p0: Pub<S, M>, evs: seq<Event<S, M>>, u: Upsert<M>)
    requires Init(p0) && Exec(k, p0, evs).Some?
    requires u in Exec(k, p0, evs).value.upserts && u.version > 0
    ensures var p := Exec(k, p0, evs).value;
            u.version <= p.dc.sh.persisted <= |p.dc.built| && u.summary == k.summarise(p.dc.built[u.version - 1])
  {
    InitInv(p0.dc);
    RunKeepsInv(k, p0, evs);
  }

  /** One event: once the summaries are loaded they stay loaded, and no stored version falls. */
  lemma EventKeepsVersions<S, M>(k: Setting<S, M>, p: Pub<S, M>, ev: Event<S, M>, id: int)
    requires Next(k, p, ev).Some? && p.dbLoaded && id in p.summaries
    ensures var p' := Next(k, p, ev).value;
      p'.dbLoaded && id in p'.summaries && p.summaries[id].version <= p'.summaries[id].version
  {
  }

  /** From the first reload on, over every run, an alliance stays stored and its version never falls. */
  lemma {:induction false} StoredVersionsGrow<S, M>(k: Setting<S, M>, p: Pub<S, M>, evs: seq<Event<S, M>>, id: int)
    requires Exec(k, p, evs).Some? && p.dbLoaded && id in p.summaries
    ensures var p' := Exec(k, p, evs).value;
      p'.dbLoaded && id in p'.summaries && p.summaries[id].version <= p'.summaries[id].version
    decreases |evs|
  {
    if evs != [] {
      EventKeepsVersions(k, p, evs[0], id);
      StoredVersionsGrow(k, Next(k, p, evs[0]).value, evs[1..], id);
    }
  }

  ghost predicate NoReload<S, M>(evs: seq<Event<S, M>>) {
    forall i :: 0 <= i < |evs| ==> !evs[i].ReloadDB?
  }

  /** Before it the same holds as long as no reload comes. */
  lemma {:induction false} VersionsGrowUntilReload<S, M>(
      k: Setting<S, M>, p: Pub<S, M>, evs: seq<Event<S, M>>, id: int)
    requires Exec(k, p, evs).Some? && NoReload(evs) && id in p.summaries
    ensures var p' := Exec(k, p, evs).value;
      p'.dbLoaded == p.dbLoaded && id in p'.summaries && p.summaries[id].version <= p'.summaries[id].version
    decreases |evs|
  {
    if evs != [] {
      var ev := evs[0];
      assert !ev.ReloadDB?;
      assert id in Next(k, p, ev).value.summaries;
      VersionsGrowUntilReload(k, Next(k, p, ev).value, evs[1..], id);
    }
  }

  /** Once loaded, the summaries are never reloaded. */
  lemma {:induction false} LoadedOnce<S, M>(k: Setting<S, M>, p: Pub<S, M>, evs: seq<Event<S, M>>)
    requires Exec(k, p, evs).Some? && p.dbLoaded
    ensures NoReload(evs)
    decreases |evs|
  {
    if evs != [] {
      assert Next(k, p, evs[0]).value.dbLoaded;
      LoadedOnce(k, Next(k, p, evs[0]).value, evs[1..]);
      forall i | 0 <= i < |evs|
        ensures !evs[i].ReloadDB?
      {
        if i > 0 {
          assert evs[i] == evs[1..][i - 1];
        }
      }
    }
  }

  // ---------- A persisted summary gets there ----------

  /** The end of a flushTick that queued a version remembers the summary taken at its start under that version, and
      leaves a goroutine waiting for it. */
  lemma EndTickWaits<S, M>(k: Setting<S, M>, p: Pub<S, M>, id: nat)
    requires Next(k, p, EndTick(id)).Some? && p.dc.outcome.Queued?
    ensures var p' := Next(k, p, EndTick(id)).value;
      && p'.pending == Some((p.dc.outcome.v, p.capturing.value)) && p'.capturing.None?
      && id in p'.spawned && id in p'.dc.waiters && p'.dc.waiters[id] == Waiter(p.dc.outcome.v, Check)
  {
  }

  /** A message that a version is persisted makes the actor send exactly if it is the version remembered, and then
      exactly that summary, once. */
  lemma ReadySendsExactly<S, M>(k: Setting<S, M>, p: Pub<S, M>, v: nat)
    requires v in p.ready && p.dc.actor.Idle? && p.capturing.None?
    ensures Next(k, p, HandleReady(v)).Some?
    ensures var p' := Next(k, p, HandleReady(v)).value;
      if p.pending.Some? && p.pending.value.0 == v
      then p'.pending.None? && p'.upserts == p.upserts + multiset{Message(k, v, p.pending.value.1)}
      else p'.pending == p.pending && p'.upserts == p.upserts
  {
  }

  /** Once the goroutine waiting for the remembered version has its answer, three events bring the summary to the
      manager, which then holds it or a newer one. */
  lemma PersistedSummaryArrives<S, M>(k: Setting<S, M>, p: Pub<S, M>, id: nat)
    requires p.dc.actor.Idle? && p.capturing.None? && p.pending.Some?
    requires id in p.spawned && id in p.dc.waiters
    requires p.dc.waiters[id] == Waiter(p.pending.value.0, Returned(Reached))
    requires k.worldID > 0 && k.idOf(p.pending.value.1) > 0
    ensures var (v, m) := p.pending.value;
      var evs := [SendReady(id), HandleReady(v), Deliver(Message(k, v, m))];
      && Exec(k, p, evs).Some?
      && var q := Exec(k, p, evs).value;
      && q.pending.None? && k.idOf(m) in q.summaries
      && (if k.idOf(m) in p.summaries && v < p.summaries[k.idOf(m)].version
          then q.summaries == p.summaries else q.summaries == p.summaries[k.idOf(m) := Entry(m, v)])
  {
    var (v, m) := p.pending.value;
    var e1: Event<S, M>, e2: Event<S, M>, e3: Event<S, M> := SendReady(id), HandleReady(v), Deliver(Message(k, v, m));
    var p1 := Next(k, p, e1).value;
    ReadySendsExactly(k, p1, v);
    assert Next(k, Next(k, p1, e2).value, e3).Some?;
    ExecThree(k, p, e1, e2, e3);
  }

  lemma ExecThree<S, M>(k: Setting<S, M>, p: Pub<S, M>, e1: Event<S, M>, e2: Event<S, M>, e3: Event<S, M>)
    requires Next(k, p, e1).Some? && Next(k, Next(k, p, e1).value, e2).Some?
    ensures Exec(k, p, [e1, e2, e3]) == Next(k, Next(k, Next(k, p, e1).value, e2).value, e3)
  {
    var p1 := Next(k, p, e1).value;
    var p2 := Next(k, p1, e2).value;
    assert [e1, e2, e3][1..] == [e2, e3] && [e2, e3][1..] == [e3] && [e3][1..] == [];
    assert Exec(k, p2, [e3]) == Next(k, p2, e3);
    assert Exec(k, p1, [e2, e3]) == Exec(k, p2, [e3]);
  }
}
