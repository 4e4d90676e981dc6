/** The world entity's march table, index, armies and cells on the heap: the operations of module
    Marching in place, each proved to do what the function of that module says. */
module WorldEntities {
  import opened Wrappers
  import opened Marching

  // ---------- The table after a sweep ----------

  function Later(row: map<int, March>, now: int): map<int, March> {
    map i | i in row && row[i].arriveAt > now :: row[i]
  }

  /** A row goes when a march was taken off it and none is left. */
  predicate Remains(row: map<int, March>, now: int) {
    Later(row, now) == row || Later(row, now) != map[]
  }

  function SweptTable(t: Table, now: int): Table {
    map p | p in t && Remains(t[p], now) :: Later(t[p], now)
  }

  lemma SweptRight(t: Table, now: int, arrived: seq<March>)
    requires TableKeys(t)
    requires forall m :: m in arrived <==> InTable(t, m) && m.arriveAt <= now
    ensures TableKeys(SweptTable(t, now))
    ensures Live(SweptTable(t, now)) == Minus(Live(t), arrived)
    ensures forall p, i :: p in SweptTable(t, now) && i in SweptTable(t, now)[p] <==>
      p in t && i in t[p] && t[p][i].arriveAt > now
  {
    var after := SweptTable(t, now);
    LiveMembers(t);
    forall p, i | p in t && i in t[p] && t[p][i].arriveAt > now
      ensures p in after && i in after[p]
    {
      assert i in Later(t[p], now);
    }
    LiveMembers(after);
    forall m
      ensures InTable(after, m) <==> m in Minus(Live(t), arrived)
    {
    }
  }

  lemma SweptIs(t: Table, after: Table, now: int)
    requires forall p :: p in after <==> p in t && Remains(t[p], now)
    requires forall p :: p in after ==> after[p] == Later(t[p], now)
    ensures after == SweptTable(t, now)
  {
    var swept := SweptTable(t, now);
    assert forall p :: p in after <==> p in swept;
    assert forall p :: p in after ==> after[p] == swept[p];
  }

  /** A sweep with the rows of `players` still to come. */
  ghost predicate PartSwept(t: Table, players: set<int>, sofar: Table, arrived: seq<March>, now: int) {
    && (forall p :: p in players ==> p in t && p in sofar && sofar[p] == t[p])
    && (forall p :: p !in players ==> (p in sofar <==> p in t && Remains(t[p], now)))
    && (forall p :: p !in players && p in sofar ==> sofar[p] == Later(t[p], now))
    && NoDup(arrived)
    && (forall m :: m in arrived <==> InTable(t, m) && m.player !in players && m.arriveAt <= now)
  }

  lemma RowLive(t: Table, players: set<int>, sofar: Table, arrived: seq<March>, now: int, player: int)
    requires TableKeys(t) && PartSwept(t, players, sofar, arrived, now) && player in players
    ensures player in sofar
    ensures forall i :: i in sofar[player] ==>
      sofar[player][i] in Minus(Live(t), arrived) && sofar[player][i].player == player && sofar[player][i].army == i
    ensures forall x, y :: x in Minus(Live(t), arrived) && y in Minus(Live(t), arrived) && SameKey(x, y) ==> x == y
  {
    LiveMembers(t);
    forall i | i in sofar[player]
      ensures sofar[player][i] in Minus(Live(t), arrived)
    {
      assert InTable(t, t[player][i]);
    }
  }

  lemma PartSweptStep(
      t: Table, players: set<int>, sofar: Table, arrived: seq<March>, now: int, player: int, due: seq<March>)
    requires TableKeys(t) && PartSwept(t, players, sofar, arrived, now) && player in players
    requires NoDup(due)
    requires forall m :: m in due <==> m.army in sofar[player] && sofar[player][m.army] == m && m.arriveAt <= now
    ensures PartSwept(t, players - {player},
      if Remains(sofar[player], now) then sofar[player := Later(sofar[player], now)] else sofar - {player},
      arrived + due, now)
    ensures Minus(Minus(Live(t), arrived), due) == Minus(Live(t), arrived + due)
  {
    forall i, j | 0 <= i < j < |arrived + due|
      ensures (arrived + due)[i] != (arrived + due)[j]
    {
      if i < |arrived| <= j {
        assert arrived[i] in arrived && due[j - |arrived|] in due;
        assert due[j - |arrived|].player == player;
      }
    }
    forall m
      ensures m in arrived + due <==> InTable(t, m) && m.player !in players - {player} && m.arriveAt <= now
    {
    }
  }

  lemma PartSweptDone(t: Table, after: Table, arrived: seq<March>, now: int)
    requires TableKeys(t) && PartSwept(t, {}, after, arrived, now)
    ensures after == SweptTable(t, now)
    ensures TableKeys(after) && Live(after) == Minus(Live(t), arrived)
    ensures forall p, i :: p in after && i in after[p] <==> p in t && i in t[p] && t[p][i].arriveAt > now
    ensures forall m :: m in arrived <==> InTable(t, m) && m.arriveAt <= now
  {
    SweptIs(t, after, now);
    SweptRight(t, now, arrived);
  }

  lemma ReplaceChanges(w: World, a: Army)
    ensures HasArmyState(a) && a.player in w.armies ==>
      (ReplaceArmy(w, a).armies == w.armies <==> GetArmy(w, a.player, a.id) == Some(a))
  {
    if a.player in w.armies {
      var row := w.armies[a.player];
      if a.id in row && row[a.id] == a {
        assert row[a.id := a] == row;
        assert w.armies[a.player := row] == w.armies;
      }
    }
  }

  /** The marches still to be handled are off the table, and belong to different armies. */
  ghost predicate Ready(w: World, rest: seq<March>) {
    && IndexInv(w) && ArmyKeys(w) && DistinctKeys(rest)
    && forall k :: 0 <= k < |rest| ==> Flight(w, rest[k].player, rest[k].army) == None
  }

  lemma ReadyNext(w: World, rest: seq<March>, now: int, o: Outcome)
    requires Ready(w, rest) && rest != []
    ensures Ready(ArriveMarch(w, rest[0], now, o), rest[1..])
  {
    ArriveEffect(w, rest[0], now, o);
    RestOutOfFlight(w, ArriveMarch(w, rest[0], now, o), rest);
  }

  lemma MeetsByKey(w: World, m: March, m': March, now: int)
    requires m.player == m'.player && m.army == m'.army
    ensures MeetsGarrison(w, m, now) == MeetsGarrison(w, m', now)
  {
  }

  lemma Inhabited(s: set<int>)
    requires s != {}
    ensures exists x :: x in s
  {
    assert (forall x :: x !in s) ==> s == {};
  }

  // ---------- The operations in place ----------

  class WorldEntity {
    var armies: map<int, map<int, Army>>
    var marches: Table
    var cells: Index
    var land: map<int, Cell>
    var cities: map<int, map<int, City>>
    const warFree: int
    /** Whether a battle with a garrison runs to its end. With the context as written it never does. */
    const battlesEnd: bool

    function State(): World
      reads this
    {
      World(armies, marches, cells, land, cities, warFree)
    }

    constructor (w: World, battlesEnd: bool)
      ensures State() == w && this.battlesEnd == battlesEnd
    {
      this.battlesEnd := battlesEnd;
      armies, marches, cells, land, cities, warFree := w.armies, w.marches, w.cells, w.land, w.cities, w.warFree;
    }

    method ReplaceArmyState(a: Army) returns (changed: bool)
      modifies this`armies
      ensures State() == ReplaceArmy(old(State()), a)
      ensures changed == (HasArmyState(a) && a.player in old(armies) && armies != old(armies))
    {
      changed := false;
      if !HasArmyState(a) || a.player !in armies {
        return;
      }
      var before := armies[a.player];
      var after := before[a.id := a];
      armies := armies[a.player := after];
      changed := before != after;
    }

    method DispatchArmyMarch(a: Army) returns (ok: bool)
      modifies this`marches, this`cells
      ensures State() == Dispatch(old(State()), a) && ok == HasArmyState(a)
    {
      if !HasArmyState(a) {
        return false;
      }
      var m := MarchOf(a);
      var row := if a.player in marches then marches[a.player] else map[];
      marches := marches[a.player := row[m.army := m]];
      var cell := ToPosition(a.from);
      var items := if cell in cells then cells[cell] else [];
      var filtered := RemoveMarch(items, m);
      cells := cells[cell := filtered + [m]];
      return true;
    }

    method RemoveMarchFromIndex(m: March)
      modifies this`cells
      ensures cells == Unindex(old(cells), m)
    {
      var cell := ToPosition(m.from);
      if cell !in cells || |cells[cell]| == 0 {
        return;
      }
      var filtered := RemoveMarch(cells[cell], m);
      if |filtered| == 0 {
        cells := cells - {cell};
      } else {
        cells := cells[cell := filtered];
      }
    }

    /** The loop over the player's cities, in any order: the last main city seen. */
    method FindMainCity(player: int) returns (home: Option<City>)
      ensures MainCity(State(), player, home)
    {
      home := None;
      if player !in cities {
        return;
      }
      var mine := cities[player];
      var ids := mine.Keys;
      while ids != {}
        invariant ids <= mine.Keys
        invariant home.Some? ==> home.value in mine.Values && home.value.isMain
        invariant home.None? ==> forall id :: id in mine && id !in ids ==> !mine[id].isMain
      {
        Inhabited(ids);
        var id :| id in ids;
        if mine[id].isMain {
          home := Some(mine[id]);
        }
        ids := ids - {id};
      }
      if home.None? {
        assert forall id :: id in mine ==> !mine[id].isMain;
      }
    }

    method AttackRequest(player: int, target: Pos, army: Army, now: int) returns (ok: bool, home: Option<City>)
      modifies this`armies, this`marches, this`cells
      ensures (State(), ok) == Attack(old(State()), player, target, army, home, now)
      ensures ok ==> MainCity(old(State()), player, home)
    {
      home := None;
      var at := ToPosition(target);
      if at !in land || land[at].owner == 0 || player !in cities {
        return false, home;
      }
      home := FindMainCity(player);
      if home.None? {
        return false, home;
      }
      if !CanAttack(player, land[at].owner, home.value.alliance, land[at].alliance)
         || IsWarFree(State(), now, land[at].occupyTime) {
        return false, home;
      }
      var sent := army.(from := home.value.pos, to := land[at].pos, cmd := Strike, motion := Running,
                        start := now, end := now + TRAVEL_TIME);
      var mine := if player in armies then armies[player] else map[];
      armies := armies[player := mine[army.id := sent]];
      var _ := DispatchArmyMarch(sent);
      return true, home;
    }

    method BackRequest(player: int, id: int, now: int, seen: int) returns (ok: bool)
      modifies this`armies, this`marches, this`cells
      ensures (State(), ok) == Back(old(State()), player, id, now, seen)
    {
      if player <= 0 || id <= 0 || player !in armies || id !in armies[player] {
        return false;
      }
      var army := armies[player][id];
      if army.motion != Running || player !in marches || id !in marches[player] {
        return false;
      }
      RemoveMarchFromIndex(marches[player][id]);
      army := army.(from := MarchPos(army, seen), to := army.from, cmd := Retreat, motion := Running,
                    start := now, end := now + TRAVEL_TIME);
      ghost var cleared := State();
      var changed := ReplaceArmyState(army);
      ReplaceChanges(cleared, army);
      if !changed {
        return false;
      }
      var _ := DispatchArmyMarch(army);
      return true;
    }

    /** Takes the due marches of one player's row, a copy of the table's, out of the index. */
    method SweepRow(player: int, row: map<int, March>, now: int, ghost live: set<March>)
      returns (left: map<int, March>, due: seq<March>)
      requires Indexed(live, cells)
      requires forall x, y :: x in live && y in live && SameKey(x, y) ==> x == y
      requires forall i :: i in row ==> row[i] in live && row[i].player == player && row[i].army == i
      modifies this`cells
      ensures Indexed(Minus(live, due), cells)
      ensures NoDup(due)
      ensures forall m :: m in due <==> m.army in row && row[m.army] == m && m.arriveAt <= now
      ensures left == Later(row, now)
    {
      left, due := row, [];
      var ids := row.Keys;
      assert live == Minus(live, due);
      while ids != {}
        invariant ids <= row.Keys
        invariant Indexed(Minus(live, due), cells)
        invariant NoDup(due)
        invariant forall m :: m in due <==>
          m.army in row && m.army !in ids && row[m.army] == m && m.arriveAt <= now
        invariant left == map i | i in row && (i in ids || row[i].arriveAt > now) :: row[i]
      {
        Inhabited(ids);
        var id :| id in ids;
        var m := row[id];
        if m.arriveAt <= now {
          ghost var before := Minus(live, due);
          UnindexCells(before, cells, m);
          assert Others(before, m) == Minus(live, due + [m]);
          due := due + [m];
          left := left - {id};
          RemoveMarchFromIndex(m);
        }
        ids := ids - {id};
      }
    }

    method SweepPlayer(player: int, now: int, ghost live: set<March>) returns (due: seq<March>)
      requires Indexed(live, cells)
      requires forall x, y :: x in live && y in live && SameKey(x, y) ==> x == y
      requires player in marches
      requires forall i :: i in marches[player] ==>
        marches[player][i] in live && marches[player][i].player == player && marches[player][i].army == i
      modifies this`marches, this`cells
      ensures Indexed(Minus(live, due), cells)
      ensures NoDup(due)
      ensures forall m :: m in due <==>
        m.army in old(marches[player]) && old(marches[player])[m.army] == m && m.arriveAt <= now
      ensures marches == if Remains(old(marches[player]), now)
                         then old(marches)[player := Later(old(marches[player]), now)] else old(marches) - {player}
    {
      var row := marches[player];
      var left;
      left, due := SweepRow(player, row, now, live);
      if |due| > 0 {
        assert due[0] in due;
        if |left| == 0 {
          marches := marches - {player};
        } else {
          marches := marches[player := left];
        }
      } else {
        assert forall i :: i in row ==> row[i] !in due;
        assert left == row;
      }
    }

    method Sweep(now: int) returns (arrived: seq<March>)
      requires IndexInv(State())
      modifies this`marches, this`cells
      ensures Swept(old(State()), now, State(), arrived)
      ensures marches == SweptTable(old(marches), now)
    {
      arrived := [];
      ghost var table := marches;
      var players := marches.Keys;
      LiveMembers(table);
      assert Live(table) == Minus(Live(table), []);
      while players != {}
        invariant players <= table.Keys
        invariant PartSwept(table, players, marches, arrived, now)
        invariant Indexed(Minus(Live(table), arrived), cells)
      {
        Inhabited(players);
        var player :| player in players;
        RowLive(table, players, marches, arrived, now, player);
        ghost var before := marches;
        var due := SweepPlayer(player, now, Minus(Live(table), arrived));
        PartSweptStep(table, players, before, arrived, now, player, due);
        arrived := arrived + due;
        players := players - {player};
      }
      PartSweptDone(table, marches, arrived, now);
    }

    /** Without a garrison the cell is damaged and the army goes home. With one there is a battle, which
        may fail before anything is stored. */
    method StartBattleAt(a: Army, c: Cell, o: Outcome) returns (ok: bool)
      modifies this`armies, this`marches, this`cells, this`land
      ensures ok <==> battlesEnd || Garrisoned(old(State()), c).None?
      ensures State() == if ok then StartBattle(old(State()), a, c, o) else old(State())
    {
      var home: Army;
      var defended := c.owner in armies && c.garrison in armies[c.owner] && HasArmyState(armies[c.owner][c.garrison]);
      if defended {
        if !battlesEnd {
          return false;
        }
        var garrison := armies[c.owner][c.garrison];
        home := Homeward(Fought(a, o.attackerGenerals, o.attackerSoldiers), c.pos, o.clock);
        var _ := ReplaceArmyState(home);
        var _ := ReplaceArmyState(Fought(garrison, o.defenderGenerals, o.defenderSoldiers));
      } else {
        DamageCell(c, o.destroy);
        home := Homeward(a, c.pos, o.clock);
        var _ := ReplaceArmyState(home);
      }
      var _ := DispatchArmyMarch(home);
      return true;
    }

    method DamageCell(c: Cell, destroy: int)
      modifies this`land
      ensures State() == Damage(old(State()), c, destroy)
    {
      if c.id in land {
        var cell := land[c.id];
        var durable := cell.curDurable - destroy;
        if durable < 0 {
          durable := 0;
        } else if durable > cell.maxDurable {
          durable := cell.maxDurable;
        }
        land := land[c.id := cell.(curDurable := durable)];
      }
    }

    method HandleArrive(a: Army, now: int, o: Outcome) returns (ok: bool)
      requires GetArmy(State(), a.player, a.id) == Some(a)
      modifies this`armies, this`marches, this`cells, this`land
      ensures ok <==> battlesEnd || !MeetsGarrison(old(State()), MarchOf(a), now)
      ensures State() == if ok then Arrive(old(State()), a, now, o) else old(State())
    {
      ok := true;
      if a.cmd == Strike {
        var at := ToPosition(a.to);
        if at !in land || land[at].owner == 0 {
          return;
        }
        if !CanAttack(a.player, land[at].owner, a.alliance, land[at].alliance)
           || IsWarFree(State(), now, land[at].occupyTime) {
          return;
        }
        ok := StartBattleAt(a, land[at], o);
      } else if a.cmd == Retreat {
        armies := armies[a.player := armies[a.player][a.id := Rested(armies[a.player][a.id])]];
      }
    }

    /** The army of one arrived march, if it still exists. */
    method ArriveOne(m: March, now: int, o: Outcome) returns (ok: bool)
      requires ArmyKeys(State())
      modifies this`armies, this`marches, this`cells, this`land
      ensures ok <==> battlesEnd || !MeetsGarrison(old(State()), m, now)
      ensures State() == if ok then ArriveMarch(old(State()), m, now, o) else old(State())
    {
      ok := true;
      if m.player in armies && m.army in armies[m.player] {
        var army := armies[m.player][m.army];
        MeetsByKey(State(), m, MarchOf(army), now);
        ok := HandleArrive(army, now, o);
      }
    }

    /** The second half of a tick: the arrivals in turn, until a battle fails. */
    method HandleArrivals(arrived: seq<March>, now: int, outcome: int -> Outcome) returns (ghost e: TickEnd)
      requires Ready(State(), arrived)
      modifies this`armies, this`marches, this`cells, this`land
      ensures e == RunArrivals(old(State()), arrived, now, seq(|arrived|, outcome), battlesEnd)
      ensures State() == e.w
    {
      ghost var os := seq(|arrived|, outcome);
      e := RunArrivals(State(), arrived, now, os, battlesEnd);
      assert arrived[0..] == arrived && os[0..] == os;
      for k := 0 to |arrived|
        invariant Ready(State(), arrived[k..])
        invariant e == RunArrivals(State(), arrived[k..], now, os[k..], battlesEnd)
      {
        ghost var before := State();
        ReadyNext(before, arrived[k..], now, os[k]);
        assert arrived[k..][1..] == arrived[k + 1..] && os[k..][1..] == os[k + 1..];
        var ok := ArriveOne(arrived[k], now, outcome(k));
        if !ok {
          return;
        }
      }
      assert arrived[|arrived|..] == [];
    }

    /** One tick: sweep the due marches off table and index, then handle their armies. */
    method Tick(now: int, outcome: int -> Outcome) returns (ghost e: TickEnd, arrived: seq<March>, ghost swept: World)
      requires Inv(State()) && forall k :: outcome(k).clock >= now
      modifies this`armies, this`marches, this`cells, this`land
      ensures Ticked(old(State()), now, swept, arrived, seq(|arrived|, outcome), battlesEnd, e)
      ensures State() == e.w && Inv(State())
    {
      arrived := Sweep(now);
      swept := State();
      SweptDistinct(old(State()), now, swept, arrived);
      e := HandleArrivals(arrived, now, outcome);
      TickSettles(old(State()), now, swept, arrived, seq(|arrived|, outcome), battlesEnd, e);
    }
  }
}
