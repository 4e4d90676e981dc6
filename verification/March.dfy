/** Marches of armies across the world map: the per-player march table, the index from a map cell to
    the marches that set out from it, the requests that send armies out and call them back, and the tick
    that takes arrived marches off both and sends armies home again.

    Instants are nanoseconds. The entity's getters return copies and its Put methods store a copy, so
    the table and the index are values here; module WorldEntities changes them in place. */
module Marching {
  import opened Wrappers

  const MAP_HEIGHT := 200
  const TRAVEL_TIME := 10_000_000_000
  const NANOS_PER_MILLI := 1_000_000

  datatype Pos = Pos(x: int, y: int)

  datatype Command = Idle | Strike | Defend | Reclamation | Retreat | Conscript | Transfer

  datatype Motion = Stop | Running

  datatype Army = Army(
    id: int, player: int, alliance: int, cmd: Command, motion: Motion,
    from: Pos, to: Pos, start: int, end: int,
    generals: seq<int>, soldiers: seq<int>)

  datatype March = March(player: int, alliance: int, army: int, from: Pos, to: Pos, startAt: int, arriveAt: int)

  datatype Cell = Cell(
    id: int, pos: Pos, owner: int, alliance: int, garrison: int, occupyTime: int,
    maxDurable: int, curDurable: int)

  datatype City = City(pos: Pos, isMain: bool, alliance: int)

  type Table = map<int, map<int, March>>
  type Index = map<int, seq<March>>

  datatype World = World(
    armies: map<int, map<int, Army>>, marches: Table, cells: Index,
    land: map<int, Cell>, cities: map<int, map<int, City>>, warFree: int)

  function ToPosition(p: Pos): int {
    p.x + MAP_HEIGHT * p.y
  }

  // ---------- The lists of the index ----------

  predicate SameKey(a: March, b: March) {
    a.player == b.player && a.army == b.army
  }

  function CellOf(m: March): int {
    ToPosition(m.from)
  }

  function At(cells: Index, c: int): seq<March> {
    if c in cells then cells[c] else []
  }

  ghost predicate NoDup(s: seq<March>) {
    forall i, j :: 0 <= i < j < |s| ==> s[i] != s[j]
  }

  /** What removeMarch returns. */
  function Without(items: seq<March>, target: March): seq<March> {
    if items == [] then []
    else (if SameKey(items[0], target) then [] else [items[0]]) + Without(items[1..], target)
  }

  lemma {:induction false} WithoutSnoc(items: seq<March>, m: March, target: March)
    ensures Without(items + [m], target) == Without(items, target) + if SameKey(m, target) then [] else [m]
  {
    if items == [] {
      assert [m][1..] == [];
    } else {
      assert (items + [m])[1..] == items[1..] + [m];
      WithoutSnoc(items[1..], m, target);
    }
  }

  /** Filtering removes exactly the marches of the target's army and keeps the rest once each. */
  lemma {:induction false} WithoutMembers(items: seq<March>, target: March)
    requires NoDup(items)
    ensures forall m :: m in Without(items, target) <==> m in items && !SameKey(m, target)
    ensures NoDup(Without(items, target))
  {
    if items != [] {
      var rest := items[1..];
      WithoutMembers(rest, target);
      assert items == [items[0]] + rest;
      assert items[0] !in rest;
    }
  }

  method RemoveMarch(items: seq<March>, target: March) returns (filtered: seq<March>)
    ensures filtered == Without(items, target)
  {
    filtered := [];
    for i := 0 to |items|
      invariant filtered == Without(items[..i], target)
    {
      assert items[..i + 1] == items[..i] + [items[i]];
      WithoutSnoc(items[..i], items[i], target);
      if !SameKey(items[i], target) {
        filtered := filtered + [items[i]];
      }
    }
    assert items[..|items|] == items;
  }

  function Unindex(cells: Index, m: March): Index {
    var kept := Without(At(cells, CellOf(m)), m);
    if At(cells, CellOf(m)) == [] then cells
    else if kept == [] then cells - {CellOf(m)}
    else cells[CellOf(m) := kept]
  }

  function Enlist(cells: Index, m: March): Index {
    cells[CellOf(m) := Without(At(cells, CellOf(m)), m) + [m]]
  }

  /** The index is right for a set of marches: the list of every cell holds, once
      each, exactly the marches that set out from it, and no list is empty. */
  ghost predicate Indexed(live: set<March>, cells: Index) {
    && (forall c :: c in cells ==> cells[c] != [])
    && (forall c, m :: m in At(cells, c) <==> m in live && CellOf(m) == c)
    && (forall c :: NoDup(At(cells, c)))
  }

  ghost function Minus(live: set<March>, gone: seq<March>): set<March> {
    set x | x in live && x !in gone
  }

  ghost function Others(live: set<March>, m: March): set<March> {
    set x | x in live && !SameKey(x, m)
  }

  lemma UnindexCells(live: set<March>, cells: Index, m: March)
    requires Indexed(live, cells)
    requires forall x :: x in live && SameKey(x, m) ==> CellOf(x) == CellOf(m)
    ensures Indexed(Others(live, m), Unindex(cells, m))
  {
    var after := Unindex(cells, m);
    WithoutMembers(At(cells, CellOf(m)), m);
    forall c
      ensures forall x :: x in At(after, c) <==> x in Others(live, m) && CellOf(x) == c
      ensures NoDup(At(after, c))
    {
      if c == CellOf(m) {
        assert At(after, c) == Without(At(cells, c), m);
      } else {
        assert At(after, c) == At(cells, c);
      }
    }
  }

  lemma EnlistCells(live: set<March>, cells: Index, m: March)
    requires Indexed(live, cells)
    requires forall x :: x in live && SameKey(x, m) ==> CellOf(x) == CellOf(m)
    ensures Indexed(Others(live, m) + {m}, Enlist(cells, m))
  {
    var after := Enlist(cells, m);
    WithoutMembers(At(cells, CellOf(m)), m);
    forall c
      ensures forall x :: x in At(after, c) <==> x in Others(live, m) + {m} && CellOf(x) == c
      ensures NoDup(At(after, c))
    {
      if c != CellOf(m) {
        assert At(after, c) == At(cells, c);
      }
    }
  }

  // ---------- The table and the index together ----------

  ghost predicate TableKeys(t: Table) {
    forall p, a :: p in t && a in t[p] ==> t[p][a].player == p && t[p][a].army == a
  }

  predicate InTable(t: Table, m: March) {
    m.player in t && m.army in t[m.player] && t[m.player][m.army] == m
  }

  ghost function Live(t: Table): set<March> {
    set p, a | p in t && a in t[p] :: t[p][a]
  }

  lemma LiveMembers(t: Table)
    requires TableKeys(t)
    ensures forall m :: m in Live(t) <==> InTable(t, m)
  {
    forall m | InTable(t, m)
      ensures m in Live(t)
    {
      assert t[m.player][m.army] in Live(t);
    }
  }

  ghost predicate IndexInv(w: World) {
    TableKeys(w.marches) && Indexed(Live(w.marches), w.cells)
  }

  /** Every army is filed under its own player and id. */
  ghost predicate ArmyKeys(w: World) {
    forall p, a :: p in w.armies && a in w.armies[p] ==> w.armies[p][a].player == p && w.armies[p][a].id == a
  }

  predicate HasArmyState(a: Army) {
    a.id != 0 || a.player != 0 || |a.generals| > 0 || |a.soldiers| > 0
  }

  function GetArmy(w: World, player: int, army: int): Option<Army> {
    if player in w.armies && army in w.armies[player] then Some(w.armies[player][army]) else None
  }

  function MarchOf(a: Army): March {
    March(a.player, a.alliance, a.id, a.from, a.to, a.start, a.end)
  }

  function Row(t: Table, player: int): map<int, March> {
    if player in t then t[player] else map[]
  }

  function PutMarch(t: Table, m: March): Table {
    t[m.player := Row(t, m.player)[m.army := m]]
  }

  function Dispatch(w: World, a: Army): World {
    if !HasArmyState(a) then w
    else w.(marches := PutMarch(w.marches, MarchOf(a)), cells := Enlist(w.cells, MarchOf(a)))
  }

  function ReplaceArmy(w: World, a: Army): World {
    if HasArmyState(a) && a.player in w.armies
    then w.(armies := w.armies[a.player := w.armies[a.player][a.id := a]])
    else w
  }

  lemma PutLive(t: Table, m: March)
    requires TableKeys(t)
    ensures TableKeys(PutMarch(t, m)) && Live(PutMarch(t, m)) == Others(Live(t), m) + {m}
  {
    var after := PutMarch(t, m);
    assert TableKeys(after);
    LiveMembers(t);
    LiveMembers(after);
    forall x
      ensures InTable(after, x) <==> x in Others(Live(t), m) + {m}
    {
    }
  }

  predicate InFlight(w: World, a: Army) {
    a.player in w.marches && a.id in w.marches[a.player]
  }

  /** The guard under which an army may be sent out: it has no march in flight,
      or that march set out from the very cell the new one leaves. */
  predicate MayLeave(w: World, a: Army) {
    InFlight(w, a) ==> CellOf(w.marches[a.player][a.id]) == ToPosition(a.from)
  }

  /** Sending an army out keeps table and index in agreement exactly under that guard. */
  lemma DispatchKeepsIndex(w: World, a: Army)
    requires IndexInv(w) && HasArmyState(a)
    ensures IndexInv(Dispatch(w, a)) <==> MayLeave(w, a)
  {
    var m := MarchOf(a);
    var after := Dispatch(w, a);
    LiveMembers(w.marches);
    PutLive(w.marches, m);
    if MayLeave(w, a) {
      EnlistCells(Live(w.marches), w.cells, m);
    } else {
      var stale := w.marches[a.player][a.id];
      assert stale in At(w.cells, CellOf(stale));
      assert stale in At(after.cells, CellOf(stale));
      assert stale !in Live(after.marches);
    }
  }

  // ---------- Requests: attack and back ----------

  predicate CanAttack(attacker: int, defender: int, attackerAlliance: int, defenderAlliance: int) {
    !(attackerAlliance != 0 && attackerAlliance == defenderAlliance) && attacker != defender
  }

  predicate IsWarFree(w: World, now: int, occupied: int) {
    now / NANOS_PER_MILLI - occupied / NANOS_PER_MILLI < w.warFree
  }

  predicate Assailable(w: World, c: int, player: int, alliance: int, now: int) {
    && c in w.land
    && w.land[c].owner != 0
    && CanAttack(player, w.land[c].owner, alliance, w.land[c].alliance)
    && !IsWarFree(w, now, w.land[c].occupyTime)
  }

  function SetOut(a: Army, home: City, target: Cell, now: int): Army {
    a.(from := home.pos, to := target.pos, cmd := Strike, motion := Running, start := now, end := now + TRAVEL_TIME)
  }

  function StoreArmy(w: World, player: int, a: Army): World {
    w.(armies := w.armies[player := (if player in w.armies then w.armies[player] else map[])[a.id := a]])
  }

  /** `home` is the main city the loop over the player's cities settles on, if there is one. */
  ghost predicate MainCity(w: World, player: int, home: Option<City>) {
    match home
    case Some(city) => player in w.cities && city in w.cities[player].Values && city.isMain
    case None => player in w.cities ==> forall city :: city in w.cities[player].Values ==> !city.isMain
  }

  function Attack(w: World, player: int, target: Pos, a: Army, home: Option<City>, now: int): (World, bool) {
    if home.None? || player !in w.cities then (w, false)
    else if !Assailable(w, ToPosition(target), player, home.value.alliance, now) then (w, false)
    else
      var sent := SetOut(a, home.value, w.land[ToPosition(target)], now);
      (Dispatch(StoreArmy(w, player, sent), sent), true)
  }

  function Truncate(r: real): int {
    if r >= 0.0 then r.Floor else -((-r).Floor)
  }

  function PartOf(d: real, p: real): real {
    p * d
  }

  function Between(from: int, to: int, passed: int, total: int): int
    requires total > 0
  {
    Truncate(from as real + PartOf((to - from) as real, passed as real / total as real))
  }

  function MarchPos(a: Army, now: int): Pos {
    var passed, total := now - a.start, a.end - a.start;
    if a.motion != Running || total <= 0 then Pos(0, 0)
    else if passed <= 0 then a.from
    else if passed >= total then a.to
    else Pos(Between(a.from.x, a.to.x, passed, total), Between(a.from.y, a.to.y, passed, total))
  }

  /** Turned round at the position read off the clock at `seen`, starting at `now`. */
  function TurnRound(a: Army, now: int, seen: int): Army {
    a.(from := MarchPos(a, seen), to := a.from, cmd := Retreat, motion := Running, start := now, end := now + TRAVEL_TIME)
  }

  predicate MayTurn(w: World, player: int, id: int) {
    && player > 0 && id > 0
    && GetArmy(w, player, id).Some?
    && GetArmy(w, player, id).value.motion == Running
    && player in w.marches && id in w.marches[player]
  }

  /** Replacing an army by an equal one reports failure, and the request ends there. */
  function Back(w: World, player: int, id: int, now: int, seen: int): (World, bool) {
    if !MayTurn(w, player, id) then (w, false)
    else
      var a := w.armies[player][id];
      var turned := TurnRound(a, now, seen);
      var cleared := w.(cells := Unindex(w.cells, w.marches[player][id]));
      if !HasArmyState(turned) || GetArmy(w, turned.player, turned.id) == Some(turned) || turned.player !in w.armies
      then (cleared, false)
      else (Dispatch(ReplaceArmy(cleared, turned), turned), true)
  }

  /** Every march repeats the orders of a running army of its key. */
  ghost predicate MarchesMatch(w: World) {
    forall p, a :: p in w.marches && a in w.marches[p] ==> Ordered(w, p, a, w.marches[p][a])
  }

  predicate Ordered(w: World, player: int, id: int, m: March) {
    && player in w.armies && id in w.armies[player]
    && w.armies[player][id].motion == Running
    && m == MarchOf(w.armies[player][id])
  }

  ghost predicate Inv(w: World) {
    IndexInv(w) && ArmyKeys(w) && MarchesMatch(w)
  }

  /** An attack keeps the invariants exactly when the army is the player's own and may leave the home cell. */
  lemma AttackKeepsInv(w: World, player: int, target: Pos, a: Army, home: Option<City>, now: int)
    requires Inv(w) && HasArmyState(a)
    requires Attack(w, player, target, a, home, now).1
    ensures Inv(Attack(w, player, target, a, home, now).0)
      <==> a.player == player && MayLeave(w, a.(from := home.value.pos))
    ensures InTable(Attack(w, player, target, a, home, now).0.marches,
      March(a.player, a.alliance, a.id, home.value.pos, w.land[ToPosition(target)].pos, now, now + TRAVEL_TIME))
  {
    var sent := SetOut(a, home.value, w.land[ToPosition(target)], now);
    var stored := StoreArmy(w, player, sent);
    var after := Attack(w, player, target, a, home, now).0;
    DispatchKeepsIndex(stored, sent);
    assert after.armies[player][a.id] == sent;
    assert IndexInv(after) <==> MayLeave(w, a.(from := home.value.pos));
    if a.player == player {
      AttackMatches(w, player, sent);
    }
  }

  lemma AttackMatches(w: World, player: int, sent: Army)
    requires ArmyKeys(w) && MarchesMatch(w)
    requires sent.player == player && sent.motion == Running && HasArmyState(sent)
    ensures ArmyKeys(Dispatch(StoreArmy(w, player, sent), sent))
    ensures MarchesMatch(Dispatch(StoreArmy(w, player, sent), sent))
  {
    var after := Dispatch(StoreArmy(w, player, sent), sent);
    forall p, i | p in after.marches && i in after.marches[p]
      ensures Ordered(after, p, i, after.marches[p][i])
    {
      if p == player && i == sent.id {
        assert after.armies[p][i] == sent;
      } else {
        assert Ordered(w, p, i, w.marches[p][i]);
      }
    }
  }

  /** The army is on its way back already, was sent at this very instant, and is not going anywhere. */
  predicate Repeats(a: Army, now: int) {
    a.cmd == Retreat && a.start == now && a.end == now + TRAVEL_TIME && a.to == a.from
  }

  /** The new orders equal the old ones exactly then, whatever the clock shows when the position is read. */
  lemma TurnRoundRepeats(a: Army, now: int, seen: int)
    requires a.motion == Running
    ensures TurnRound(a, now, seen) == a <==> Repeats(a, now)
  {
    if Repeats(a, now) {
      MarchStaysInside(a, seen);
      assert MarchPos(a, seen) == a.from;
    }
  }

  /** Turning an army round keeps the invariants unless its orders would be repeated: then the request ends
      after the army's march has left the index. */
  lemma BackKeepsInv(w: World, player: int, id: int, now: int, seen: int)
    requires Inv(w)
    ensures Inv(Back(w, player, id, now, seen).0) <==>
      (MayTurn(w, player, id) ==> !Repeats(w.armies[player][id], now))
    ensures MayTurn(w, player, id) && !Repeats(w.armies[player][id], now) ==>
      InTable(Back(w, player, id, now, seen).0.marches, MarchOf(TurnRound(w.armies[player][id], now, seen)))
  {
    if MayTurn(w, player, id) {
      var current := w.marches[player][id];
      var turned := TurnRound(w.armies[player][id], now, seen);
      var after := Back(w, player, id, now, seen).0;
      TurnRoundRepeats(w.armies[player][id], now, seen);
      LiveMembers(w.marches);
      UnindexCells(Live(w.marches), w.cells, current);
      if turned == w.armies[player][id] {
        assert current in Live(after.marches);
        assert current !in At(after.cells, CellOf(current));
      } else {
        var m := MarchOf(turned);
        PutLive(w.marches, m);
        EnlistCells(Others(Live(w.marches), current), Unindex(w.cells, current), m);
        assert Others(Others(Live(w.marches), current), m) == Others(Live(w.marches), m);
        BackMatches(w, player, id, now, seen);
      }
    }
  }

  lemma BackMatches(w: World, player: int, id: int, now: int, seen: int)
    requires Inv(w) && MayTurn(w, player, id)
    requires TurnRound(w.armies[player][id], now, seen) != w.armies[player][id]
    ensures ArmyKeys(Back(w, player, id, now, seen).0) && MarchesMatch(Back(w, player, id, now, seen).0)
  {
    var after := Back(w, player, id, now, seen).0;
    forall p, i | p in after.marches && i in after.marches[p]
      ensures Ordered(after, p, i, after.marches[p][i])
    {
      if p == player && i == id {
      } else {
        assert Ordered(w, p, i, w.marches[p][i]);
      }
    }
  }

  lemma ProperFraction(a: real, b: real)
    requires 0.0 < a < b
    ensures 0.0 < a / b < 1.0
  {
    Quotient(a, b, a / b);
  }

  lemma Quotient(a: real, b: real, q: real)
    requires 0.0 < a < b && q * b == a
    ensures 0.0 < q < 1.0
  {
    if q >= 1.0 {
      assert 1.0 * b == b;
      ProductGrows(1.0, q, b);
      assert false;
    }
    if q <= 0.0 {
      assert 0.0 * b == 0.0;
      ProductGrows(q, 0.0, b);
      assert false;
    }
  }

  lemma ProductGrows(p: real, q: real, b: real)
    requires p <= q && b > 0.0
    ensures p * b <= q * b
  {
    ProductSign(q - p, b);
    assert (q - p) * b == q * b - p * b;
  }

  lemma ProductSign(x: real, y: real)
    requires x >= 0.0 && y >= 0.0
    ensures x * y >= 0.0
  {
  }

  lemma PartOfStays(d: real, p: real)
    requires 0.0 < p < 1.0
    ensures d >= 0.0 ==> 0.0 <= PartOf(d, p) <= d
    ensures d <= 0.0 ==> d <= PartOf(d, p) <= 0.0
  {
    ScaleStays(p, d, PartOf(d, p));
  }

  lemma ScaleStays(p: real, d: real, part: real)
    requires 0.0 < p < 1.0 && part == p * d
    ensures d >= 0.0 ==> 0.0 <= part <= d
    ensures d <= 0.0 ==> d <= part <= 0.0
  {
    ScaleSign(p, d);
    ScaleSign(1.0 - p, d);
    assert (1.0 - p) * d == d - p * d;
  }

  lemma ScaleSign(p: real, d: real)
    requires 0.0 < p < 1.0
    ensures d >= 0.0 ==> 0.0 <= p * d
    ensures d <= 0.0 ==> p * d <= 0.0
  {
  }

  lemma BetweenStays(from: int, to: int, passed: int, total: int)
    requires 0 < passed < total
    ensures from <= to ==> from <= Between(from, to, passed, total) <= to
    ensures to <= from ==> to <= Between(from, to, passed, total) <= from
  {
    ProperFraction(passed as real, total as real);
    var p := passed as real / total as real;
    PartOfStays((to - from) as real, p);
    WholeStays(from, to, from as real + PartOf((to - from) as real, p));
  }

  lemma WholeStays(from: int, to: int, r: real)
    requires (to - from) as real >= 0.0 ==> from as real <= r <= from as real + (to - from) as real
    requires (to - from) as real <= 0.0 ==> from as real + (to - from) as real <= r <= from as real
    ensures from <= to ==> from <= Truncate(r) <= to
    ensures to <= from ==> to <= Truncate(r) <= from
  {
    if from <= to {
      TruncateStays(from, to, r);
    } else {
      TruncateStays(to, from, r);
    }
  }

  lemma TruncateStays(lo: int, hi: int, r: real)
    requires lo as real <= r <= hi as real
    ensures lo <= Truncate(r) <= hi
  {
  }

  /** A running army is always inside the rectangle spanned by where it set out and where it is going. */
  lemma MarchStaysInside(a: Army, now: int)
    requires a.motion == Running && a.start < a.end
    ensures a.from.x <= MarchPos(a, now).x <= a.to.x || a.to.x <= MarchPos(a, now).x <= a.from.x
    ensures a.from.y <= MarchPos(a, now).y <= a.to.y || a.to.y <= MarchPos(a, now).y <= a.from.y
  {
    var passed, total := now - a.start, a.end - a.start;
    if 0 < passed < total {
      BetweenStays(a.from.x, a.to.x, passed, total);
      BetweenStays(a.from.y, a.to.y, passed, total);
    }
  }

  // ---------- Two calls back at one instant ----------

  /** An army called back at the instant it set out stands where it stood; called back once more at that
      instant it breaks the index. */
  lemma SecondCallBackBreaks(w: World, player: int, id: int, now: int, seen: int, seen': int)
    requires Inv(w) && MayTurn(w, player, id)
    requires var a := w.armies[player][id]; a.cmd != Retreat && a.start == now < a.end && seen <= now
    ensures var w1 := Back(w, player, id, now, seen).0;
      Inv(w1) && !Inv(Back(w1, player, id, now, seen').0)
  {
    var a := w.armies[player][id];
    var w1 := Back(w, player, id, now, seen).0;
    TurnRoundRepeats(a, now, seen);
    BackKeepsInv(w, player, id, now, seen);
    assert MarchPos(a, seen) == a.from;
    assert w1.armies[player][id] == TurnRound(a, now, seen);
    assert Repeats(w1.armies[player][id], now);
    BackKeepsInv(w1, player, id, now, seen');
  }

  function Lone(now: int): Army {
    Army(1, 1, 0, Strike, Running, Pos(10, 10), Pos(20, 20), now, now + TRAVEL_TIME, [], [])
  }

  /** A world with one army on the march. */
  function LoneWorld(now: int): World {
    World(map[1 := map[1 := Lone(now)]], map[1 := map[1 := MarchOf(Lone(now))]],
      map[ToPosition(Pos(10, 10)) := [MarchOf(Lone(now))]], map[], map[], 0)
  }

  lemma TwoCallsBack(now: int)
    ensures Inv(LoneWorld(now))
    ensures var w1 := Back(LoneWorld(now), 1, 1, now, now).0; !Inv(Back(w1, 1, 1, now, now).0)
  {
    var w := LoneWorld(now);
    LiveMembers(w.marches);
    assert Live(w.marches) == {MarchOf(Lone(now))};
    SecondCallBackBreaks(w, 1, 1, now, now, now);
  }

  // ---------- Arrivals ----------

  /** What handling one arrived army reads from outside: its own clock reading, the
      destruction the army does to an undefended cell, and the outcome of a battle. */
  datatype Outcome = Outcome(
    clock: int, destroy: int,
    attackerGenerals: seq<int>, attackerSoldiers: seq<int>,
    defenderGenerals: seq<int>, defenderSoldiers: seq<int>)

  /** A battle overwrites entries of an army's lists and never changes their length. */
  function Overwrite(was: seq<int>, news: seq<int>): (r: seq<int>)
    ensures |r| == |was|
  {
    seq(|was|, i requires 0 <= i < |was| => if i < |news| then news[i] else was[i])
  }

  function Homeward(a: Army, pos: Pos, clock: int): Army {
    a.(from := pos, to := a.from, cmd := Retreat, motion := Running, start := clock, end := clock + TRAVEL_TIME)
  }

  function Rested(a: Army): Army {
    a.(cmd := Idle, motion := Stop, to := a.from)
  }

  function Fought(a: Army, generals: seq<int>, soldiers: seq<int>): Army {
    a.(generals := Overwrite(a.generals, generals), soldiers := Overwrite(a.soldiers, soldiers))
  }

  function Damage(w: World, c: Cell, destroy: int): World {
    if c.id !in w.land then w
    else
      var cell := w.land[c.id];
      var d := cell.curDurable - destroy;
      var clamped := if d < 0 then 0 else if d <= cell.maxDurable then d else cell.maxDurable;
      w.(land := w.land[c.id := cell.(curDurable := clamped)])
  }

  function Garrisoned(w: World, c: Cell): Option<Army> {
    match GetArmy(w, c.owner, c.garrison)
    case Some(g) => if HasArmyState(g) then Some(g) else None
    case None => None
  }

  function StartBattle(w: World, a: Army, c: Cell, o: Outcome): World {
    match Garrisoned(w, c)
    case Some(g) => FightGarrison(w, a, c, g, o)
    case None => Raze(w, a, c, o)
  }

  function FightGarrison(w: World, a: Army, c: Cell, g: Army, o: Outcome): World {
    var home := Homeward(Fought(a, o.attackerGenerals, o.attackerSoldiers), c.pos, o.clock);
    var stood := Fought(g, o.defenderGenerals, o.defenderSoldiers);
    Dispatch(ReplaceArmy(ReplaceArmy(w, home), stood), home)
  }

  function Raze(w: World, a: Army, c: Cell, o: Outcome): World {
    var home := Homeward(a, c.pos, o.clock);
    Dispatch(ReplaceArmy(Damage(w, c, o.destroy), home), home)
  }

  predicate Strikes(w: World, a: Army, now: int) {
    Assailable(w, ToPosition(a.to), a.player, a.alliance, now)
  }

  function Arrive(w: World, a: Army, now: int, o: Outcome): World {
    match a.cmd
    case Strike => if Strikes(w, a, now) then StartBattle(w, a, w.land[ToPosition(a.to)], o) else w
    case Retreat =>
      if GetArmy(w, a.player, a.id).Some?
      then w.(armies := w.armies[a.player := w.armies[a.player][a.id := Rested(w.armies[a.player][a.id])]])
      else w
    case _ => w
  }

  function ArriveMarch(w: World, m: March, now: int, o: Outcome): World {
    match GetArmy(w, m.player, m.army)
    case Some(a) => Arrive(w, a, now, o)
    case None => w
  }

  function Arrivals(w: World, arrived: seq<March>, now: int, os: seq<Outcome>): World
    requires |os| == |arrived|
    decreases |arrived|
  {
    if arrived == [] then w
    else Arrivals(ArriveMarch(w, arrived[0], now, os[0]), arrived[1..], now, os[1..])
  }

  // ---------- What one arrival does ----------

  ghost predicate SameOrders(a: Army, b: Army) {
    b == a.(generals := b.generals, soldiers := b.soldiers)
    && |a.generals| == |b.generals| && |a.soldiers| == |b.soldiers|
  }

  function Flight(w: World, player: int, id: int): Option<March> {
    if player in w.marches && id in w.marches[player] then Some(w.marches[player][id]) else None
  }

  ghost predicate SameButTroops(a: Option<Army>, b: Option<Army>) {
    a.Some? == b.Some? && (a.Some? ==> SameOrders(a.value, b.value))
  }

  /** Nothing about the army (player, id) changed but possibly its troops. */
  ghost predicate Untouched(w: World, w': World, player: int, id: int) {
    && Flight(w', player, id) == Flight(w, player, id)
    && SameButTroops(GetArmy(w, player, id), GetArmy(w', player, id))
  }

  /** Cells keep everything an attack looks at. */
  ghost predicate SameLand(w: World, w': World) {
    && w'.land.Keys == w.land.Keys
    && w'.warFree == w.warFree
    && forall c :: c in w.land ==> w'.land[c] == w.land[c].(curDurable := w'.land[c].curDurable)
  }

  /** What has become of the army of an arrived march. */
  ghost predicate Handled(w: World, w': World, m: March, now: int, clock: int) {
    match GetArmy(w, m.player, m.army)
    case None => Flight(w', m.player, m.army) == None && GetArmy(w', m.player, m.army) == None
    case Some(a) =>
      && GetArmy(w', m.player, m.army).Some?
      && var b := GetArmy(w', m.player, m.army).value;
      if a.cmd == Strike && Strikes(w, a, now) && HasArmyState(a) then
        && SameOrders(Homeward(a, w.land[ToPosition(a.to)].pos, clock), b)
        && Flight(w', m.player, m.army) == Some(MarchOf(b))
      else if a.cmd == Retreat then
        SameOrders(Rested(a), b) && Flight(w', m.player, m.army) == None
      else
        SameOrders(a, b) && Flight(w', m.player, m.army) == None
  }

  lemma ReplaceEffect(w: World, a: Army, b: Army)
    requires ArmyKeys(w) && GetArmy(w, a.player, a.id) == Some(a)
    requires b.player == a.player && b.id == a.id && HasArmyState(b)
    ensures ArmyKeys(ReplaceArmy(w, b))
    ensures GetArmy(ReplaceArmy(w, b), a.player, a.id) == Some(b)
    ensures forall p, i :: (p, i) != (a.player, a.id) ==> GetArmy(ReplaceArmy(w, b), p, i) == GetArmy(w, p, i)
  {
  }

  lemma DispatchEffect(w: World, a: Army)
    requires IndexInv(w) && HasArmyState(a) && Flight(w, a.player, a.id) == None
    ensures IndexInv(Dispatch(w, a))
    ensures Flight(Dispatch(w, a), a.player, a.id) == Some(MarchOf(a))
    ensures forall p, i :: (p, i) != (a.player, a.id) ==> Flight(Dispatch(w, a), p, i) == Flight(w, p, i)
  {
    DispatchKeepsIndex(w, a);
  }

  /** Sending an army home from a world in which it already stands with its new orders. */
  lemma SendHomeEffect(w: World, w1: World, home: Army)
    requires IndexInv(w) && w1.marches == w.marches && w1.cells == w.cells
    requires HasArmyState(home) && Flight(w, home.player, home.id) == None
    requires GetArmy(w1, home.player, home.id) == Some(home)
    requires forall p, i :: (p, i) != (home.player, home.id) ==> SameButTroops(GetArmy(w, p, i), GetArmy(w1, p, i))
    ensures IndexInv(Dispatch(w1, home))
    ensures GetArmy(Dispatch(w1, home), home.player, home.id) == Some(home)
    ensures Flight(Dispatch(w1, home), home.player, home.id) == Some(MarchOf(home))
    ensures forall p, i :: (p, i) != (home.player, home.id) ==> Untouched(w, Dispatch(w1, home), p, i)
  {
    DispatchEffect(w1, home);
  }

  lemma BattleEffect(w: World, a: Army, c: Cell, o: Outcome)
    requires IndexInv(w) && ArmyKeys(w) && HasArmyState(a)
    requires GetArmy(w, a.player, a.id) == Some(a) && Flight(w, a.player, a.id) == None
    requires c.owner != a.player
    ensures ArmyKeys(StartBattle(w, a, c, o)) && SameLand(w, StartBattle(w, a, c, o))
    ensures IndexInv(StartBattle(w, a, c, o))
    ensures SentHome(w, StartBattle(w, a, c, o), a, c, o.clock)
    ensures forall p, i :: (p, i) != (a.player, a.id) ==> Untouched(w, StartBattle(w, a, c, o), p, i)
  {
    LandKept(w, a, c, o);
    match Garrisoned(w, c)
    case Some(g) => DefendedEffect(w, a, c, g, o);
    case None => UndefendedEffect(w, a, c, o);
  }

  ghost predicate SentHome(w: World, w': World, a: Army, c: Cell, clock: int) {
    && GetArmy(w', a.player, a.id).Some?
    && SameOrders(Homeward(a, c.pos, clock), GetArmy(w', a.player, a.id).value)
    && Flight(w', a.player, a.id) == Some(MarchOf(GetArmy(w', a.player, a.id).value))
  }

  lemma DefendedEffect(w: World, a: Army, c: Cell, g: Army, o: Outcome)
    requires IndexInv(w) && ArmyKeys(w) && HasArmyState(a)
    requires GetArmy(w, a.player, a.id) == Some(a) && Flight(w, a.player, a.id) == None
    requires c.owner != a.player && Garrisoned(w, c) == Some(g)
    ensures ArmyKeys(StartBattle(w, a, c, o))
    ensures IndexInv(StartBattle(w, a, c, o))
    ensures SentHome(w, StartBattle(w, a, c, o), a, c, o.clock)
    ensures forall p, i :: (p, i) != (a.player, a.id) ==> Untouched(w, StartBattle(w, a, c, o), p, i)
  {
    var home := Homeward(Fought(a, o.attackerGenerals, o.attackerSoldiers), c.pos, o.clock);
    var stood := Fought(g, o.defenderGenerals, o.defenderSoldiers);
    var w1 := ReplaceArmy(w, home);
    var w2 := ReplaceArmy(w1, stood);
    ReplaceEffect(w, a, home);
    ReplaceEffect(w1, g, stood);
    SendHomeEffect(w, w2, home);
  }

  lemma UndefendedEffect(w: World, a: Army, c: Cell, o: Outcome)
    requires IndexInv(w) && ArmyKeys(w) && HasArmyState(a)
    requires GetArmy(w, a.player, a.id) == Some(a) && Flight(w, a.player, a.id) == None
    requires Garrisoned(w, c) == None
    ensures ArmyKeys(StartBattle(w, a, c, o))
    ensures IndexInv(StartBattle(w, a, c, o))
    ensures SentHome(w, StartBattle(w, a, c, o), a, c, o.clock)
    ensures forall p, i :: (p, i) != (a.player, a.id) ==> Untouched(w, StartBattle(w, a, c, o), p, i)
  {
    var w1 := Damage(w, c, o.destroy);
    var home := Homeward(a, c.pos, o.clock);
    var w2 := ReplaceArmy(w1, home);
    assert w1.armies == w.armies && w1.marches == w.marches && w1.cells == w.cells;
    ReplaceEffect(w1, a, home);
    SendHomeEffect(w, w2, home);
  }

  /** A battle changes nothing of the land but the durability of a cell. */
  lemma LandKept(w: World, a: Army, c: Cell, o: Outcome)
    ensures SameLand(w, StartBattle(w, a, c, o))
  {
    DamageLand(w, c, o.destroy);
    match Garrisoned(w, c)
    case Some(g) => FightKeepsLand(w, a, c, g, o);
    case None =>
      var home := Homeward(a, c.pos, o.clock);
      var w1 := Damage(w, c, o.destroy);
      OrdersKeepLand(w1, home);
      OrdersKeepLand(ReplaceArmy(w1, home), home);
  }

  lemma FightKeepsLand(w: World, a: Army, c: Cell, g: Army, o: Outcome)
    ensures FightGarrison(w, a, c, g, o).land == w.land
    ensures FightGarrison(w, a, c, g, o).warFree == w.warFree
  {
    var home := Homeward(Fought(a, o.attackerGenerals, o.attackerSoldiers), c.pos, o.clock);
    var stood := Fought(g, o.defenderGenerals, o.defenderSoldiers);
    var w1 := ReplaceArmy(w, home);
    var w2 := ReplaceArmy(w1, stood);
    OrdersKeepLand(w, home);
    OrdersKeepLand(w1, stood);
    OrdersKeepLand(w2, home);
  }

  lemma OrdersKeepLand(w: World, a: Army)
    ensures ReplaceArmy(w, a).land == w.land && ReplaceArmy(w, a).warFree == w.warFree
    ensures Dispatch(w, a).land == w.land && Dispatch(w, a).warFree == w.warFree
  {
  }

  lemma DamageLand(w: World, c: Cell, destroy: int)
    ensures SameLand(w, Damage(w, c, destroy))
  {
  }

  /** An army without id, player and troops is neither stored nor sent home. */
  lemma NamelessEffect(w: World, a: Army, c: Cell, o: Outcome)
    requires ArmyKeys(w) && !HasArmyState(a)
    ensures ArmyKeys(StartBattle(w, a, c, o))
    ensures StartBattle(w, a, c, o).marches == w.marches && StartBattle(w, a, c, o).cells == w.cells
    ensures SameLand(w, StartBattle(w, a, c, o))
    ensures forall p, i :: Untouched(w, StartBattle(w, a, c, o), p, i)
  {
    match Garrisoned(w, c)
    case Some(g) =>
      ReplaceEffect(w, g, Fought(g, o.defenderGenerals, o.defenderSoldiers));
    case None =>
  }

  /** Handling one arrived march settles its army and leaves every other army's orders and march alone. */
  lemma ArriveEffect(w: World, m: March, now: int, o: Outcome)
    requires IndexInv(w) && ArmyKeys(w) && Flight(w, m.player, m.army) == None
    ensures IndexInv(ArriveMarch(w, m, now, o)) && ArmyKeys(ArriveMarch(w, m, now, o))
    ensures SameLand(w, ArriveMarch(w, m, now, o))
    ensures Handled(w, ArriveMarch(w, m, now, o), m, now, o.clock)
    ensures forall p, i :: (p, i) != (m.player, m.army) ==> Untouched(w, ArriveMarch(w, m, now, o), p, i)
  {
    match GetArmy(w, m.player, m.army)
    case None =>
    case Some(a) =>
      if a.cmd == Strike && Strikes(w, a, now) {
        StrikeEffect(w, m, a, now, o);
      } else if a.cmd == Retreat {
        RestEffect(w, a, now, o);
      }
  }

  lemma StrikeEffect(w: World, m: March, a: Army, now: int, o: Outcome)
    requires IndexInv(w) && ArmyKeys(w) && Flight(w, m.player, m.army) == None
    requires GetArmy(w, m.player, m.army) == Some(a) && a.cmd == Strike && Strikes(w, a, now)
    ensures IndexInv(ArriveMarch(w, m, now, o)) && ArmyKeys(ArriveMarch(w, m, now, o))
    ensures SameLand(w, ArriveMarch(w, m, now, o))
    ensures Handled(w, ArriveMarch(w, m, now, o), m, now, o.clock)
    ensures forall p, i :: (p, i) != (m.player, m.army) ==> Untouched(w, ArriveMarch(w, m, now, o), p, i)
  {
    var c := w.land[ToPosition(a.to)];
    assert ArriveMarch(w, m, now, o) == StartBattle(w, a, c, o);
    if HasArmyState(a) {
      BattleEffect(w, a, c, o);
    } else {
      NamelessEffect(w, a, c, o);
    }
  }

  lemma RestEffect(w: World, a: Army, now: int, o: Outcome)
    requires ArmyKeys(w) && a.cmd == Retreat
    requires GetArmy(w, a.player, a.id) == Some(a)
    ensures ArmyKeys(Arrive(w, a, now, o))
    ensures Arrive(w, a, now, o).marches == w.marches && Arrive(w, a, now, o).cells == w.cells
    ensures SameLand(w, Arrive(w, a, now, o))
    ensures GetArmy(Arrive(w, a, now, o), a.player, a.id) == Some(Rested(a))
    ensures forall p, i :: (p, i) != (a.player, a.id) ==> Untouched(w, Arrive(w, a, now, o), p, i)
  {
  }

  // ---------- What a whole tick does ----------

  lemma HandledStays(w: World, w1: World, w2: World, m: March, now: int, clock: int)
    requires Handled(w, w1, m, now, clock) && Untouched(w1, w2, m.player, m.army)
    ensures Handled(w, w2, m, now, clock)
  {
  }

  lemma HandledLater(w: World, w1: World, w2: World, m: March, now: int, clock: int)
    requires SameLand(w, w1) && Untouched(w, w1, m.player, m.army)
    requires Handled(w1, w2, m, now, clock)
    requires ArmyKeys(w)
    ensures Handled(w, w2, m, now, clock)
  {
    match GetArmy(w, m.player, m.army)
    case None =>
    case Some(a) =>
      var a1 := GetArmy(w1, m.player, m.army).value;
      assert Strikes(w, a, now) == Strikes(w1, a1, now);
      assert HasArmyState(a) == HasArmyState(a1);
  }

  ghost predicate DistinctKeys(s: seq<March>) {
    forall i, j :: 0 <= i < j < |s| ==> !SameKey(s[i], s[j])
  }

  ghost predicate Listed(s: seq<March>, player: int, id: int) {
    exists k :: 0 <= k < |s| && s[k].player == player && s[k].army == id
  }

  /** Every arrived march's army is settled, and every other army is left alone. */
  ghost predicate Settled(w: World, w': World, arrived: seq<March>, now: int, os: seq<Outcome>)
    requires |os| == |arrived|
  {
    && SameLand(w, w')
    && (forall k :: 0 <= k < |arrived| ==> Handled(w, w', arrived[k], now, os[k].clock))
    && (forall p, i :: !Listed(arrived, p, i) ==> Untouched(w, w', p, i))
  }

  /** Handling the arrived marches in turn settles each army once, by what the world
      was when the first of them was handled. */
  lemma {:induction false} ArrivalsEffect(w: World, arrived: seq<March>, now: int, os: seq<Outcome>)
    requires |os| == |arrived| && IndexInv(w) && ArmyKeys(w) && DistinctKeys(arrived)
    requires forall k :: 0 <= k < |arrived| ==> Flight(w, arrived[k].player, arrived[k].army) == None
    ensures IndexInv(Arrivals(w, arrived, now, os)) && ArmyKeys(Arrivals(w, arrived, now, os))
    ensures Settled(w, Arrivals(w, arrived, now, os), arrived, now, os)
    decreases |arrived|
  {
    if arrived != [] {
      var w1 := ArriveMarch(w, arrived[0], now, os[0]);
      ArriveEffect(w, arrived[0], now, os[0]);
      RestOutOfFlight(w, w1, arrived);
      ArrivalsEffect(w1, arrived[1..], now, os[1..]);
      SettledStep(w, w1, Arrivals(w, arrived, now, os), arrived, now, os);
    }
  }

  lemma RestOutOfFlight(w: World, w1: World, arrived: seq<March>)
    requires arrived != [] && DistinctKeys(arrived)
    requires forall k :: 0 <= k < |arrived| ==> Flight(w, arrived[k].player, arrived[k].army) == None
    requires forall p, i :: (p, i) != (arrived[0].player, arrived[0].army) ==> Untouched(w, w1, p, i)
    ensures DistinctKeys(arrived[1..])
    ensures forall k :: 0 <= k < |arrived[1..]| ==> Flight(w1, arrived[1..][k].player, arrived[1..][k].army) == None
  {
    forall k | 0 <= k < |arrived[1..]|
      ensures Flight(w1, arrived[1..][k].player, arrived[1..][k].army) == None
    {
      var m := arrived[k + 1];
      assert !SameKey(arrived[0], m);
      assert Untouched(w, w1, m.player, m.army);
    }
  }

  lemma SettledStep(w: World, w1: World, w2: World, arrived: seq<March>, now: int, os: seq<Outcome>)
    requires |os| == |arrived| && arrived != [] && ArmyKeys(w) && DistinctKeys(arrived)
    requires SameLand(w, w1) && Handled(w, w1, arrived[0], now, os[0].clock)
    requires forall p, i :: (p, i) != (arrived[0].player, arrived[0].army) ==> Untouched(w, w1, p, i)
    requires Settled(w1, w2, arrived[1..], now, os[1..])
    ensures Settled(w, w2, arrived, now, os)
  {
    var rest := arrived[1..];
    forall k | 0 <= k < |arrived|
      ensures Handled(w, w2, arrived[k], now, os[k].clock)
    {
      if k == 0 {
        assert forall j :: 0 <= j < |rest| ==> !SameKey(arrived[0], rest[j]);
        HandledStays(w, w1, w2, arrived[0], now, os[0].clock);
      } else {
        assert !SameKey(arrived[0], arrived[k]);
        assert arrived[k] == rest[k - 1] && os[k] == os[1..][k - 1];
        HandledLater(w, w1, w2, arrived[k], now, os[k].clock);
      }
    }
    forall p, i | !Listed(arrived, p, i)
      ensures Untouched(w, w2, p, i)
    {
      UnlistedStays(w, w1, w2, arrived, p, i);
    }
  }

  lemma UnlistedStays(w: World, w1: World, w2: World, arrived: seq<March>, p: int, i: int)
    requires arrived != [] && !Listed(arrived, p, i)
    requires (p, i) != (arrived[0].player, arrived[0].army) ==> Untouched(w, w1, p, i)
    requires !Listed(arrived[1..], p, i) ==> Untouched(w1, w2, p, i)
    ensures Untouched(w, w2, p, i)
  {
    assert arrived[0].player != p || arrived[0].army != i;
    assert forall k :: 0 <= k < |arrived[1..]| ==> arrived[1..][k] == arrived[k + 1];
  }

  predicate Due(f: Option<March>, now: int) {
    f.Some? && f.value.arriveAt <= now
  }

  /** The first half of a tick: exactly the due marches leave table and index and are
      handed on once each. */
  ghost predicate Swept(w: World, now: int, w1: World, arrived: seq<March>) {
    && w1 == w.(marches := w1.marches, cells := w1.cells)
    && IndexInv(w1)
    && (forall p, i :: Flight(w1, p, i) == if Due(Flight(w, p, i), now) then None else Flight(w, p, i))
    && NoDup(arrived)
    && (forall m :: m in arrived <==> Flight(w, m.player, m.army) == Some(m) && m.arriveAt <= now)
  }

  lemma SweptDistinct(w: World, now: int, w1: World, arrived: seq<March>)
    requires TableKeys(w.marches) && Swept(w, now, w1, arrived)
    ensures DistinctKeys(arrived)
    ensures forall p, i :: Listed(arrived, p, i) <==> Due(Flight(w, p, i), now)
    ensures forall k :: 0 <= k < |arrived| ==> Flight(w1, arrived[k].player, arrived[k].army) == None
  {
    forall i, j | 0 <= i < j < |arrived|
      ensures !SameKey(arrived[i], arrived[j])
    {
      assert arrived[i] in arrived && arrived[j] in arrived;
    }
    forall p, i
      ensures Listed(arrived, p, i) <==> Due(Flight(w, p, i), now)
    {
      if Listed(arrived, p, i) {
        var k :| 0 <= k < |arrived| && arrived[k].player == p && arrived[k].army == i;
        assert arrived[k] in arrived;
      }
      if Due(Flight(w, p, i), now) {
        assert Flight(w, p, i).value in arrived;
      }
    }
  }

  // ---------- Garrisons ----------

  /** A due attack that is carried out against a cell with a garrison: it comes to a battle. */
  predicate MeetsGarrison(w: World, m: March, now: int) {
    match GetArmy(w, m.player, m.army)
    case None => false
    case Some(a) =>
      a.cmd == Strike && Strikes(w, a, now) && Garrisoned(w, w.land[ToPosition(a.to)]).Some?
  }

  /** A tick runs to its end, or a battle fails and takes the rest of the arrivals with it. */
  datatype TickEnd = Completed(w: World) | Panicked(w: World, left: seq<March>)

  function Left(e: TickEnd): seq<March> {
    if e.Panicked? then e.left else []
  }

  /** The second half of a tick. `battlesEnd` says whether battles run to their end: as the code stands they
      never do, since their context has empty rows (module BattleContexts). */
  function RunArrivals(w: World, arrived: seq<March>, now: int, os: seq<Outcome>, battlesEnd: bool): TickEnd
    requires |os| == |arrived|
    decreases |arrived|
  {
    if arrived == [] then Completed(w)
    else if !battlesEnd && MeetsGarrison(w, arrived[0], now) then Panicked(w, arrived)
    else RunArrivals(ArriveMarch(w, arrived[0], now, os[0]), arrived[1..], now, os[1..], battlesEnd)
  }

  lemma ArrivalsFirst(w: World, arrived: seq<March>, now: int, os: seq<Outcome>, k: nat)
    requires |os| == |arrived| && 1 <= k <= |arrived|
    ensures Arrivals(w, arrived[..k], now, os[..k]) ==
      Arrivals(ArriveMarch(w, arrived[0], now, os[0]), arrived[1..][..k - 1], now, os[1..][..k - 1])
  {
    assert arrived[..k][1..] == arrived[1..][..k - 1] && os[..k][1..] == os[1..][..k - 1];
  }

  /** A tick handles the arrivals up to the first that comes to a battle which fails. */
  lemma {:induction false} RunIsPrefix(w: World, arrived: seq<March>, now: int, os: seq<Outcome>, battlesEnd: bool)
    requires |os| == |arrived|
    ensures var e := RunArrivals(w, arrived, now, os, battlesEnd);
      var k := |arrived| - |Left(e)|;
      && 0 <= k && Left(e) == arrived[k..] && e.w == Arrivals(w, arrived[..k], now, os[..k])
      && (e.Panicked? ==> !battlesEnd && k < |arrived| && MeetsGarrison(e.w, arrived[k], now))
      && forall j :: 0 <= j < k ==>
           battlesEnd || !MeetsGarrison(Arrivals(w, arrived[..j], now, os[..j]), arrived[j], now)
    decreases |arrived|
  {
    if arrived != [] && (battlesEnd || !MeetsGarrison(w, arrived[0], now)) {
      var w1 := ArriveMarch(w, arrived[0], now, os[0]);
      var e := RunArrivals(w, arrived, now, os, battlesEnd);
      RunIsPrefix(w1, arrived[1..], now, os[1..], battlesEnd);
      var k := |arrived| - |Left(e)|;
      ArrivalsFirst(w, arrived, now, os, k);
      forall j | 0 <= j < k
        ensures battlesEnd || !MeetsGarrison(Arrivals(w, arrived[..j], now, os[..j]), arrived[j], now)
      {
        if j > 0 {
          ArrivalsFirst(w, arrived, now, os, j);
          assert arrived[j] == arrived[1..][j - 1];
        }
      }
    }
  }

  /** The same armies exist, and are as good as named. */
  ghost predicate SameRoster(w: World, w': World) {
    forall p, i ::
      && GetArmy(w', p, i).Some? == GetArmy(w, p, i).Some?
      && (GetArmy(w, p, i).Some? ==> HasArmyState(GetArmy(w', p, i).value) == HasArmyState(GetArmy(w, p, i).value))
  }

  lemma SettledRoster(w: World, w': World, arrived: seq<March>, now: int, os: seq<Outcome>)
    requires |os| == |arrived| && Settled(w, w', arrived, now, os)
    ensures SameRoster(w, w')
  {
    forall p, i
      ensures GetArmy(w', p, i).Some? == GetArmy(w, p, i).Some?
      ensures GetArmy(w, p, i).Some? ==> HasArmyState(GetArmy(w', p, i).value) == HasArmyState(GetArmy(w, p, i).value)
    {
      if Listed(arrived, p, i) {
        var k :| 0 <= k < |arrived| && arrived[k].player == p && arrived[k].army == i;
        assert Handled(w, w', arrived[k], now, os[k].clock);
      } else {
        assert Untouched(w, w', p, i);
      }
    }
  }

  lemma MeetsAsBefore(w: World, w': World, m: March, now: int)
    requires ArmyKeys(w) && SameLand(w, w') && SameRoster(w, w') && Untouched(w, w', m.player, m.army)
    ensures MeetsGarrison(w', m, now) == MeetsGarrison(w, m, now)
  {
    match GetArmy(w, m.player, m.army)
    case None =>
    case Some(a) =>
      var a' := GetArmy(w', m.player, m.army).value;
      assert Strikes(w', a', now) == Strikes(w, a, now);
      if Strikes(w, a, now) {
        var c, c' := w.land[ToPosition(a.to)], w'.land[ToPosition(a.to)];
        assert c'.owner == c.owner && c'.garrison == c.garrison;
        assert Garrisoned(w', c').Some? == Garrisoned(w, c).Some?;
      }
  }

  /** Whether an arrival comes to a battle was settled before the first arrival was handled. */
  lemma MeetsFromTheStart(w: World, arrived: seq<March>, now: int, os: seq<Outcome>, j: nat)
    requires |os| == |arrived| && j < |arrived| && IndexInv(w) && ArmyKeys(w) && DistinctKeys(arrived)
    requires forall k :: 0 <= k < |arrived| ==> Flight(w, arrived[k].player, arrived[k].army) == None
    ensures MeetsGarrison(Arrivals(w, arrived[..j], now, os[..j]), arrived[j], now) == MeetsGarrison(w, arrived[j], now)
  {
    var w' := Arrivals(w, arrived[..j], now, os[..j]);
    ArrivalsEffect(w, arrived[..j], now, os[..j]);
    SettledRoster(w, w', arrived[..j], now, os[..j]);
    assert !Listed(arrived[..j], arrived[j].player, arrived[j].army) by {
      assert forall k :: 0 <= k < j ==> !SameKey(arrived[k], arrived[j]);
    }
    MeetsAsBefore(w, w', arrived[j], now);
  }

  // ---------- What a tick settles ----------

  ghost predicate Ticked(
      w: World, now: int, w1: World, arrived: seq<March>, os: seq<Outcome>, battlesEnd: bool, e: TickEnd)
  {
    && Swept(w, now, w1, arrived)
    && |os| == |arrived|
    && (forall k :: 0 <= k < |os| ==> os[k].clock >= now)
    && e == RunArrivals(w1, arrived, now, os, battlesEnd)
  }

  /** An army whose arrival is never handled: its march is gone and its orders stand. */
  ghost predicate Abandoned(w: World, w': World, m: March) {
    Flight(w', m.player, m.army) == None
    && SameButTroops(GetArmy(w, m.player, m.army), GetArmy(w', m.player, m.army))
  }

  /** The outcome of a tick for every army, the first `k` arrivals handled. */
  ghost predicate TickOutcome(w: World, w': World, arrived: seq<March>, now: int, os: seq<Outcome>, k: nat)
    requires |os| == |arrived| && k <= |arrived|
  {
    && SameLand(w, w')
    && (forall j :: 0 <= j < k ==> Handled(w, w', arrived[j], now, os[j].clock))
    && (forall j :: k <= j < |arrived| ==> Abandoned(w, w', arrived[j]))
    && (forall p, i :: !Listed(arrived, p, i) ==> Untouched(w, w', p, i))
  }

  /** One tick. It completes exactly if battles run to their end or no due attack meets a garrison. The due
      marches up to the one whose battle fails are handled once each by what the world was when the tick
      began; that army and all later arrivals are left without a march, their orders as they were. Every
      other army's orders and march are untouched, and every march left in the table arrives after the
      tick. Table and index agree in any case. */
  lemma TickSettles(
      w: World, now: int, w1: World, arrived: seq<March>, os: seq<Outcome>, battlesEnd: bool, e: TickEnd)
    requires Inv(w) && Ticked(w, now, w1, arrived, os, battlesEnd, e)
    ensures Inv(e.w)
    ensures |Left(e)| <= |arrived| && Left(e) == arrived[|arrived| - |Left(e)|..]
    ensures e.Completed? <==> battlesEnd || forall j :: 0 <= j < |arrived| ==> !MeetsGarrison(w, arrived[j], now)
    ensures e.Panicked? ==> e.left != [] && MeetsGarrison(w, e.left[0], now)
    ensures TickOutcome(w, e.w, arrived, now, os, |arrived| - |Left(e)|)
    ensures forall p, i :: Listed(arrived, p, i) <==> Due(Flight(w, p, i), now)
    ensures forall p, i :: Flight(e.w, p, i).Some? ==> Flight(e.w, p, i).value.arriveAt > now
  {
    TickHandles(w, now, w1, arrived, os, battlesEnd, e);
    TickCompletes(w, now, w1, arrived, os, battlesEnd, e);
    AllLaterAfter(w, now, arrived, os, e.w, |arrived| - |Left(e)|);
  }

  lemma TickHandles(
      w: World, now: int, w1: World, arrived: seq<March>, os: seq<Outcome>, battlesEnd: bool, e: TickEnd)
    requires Inv(w) && Ticked(w, now, w1, arrived, os, battlesEnd, e)
    ensures IndexInv(e.w) && ArmyKeys(e.w)
    ensures |Left(e)| <= |arrived| && Left(e) == arrived[|arrived| - |Left(e)|..]
    ensures TickOutcome(w, e.w, arrived, now, os, |arrived| - |Left(e)|)
    ensures forall p, i :: Listed(arrived, p, i) <==> Due(Flight(w, p, i), now)
  {
    SweptHandles(w, now, w1, arrived, os, battlesEnd);
  }

  lemma SweptHandles(w: World, now: int, w1: World, arrived: seq<March>, os: seq<Outcome>, battlesEnd: bool)
    requires TableKeys(w.marches) && ArmyKeys(w) && Swept(w, now, w1, arrived) && |os| == |arrived|
    ensures var e := RunArrivals(w1, arrived, now, os, battlesEnd);
      && IndexInv(e.w) && ArmyKeys(e.w)
      && |Left(e)| <= |arrived| && Left(e) == arrived[|arrived| - |Left(e)|..]
      && TickOutcome(w, e.w, arrived, now, os, |arrived| - |Left(e)|)
    ensures forall p, i :: Listed(arrived, p, i) <==> Due(Flight(w, p, i), now)
  {
    SweptDistinct(w, now, w1, arrived);
    SweptArmies(w, now, w1, arrived);
    DistinctHandles(w, now, w1, arrived, os, battlesEnd);
  }

  lemma SweptArmies(w: World, now: int, w1: World, arrived: seq<March>)
    requires ArmyKeys(w) && Swept(w, now, w1, arrived)
    ensures ArmyKeys(w1)
  {
    assert w1.armies == w.armies;
  }

  lemma DistinctHandles(w: World, now: int, w1: World, arrived: seq<March>, os: seq<Outcome>, battlesEnd: bool)
    requires ArmyKeys(w1) && Swept(w, now, w1, arrived) && |os| == |arrived| && DistinctKeys(arrived)
    requires forall p, i :: Listed(arrived, p, i) <==> Due(Flight(w, p, i), now)
    requires forall j :: 0 <= j < |arrived| ==> Flight(w1, arrived[j].player, arrived[j].army) == None
    ensures var e := RunArrivals(w1, arrived, now, os, battlesEnd);
      && IndexInv(e.w) && ArmyKeys(e.w)
      && |Left(e)| <= |arrived| && Left(e) == arrived[|arrived| - |Left(e)|..]
      && TickOutcome(w, e.w, arrived, now, os, |arrived| - |Left(e)|)
  {
    RunSettles(w1, now, arrived, os, battlesEnd);
    RunSettled(w, now, w1, arrived, os, RunArrivals(w1, arrived, now, os, battlesEnd));
  }

  lemma RunSettled(w: World, now: int, w1: World, arrived: seq<March>, os: seq<Outcome>, e: TickEnd)
    requires |os| == |arrived| && |Left(e)| <= |arrived| && Swept(w, now, w1, arrived) && DistinctKeys(arrived)
    requires var k := |arrived| - |Left(e)|; Settled(w1, e.w, arrived[..k], now, os[..k])
    requires forall p, i :: Listed(arrived, p, i) <==> Due(Flight(w, p, i), now)
    requires forall j :: 0 <= j < |arrived| ==> Flight(w1, arrived[j].player, arrived[j].army) == None
    ensures TickOutcome(w, e.w, arrived, now, os, |arrived| - |Left(e)|)
  {
    OutcomeFromSettled(w, now, w1, arrived, os, e.w, |arrived| - |Left(e)|);
  }

  lemma RunSettles(w1: World, now: int, arrived: seq<March>, os: seq<Outcome>, battlesEnd: bool)
    requires IndexInv(w1) && ArmyKeys(w1) && DistinctKeys(arrived) && |os| == |arrived|
    requires forall j :: 0 <= j < |arrived| ==> Flight(w1, arrived[j].player, arrived[j].army) == None
    ensures var e := RunArrivals(w1, arrived, now, os, battlesEnd);
      var k := |arrived| - |Left(e)|;
      && 0 <= k && Left(e) == arrived[k..]
      && IndexInv(e.w) && ArmyKeys(e.w) && Settled(w1, e.w, arrived[..k], now, os[..k])
  {
    RunIsPrefix(w1, arrived, now, os, battlesEnd);
    PrefixSettles(w1, arrived, now, os, |arrived| - |Left(RunArrivals(w1, arrived, now, os, battlesEnd))|);
  }

  lemma PrefixSettles(w1: World, arrived: seq<March>, now: int, os: seq<Outcome>, k: nat)
    requires IndexInv(w1) && ArmyKeys(w1) && DistinctKeys(arrived) && |os| == |arrived| && k <= |arrived|
    requires forall j :: 0 <= j < |arrived| ==> Flight(w1, arrived[j].player, arrived[j].army) == None
    ensures var w' := Arrivals(w1, arrived[..k], now, os[..k]);
      IndexInv(w') && ArmyKeys(w') && Settled(w1, w', arrived[..k], now, os[..k])
  {
    ArrivalsEffect(w1, arrived[..k], now, os[..k]);
  }

  lemma AllLaterAfter(w: World, now: int, arrived: seq<March>, os: seq<Outcome>, w': World, k: nat)
    requires MarchesMatch(w) && |os| == |arrived| && k <= |arrived| && TickOutcome(w, w', arrived, now, os, k)
    requires forall j :: 0 <= j < |os| ==> os[j].clock >= now
    requires forall p, i :: Listed(arrived, p, i) <==> Due(Flight(w, p, i), now)
    ensures MarchesMatch(w')
    ensures forall p, i :: Flight(w', p, i).Some? ==> Flight(w', p, i).value.arriveAt > now
  {
    forall p, i | Flight(w', p, i).Some?
      ensures Flight(w', p, i).value.arriveAt > now && Ordered(w', p, i, Flight(w', p, i).value)
    {
      FlightAfter(w, now, arrived, os, w', k, p, i);
    }
    forall p, a | p in w'.marches && a in w'.marches[p]
      ensures Ordered(w', p, a, w'.marches[p][a])
    {
      assert Flight(w', p, a) == Some(w'.marches[p][a]);
    }
  }

  lemma SweptMeets(w: World, now: int, w1: World, arrived: seq<March>, m: March)
    requires Swept(w, now, w1, arrived)
    ensures MeetsGarrison(w1, m, now) == MeetsGarrison(w, m, now)
  {
    assert w1.armies == w.armies && w1.land == w.land && w1.warFree == w.warFree;
  }

  lemma TickCompletes(
      w: World, now: int, w1: World, arrived: seq<March>, os: seq<Outcome>, battlesEnd: bool, e: TickEnd)
    requires Inv(w) && Ticked(w, now, w1, arrived, os, battlesEnd, e)
    ensures e.Completed? <==> battlesEnd || forall j :: 0 <= j < |arrived| ==> !MeetsGarrison(w, arrived[j], now)
    ensures e.Panicked? ==> e.left != [] && MeetsGarrison(w, e.left[0], now)
  {
    SweptDistinct(w, now, w1, arrived);
    RunIsPrefix(w1, arrived, now, os, battlesEnd);
    var k := |arrived| - |Left(e)|;
    if e.Panicked? {
      MeetsFromTheStart(w1, arrived, now, os, k);
      SweptMeets(w, now, w1, arrived, arrived[k]);
    } else if !battlesEnd {
      forall j | 0 <= j < |arrived|
        ensures !MeetsGarrison(w, arrived[j], now)
      {
        MeetsFromTheStart(w1, arrived, now, os, j);
        SweptMeets(w, now, w1, arrived, arrived[j]);
      }
    }
  }

  /** The sweep changes neither armies nor land, so settling may be read from either side of it. */
  lemma OutcomeFromSettled(
      w: World, now: int, w1: World, arrived: seq<March>, os: seq<Outcome>, w': World, k: nat)
    requires |os| == |arrived| && k <= |arrived| && Swept(w, now, w1, arrived) && DistinctKeys(arrived)
    requires Settled(w1, w', arrived[..k], now, os[..k])
    requires forall p, i :: Listed(arrived, p, i) <==> Due(Flight(w, p, i), now)
    requires forall j :: 0 <= j < |arrived| ==> Flight(w1, arrived[j].player, arrived[j].army) == None
    ensures TickOutcome(w, w', arrived, now, os, k)
  {
    forall j | 0 <= j < k
      ensures Handled(w, w', arrived[j], now, os[j].clock)
    {
      assert arrived[..k][j] == arrived[j] && os[..k][j] == os[j];
      assert Handled(w1, w', arrived[..k][j], now, os[..k][j].clock);
      assert GetArmy(w, arrived[j].player, arrived[j].army) == GetArmy(w1, arrived[j].player, arrived[j].army);
    }
    forall j | k <= j < |arrived|
      ensures Abandoned(w, w', arrived[j])
    {
      assert !Listed(arrived[..k], arrived[j].player, arrived[j].army) by {
        assert forall i :: 0 <= i < k ==> !SameKey(arrived[i], arrived[j]);
      }
      assert Untouched(w1, w', arrived[j].player, arrived[j].army);
      assert GetArmy(w, arrived[j].player, arrived[j].army) == GetArmy(w1, arrived[j].player, arrived[j].army);
    }
    forall p, i | !Listed(arrived, p, i)
      ensures Untouched(w, w', p, i)
    {
      UnlistedPrefix(arrived, k, p, i);
      assert Untouched(w1, w', p, i);
      assert GetArmy(w, p, i) == GetArmy(w1, p, i);
    }
  }

  lemma UnlistedPrefix(arrived: seq<March>, k: nat, p: int, i: int)
    requires k <= |arrived| && !Listed(arrived, p, i)
    ensures !Listed(arrived[..k], p, i)
  {
    assert forall j :: 0 <= j < k ==> arrived[..k][j] == arrived[j];
  }

  lemma FlightAfter(
      w: World, now: int, arrived: seq<March>, os: seq<Outcome>, w': World, k: nat, p: int, i: int)
    requires MarchesMatch(w) && |os| == |arrived| && k <= |arrived| && TickOutcome(w, w', arrived, now, os, k)
    requires forall j :: 0 <= j < |os| ==> os[j].clock >= now
    requires Listed(arrived, p, i) <==> Due(Flight(w, p, i), now)
    ensures Flight(w', p, i).Some? ==>
      Flight(w', p, i).value.arriveAt > now && Ordered(w', p, i, Flight(w', p, i).value)
  {
    if Listed(arrived, p, i) {
      var j :| 0 <= j < |arrived| && arrived[j].player == p && arrived[j].army == i;
      if j < k {
        SentAfter(w, w', arrived[j], now, os[j].clock);
      } else {
        assert Abandoned(w, w', arrived[j]);
      }
    } else {
      KeptAfter(w, w', now, p, i);
    }
  }

  lemma SentAfter(w: World, w': World, m: March, now: int, clock: int)
    requires Handled(w, w', m, now, clock) && clock >= now
    ensures Flight(w', m.player, m.army).Some? ==>
      Flight(w', m.player, m.army).value.arriveAt > now
      && Ordered(w', m.player, m.army, Flight(w', m.player, m.army).value)
  {
  }

  lemma KeptAfter(w: World, w': World, now: int, p: int, i: int)
    requires MarchesMatch(w) && Untouched(w, w', p, i) && !Due(Flight(w, p, i), now)
    ensures Flight(w', p, i).Some? ==>
      Flight(w', p, i).value.arriveAt > now && Ordered(w', p, i, Flight(w', p, i).value)
  {
    if Flight(w, p, i).Some? {
      assert Ordered(w, p, i, w.marches[p][i]);
    }
  }

  // ---------- Stranded armies ----------

  /** A running army without a march. */
  ghost predicate Lost(w: World, player: int, id: int) {
    && GetArmy(w, player, id).Some?
    && GetArmy(w, player, id).value.motion == Running
    && Flight(w, player, id) == None
  }

  ghost predicate RunningEscorted(w: World) {
    forall p, i :: !Lost(w, p, i)
  }

  /** An arrived army is left running without a march, though its arrival is handled, when it is not on its
      way home and its target cannot be attacked (any more). */
  ghost predicate Stranded(w: World, m: March, now: int) {
    match GetArmy(w, m.player, m.army)
    case None => false
    case Some(a) => a.cmd != Retreat && !(a.cmd == Strike && Strikes(w, a, now) && HasArmyState(a))
  }

  lemma HandledLost(w: World, w': World, m: March, now: int, clock: int)
    requires MarchesMatch(w) && Flight(w, m.player, m.army) == Some(m)
    requires Handled(w, w', m, now, clock)
    ensures Lost(w', m.player, m.army) <==> Stranded(w, m, now)
  {
    assert Ordered(w, m.player, m.army, w.marches[m.player][m.army]);
  }

  /** Which armies a tick leaves running without a march: of the arrivals exactly those that are stranded and
      those from the failed battle on, and of the others those that were so before. */
  lemma TickStrands(
      w: World, now: int, w1: World, arrived: seq<March>, os: seq<Outcome>, battlesEnd: bool, e: TickEnd)
    requires Inv(w) && Ticked(w, now, w1, arrived, os, battlesEnd, e)
    ensures |Left(e)| <= |arrived|
    ensures forall j :: 0 <= j < |arrived| ==>
      (Lost(e.w, arrived[j].player, arrived[j].army) <==>
        j >= |arrived| - |Left(e)| || Stranded(w, arrived[j], now))
    ensures forall p, i :: !Listed(arrived, p, i) ==> (Lost(e.w, p, i) <==> Lost(w, p, i))
  {
    TickSettles(w, now, w1, arrived, os, battlesEnd, e);
    var k := |arrived| - |Left(e)|;
    forall j | 0 <= j < |arrived|
      ensures Lost(e.w, arrived[j].player, arrived[j].army) <==> j >= k || Stranded(w, arrived[j], now)
    {
      var m := arrived[j];
      assert m in arrived;
      if j < k {
        HandledLost(w, e.w, m, now, os[j].clock);
      } else {
        assert Abandoned(w, e.w, m) && Ordered(w, m.player, m.army, w.marches[m.player][m.army]);
      }
    }
    forall p, i | !Listed(arrived, p, i)
      ensures Lost(e.w, p, i) <==> Lost(w, p, i)
    {
      assert Untouched(w, e.w, p, i);
    }
  }

  // ---------- Runs ----------

  datatype Event =
    | AttackAt(player: int, target: Pos, army: Army, home: Option<City>, now: int)
    | BackAt(player: int, id: int, now: int, seen: int)
    | TickAt(now: int, swept: World, arrived: seq<March>, os: seq<Outcome>)

  function Apply(w: World, e: Event, battlesEnd: bool): World
    requires e.TickAt? ==> |e.os| == |e.arrived|
  {
    match e
    case AttackAt(player, target, army, home, now) => Attack(w, player, target, army, home, now).0
    case BackAt(player, id, now, seen) => Back(w, player, id, now, seen).0
    case TickAt(now, swept, arrived, os) => RunArrivals(swept, arrived, now, os, battlesEnd).w
  }

  /** What may happen next, and what callers have to keep: an accepted attack is by the player's
      own army, which is not in flight from another cell, and an army called back does not repeat its orders. */
  ghost predicate Allowed(w: World, e: Event, battlesEnd: bool) {
    match e
    case AttackAt(player, target, army, home, now) =>
      && MainCity(w, player, home)
      && (Attack(w, player, target, army, home, now).1 ==>
            HasArmyState(army) && army.player == player && MayLeave(w, army.(from := home.value.pos)))
    case BackAt(player, id, now, seen) => MayTurn(w, player, id) ==> !Repeats(w.armies[player][id], now)
    case TickAt(now, swept, arrived, os) =>
      |os| == |arrived|
      && Ticked(w, now, swept, arrived, os, battlesEnd, RunArrivals(swept, arrived, now, os, battlesEnd))
  }

  /** A tick whose battle fails is the actor's last step. */
  ghost predicate Halts(e: Event, battlesEnd: bool) {
    e.TickAt? && |e.os| == |e.arrived| && RunArrivals(e.swept, e.arrived, e.now, e.os, battlesEnd).Panicked?
  }

  ghost predicate Run(w: World, es: seq<Event>, w': World, battlesEnd: bool)
    decreases |es|
  {
    if es == [] then w' == w
    else
      && Allowed(w, es[0], battlesEnd)
      && (Halts(es[0], battlesEnd) ==> |es| == 1)
      && Run(Apply(w, es[0], battlesEnd), es[1..], w', battlesEnd)
  }

  lemma StepKeepsInv(w: World, e: Event, battlesEnd: bool)
    requires Inv(w) && Allowed(w, e, battlesEnd)
    ensures Inv(Apply(w, e, battlesEnd))
  {
    match e
    case AttackAt(player, target, army, home, now) =>
      if Attack(w, player, target, army, home, now).1 {
        AttackKeepsInv(w, player, target, army, home, now);
      }
    case BackAt(player, id, now, seen) => BackKeepsInv(w, player, id, now, seen);
    case TickAt(now, swept, arrived, os) =>
      TickSettles(w, now, swept, arrived, os, battlesEnd, RunArrivals(swept, arrived, now, os, battlesEnd));
  }

  /** In every run, a last tick that fails included, table and index agree at the end, and every march
      repeats the orders of a running army. */
  lemma {:induction false} RunKeepsInv(w: World, es: seq<Event>, w': World, battlesEnd: bool)
    requires Inv(w) && Run(w, es, w', battlesEnd)
    ensures Inv(w')
    decreases |es|
  {
    if es != [] {
      StepKeepsInv(w, es[0], battlesEnd);
      RunKeepsInv(Apply(w, es[0], battlesEnd), es[1..], w', battlesEnd);
    }
  }

  lemma LostStays(w: World, e: Event, battlesEnd: bool, player: int, id: int)
    requires Inv(w) && Lost(w, player, id) && Allowed(w, e, battlesEnd)
    requires e.AttackAt? ==> e.player != player || e.army.id != id
    ensures Lost(Apply(w, e, battlesEnd), player, id)
  {
    match e
    case AttackAt(_, _, _, _, _) =>
    case BackAt(_, _, _, _) =>
    case TickAt(now, swept, arrived, os) =>
      var end := RunArrivals(swept, arrived, now, os, battlesEnd);
      TickSettles(w, now, swept, arrived, os, battlesEnd, end);
      TickStrands(w, now, swept, arrived, os, battlesEnd, end);
  }

  /** A stranded army stays running without a march however long the run: neither ticks nor
      calling it back release it. */
  lemma {:induction false} StrandedForGood(
      w: World, es: seq<Event>, w': World, battlesEnd: bool, player: int, id: int)
    requires Inv(w) && Lost(w, player, id) && Run(w, es, w', battlesEnd)
    requires forall e :: e in es && e.AttackAt? ==> e.player != player || e.army.id != id
    ensures Lost(w', player, id)
    decreases |es|
  {
    if es != [] {
      StepKeepsInv(w, es[0], battlesEnd);
      LostStays(w, es[0], battlesEnd, player, id);
      StrandedForGood(Apply(w, es[0], battlesEnd), es[1..], w', battlesEnd, player, id);
    }
  }

  /** Another attack does. */
  lemma AttackReleases(w: World, player: int, target: Pos, a: Army, home: Option<City>, now: int)
    requires HasArmyState(a) && a.player == player && Attack(w, player, target, a, home, now).1
    ensures !Lost(Attack(w, player, target, a, home, now).0, player, a.id)
  {
    assert InFlight(Attack(w, player, target, a, home, now).0, a);
  }

  // ---------- Who is never stranded ----------

  /** Cells lie where their number says. */
  ghost predicate LandInPlace(w: World) {
    forall c :: c in w.land ==> ToPosition(w.land[c].pos) == c
  }

  /** The army's own alliance, and not only that of the home city, allows the attack. */
  predicate Vetted(w: World, player: int, target: Pos, a: Army) {
    var c := ToPosition(target);
    c in w.land && CanAttack(player, w.land[c].owner, a.alliance, w.land[c].alliance)
  }

  lemma WarFreeEnds(w: World, now: int, later: int, occupied: int)
    requires now <= later && !IsWarFree(w, now, occupied)
    ensures !IsWarFree(w, later, occupied)
  {
  }

  /** An accepted attack could be carried out at once and at any later time exactly if it is vetted: the
      request looks at the alliance of the home city, the arrival at that of the army. */
  lemma AttackCanBeCarriedOut(
      w: World, player: int, target: Pos, a: Army, home: Option<City>, now: int, later: int)
    requires LandInPlace(w) && a.player == player && now <= later
    requires Attack(w, player, target, a, home, now).1
    ensures Strikes(w, SetOut(a, home.value, w.land[ToPosition(target)], now), later) <==> Vetted(w, player, target, a)
  {
    WarFreeEnds(w, now, later, w.land[ToPosition(target)].occupyTime);
  }

  /** The army may strike from the moment it set out, or is on its way home. */
  ghost predicate WellAimed(w: World, a: Army) {
    && a.start <= a.end
    && (a.cmd == Retreat || (a.cmd == Strike && HasArmyState(a) && Strikes(w, a, a.start)))
  }

  ghost predicate AllAimed(w: World) {
    forall p, i :: Flight(w, p, i).Some? && GetArmy(w, p, i).Some? ==> WellAimed(w, GetArmy(w, p, i).value)
  }

  lemma AimedLater(w: World, w': World, a: Army, a': Army)
    requires SameLand(w, w') && SameOrders(a, a') && WellAimed(w, a)
    ensures WellAimed(w', a')
  {
    assert Strikes(w', a', a'.start) == Strikes(w, a, a.start);
  }

  lemma AimedIsNotStranded(w: World, m: March, now: int)
    requires Inv(w) && AllAimed(w) && Flight(w, m.player, m.army) == Some(m) && m.arriveAt <= now
    ensures !Stranded(w, m, now)
  {
    assert Ordered(w, m.player, m.army, w.marches[m.player][m.army]);
    var a := GetArmy(w, m.player, m.army).value;
    assert WellAimed(w, a);
    if a.cmd == Strike {
      WarFreeEnds(w, a.start, now, w.land[ToPosition(a.to)].occupyTime);
    }
  }

  ghost predicate Calm(w: World) {
    Inv(w) && AllAimed(w) && LandInPlace(w) && RunningEscorted(w)
  }

  lemma AttackKeepsCalm(w: World, player: int, target: Pos, a: Army, home: Option<City>, now: int)
    requires Calm(w) && Attack(w, player, target, a, home, now).1
    requires HasArmyState(a) && a.player == player && MayLeave(w, a.(from := home.value.pos))
    requires Vetted(w, player, target, a)
    ensures Calm(Attack(w, player, target, a, home, now).0)
  {
    var w' := Attack(w, player, target, a, home, now).0;
    var sent := SetOut(a, home.value, w.land[ToPosition(target)], now);
    AttackKeepsInv(w, player, target, a, home, now);
    AttackCanBeCarriedOut(w, player, target, a, home, now, now);
    assert GetArmy(w', player, a.id) == Some(sent) && Flight(w', player, a.id) == Some(MarchOf(sent));
    assert w'.land == w.land && w'.warFree == w.warFree;
    forall p, i
      ensures !Lost(w', p, i)
      ensures Flight(w', p, i).Some? && GetArmy(w', p, i).Some? ==> WellAimed(w', GetArmy(w', p, i).value)
    {
      if (p, i) == (player, a.id) {
        assert WellAimed(w', sent);
      } else {
        SameElsewhere(w, w', p, i);
      }
    }
  }

  lemma SameElsewhere(w: World, w': World, p: int, i: int)
    requires Calm(w) && w'.land == w.land && w'.warFree == w.warFree
    requires GetArmy(w', p, i) == GetArmy(w, p, i) && Flight(w', p, i) == Flight(w, p, i)
    ensures !Lost(w', p, i)
    ensures Flight(w', p, i).Some? && GetArmy(w', p, i).Some? ==> WellAimed(w', GetArmy(w', p, i).value)
  {
    assert !Lost(w, p, i);
    if Flight(w, p, i).Some? && GetArmy(w, p, i).Some? {
      AimedLater(w, w', GetArmy(w, p, i).value, GetArmy(w, p, i).value);
    }
  }

  lemma BackKeepsCalm(w: World, player: int, id: int, now: int, seen: int)
    requires Calm(w) && (MayTurn(w, player, id) ==> !Repeats(w.armies[player][id], now))
    ensures Calm(Back(w, player, id, now, seen).0)
  {
    BackKeepsInv(w, player, id, now, seen);
    if MayTurn(w, player, id) {
      var w' := Back(w, player, id, now, seen).0;
      var turned := TurnRound(w.armies[player][id], now, seen);
      TurnRoundRepeats(w.armies[player][id], now, seen);
      assert GetArmy(w', player, id) == Some(turned) && Flight(w', player, id) == Some(MarchOf(turned));
      assert w'.land == w.land && w'.warFree == w.warFree;
      forall p, i
        ensures !Lost(w', p, i)
        ensures Flight(w', p, i).Some? && GetArmy(w', p, i).Some? ==> WellAimed(w', GetArmy(w', p, i).value)
      {
        if (p, i) == (player, id) {
          assert WellAimed(w', turned);
        } else {
          SameElsewhere(w, w', p, i);
        }
      }
    }
  }

  lemma TickKeepsCalm(
      w: World, now: int, w1: World, arrived: seq<March>, os: seq<Outcome>, battlesEnd: bool, e: TickEnd)
    requires Calm(w) && Ticked(w, now, w1, arrived, os, battlesEnd, e) && e.Completed?
    ensures Calm(e.w)
  {
    TickSettles(w, now, w1, arrived, os, battlesEnd, e);
    TickStrands(w, now, w1, arrived, os, battlesEnd, e);
    forall p, i
      ensures !Lost(e.w, p, i)
      ensures Flight(e.w, p, i).Some? && GetArmy(e.w, p, i).Some? ==> WellAimed(e.w, GetArmy(e.w, p, i).value)
    {
      if Listed(arrived, p, i) {
        var j :| 0 <= j < |arrived| && arrived[j].player == p && arrived[j].army == i;
        assert arrived[j] in arrived;
        AimedIsNotStranded(w, arrived[j], now);
        assert Handled(w, e.w, arrived[j], now, os[j].clock);
      } else {
        assert Untouched(w, e.w, p, i);
        assert !Lost(w, p, i);
        if Flight(w, p, i).Some? && GetArmy(w, p, i).Some? {
          AimedLater(w, e.w, GetArmy(w, p, i).value, GetArmy(e.w, p, i).value);
        }
      }
    }
  }

  /** Accepted attacks are vetted, and no tick fails. */
  ghost predicate Sound(w: World, e: Event, battlesEnd: bool) {
    && !Halts(e, battlesEnd)
    && (e.AttackAt? && Attack(w, e.player, e.target, e.army, e.home, e.now).1 ==> Vetted(w, e.player, e.target, e.army))
  }

  ghost predicate SoundRun(w: World, es: seq<Event>, battlesEnd: bool)
    requires forall e :: e in es && e.TickAt? ==> |e.os| == |e.arrived|
    decreases |es|
  {
    es != [] ==> Sound(w, es[0], battlesEnd) && SoundRun(Apply(w, es[0], battlesEnd), es[1..], battlesEnd)
  }

  /** In a run of vetted attacks whose ticks complete, no army is ever left running without a march. */
  lemma {:induction false} VettedRunsStrandNobody(w: World, es: seq<Event>, w': World, battlesEnd: bool)
    requires forall e :: e in es && e.TickAt? ==> |e.os| == |e.arrived|
    requires Calm(w) && Run(w, es, w', battlesEnd) && SoundRun(w, es, battlesEnd)
    ensures Calm(w')
    decreases |es|
  {
    if es != [] {
      match es[0] {
        case AttackAt(player, target, army, home, now) =>
          if Attack(w, player, target, army, home, now).1 {
            AttackKeepsCalm(w, player, target, army, home, now);
          }
        case BackAt(player, id, now, seen) => BackKeepsCalm(w, player, id, now, seen);
        case TickAt(now, swept, arrived, os) =>
          TickKeepsCalm(w, now, swept, arrived, os, battlesEnd, RunArrivals(swept, arrived, now, os, battlesEnd));
      }
      VettedRunsStrandNobody(Apply(w, es[0], battlesEnd), es[1..], w', battlesEnd);
    }
  }
}
