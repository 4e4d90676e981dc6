/** Two runs of the march scheduler that leave an army running without a march. */
module MarchRuns {
  import opened Wrappers
  import opened Marching

  const HOME := City(Pos(10, 10), true, 0)
  const NOTHING := Outcome(TRAVEL_TIME, 0, [], [], [], [])

  /** One player with a city, nobody on the march, and a foreign cell, held by alliance 7 and with the
      given garrison. */
  function Before(garrison: map<int, Army>): World {
    World(map[2 := garrison], map[], map[], map[ToPosition(Pos(20, 20)) := Target()], map[1 := map[1 := HOME]], 0)
  }

  function Target(): Cell {
    Cell(ToPosition(Pos(20, 20)), Pos(20, 20), 2, 7, 5, 0, 100, 100)
  }

  /** The army of the request, claiming an alliance. */
  function Claimed(alliance: int): Army {
    Army(1, 1, alliance, Idle, Stop, Pos(0, 0), Pos(0, 0), 0, 0, [], [])
  }

  function Sent(alliance: int): Army {
    SetOut(Claimed(alliance), HOME, Target(), 0)
  }

  function OnItsWay(garrison: map<int, Army>, alliance: int): World {
    var m := MarchOf(Sent(alliance));
    Before(garrison).(
      armies := map[2 := garrison, 1 := map[1 := Sent(alliance)]],
      marches := map[1 := map[1 := m]],
      cells := map[ToPosition(Pos(10, 10)) := [m]])
  }

  function TakenOff(garrison: map<int, Army>, alliance: int): World {
    OnItsWay(garrison, alliance).(marches := map[], cells := map[])
  }

  function Attacking(alliance: int): Event {
    AttackAt(1, Pos(20, 20), Claimed(alliance), Some(HOME), 0)
  }

  function Arriving(garrison: map<int, Army>, alliance: int): Event {
    TickAt(TRAVEL_TIME, TakenOff(garrison, alliance), [MarchOf(Sent(alliance))], [NOTHING])
  }

  lemma BeforeInv(garrison: map<int, Army>)
    requires forall i :: i in garrison ==> garrison[i].player == 2 && garrison[i].id == i
    ensures Inv(Before(garrison))
  {
    LiveMembers(map[]);
    assert Live(map[]) == {};
  }

  lemma AttackAccepted(garrison: map<int, Army>, alliance: int, battlesEnd: bool)
    ensures Allowed(Before(garrison), Attacking(alliance), battlesEnd)
    ensures Apply(Before(garrison), Attacking(alliance), battlesEnd) == OnItsWay(garrison, alliance)
  {
    var w := Before(garrison);
    assert HOME in w.cities[1].Values by {
      assert w.cities[1][1] == HOME;
    }
    var sent := Sent(alliance);
    assert Without([], MarchOf(sent)) + [MarchOf(sent)] == [MarchOf(sent)];
    assert Attack(w, 1, Pos(20, 20), Claimed(alliance), Some(HOME), 0) == (OnItsWay(garrison, alliance), true);
  }

  lemma SweepsIt(garrison: map<int, Army>, alliance: int)
    ensures Swept(OnItsWay(garrison, alliance), TRAVEL_TIME, TakenOff(garrison, alliance), [MarchOf(Sent(alliance))])
  {
    var w, w1 := OnItsWay(garrison, alliance), TakenOff(garrison, alliance);
    var m := MarchOf(Sent(alliance));
    LiveMembers(map[]);
    assert Live(map[]) == {};
    assert IndexInv(w1);
    forall x
      ensures x in [m] <==> Flight(w, x.player, x.army) == Some(x) && x.arriveAt <= TRAVEL_TIME
    {
    }
  }

  lemma ArrivalAllowed(garrison: map<int, Army>, alliance: int, battlesEnd: bool)
    ensures Allowed(OnItsWay(garrison, alliance), Arriving(garrison, alliance), battlesEnd)
  {
    SweepsIt(garrison, alliance);
  }

  lemma TwoSteps(garrison: map<int, Army>, alliance: int, battlesEnd: bool)
    ensures Run(Before(garrison), [Attacking(alliance), Arriving(garrison, alliance)],
      Apply(OnItsWay(garrison, alliance), Arriving(garrison, alliance), battlesEnd), battlesEnd)
  {
    var first, second := Attacking(alliance), Arriving(garrison, alliance);
    var end := Apply(OnItsWay(garrison, alliance), second, battlesEnd);
    AttackAccepted(garrison, alliance, battlesEnd);
    ArrivalAllowed(garrison, alliance, battlesEnd);
    assert [first, second][1..] == [second] && [second][1..] == [];
    assert Run(end, [], end, battlesEnd);
    assert Run(OnItsWay(garrison, alliance), [second], end, battlesEnd);
  }

  /** The request's army claims the alliance that holds the target, and the player's city belongs to none.
      The request looks at the city and is accepted, the arrival looks at the army and stops there: the
      army is left running without a march. No battle is involved. */
  lemma ClaimedAllianceStrands(battlesEnd: bool)
    ensures Inv(Before(map[])) && !Vetted(Before(map[]), 1, Pos(20, 20), Claimed(7))
    ensures Run(Before(map[]), [Attacking(7), Arriving(map[], 7)], TakenOff(map[], 7), battlesEnd)
    ensures Lost(TakenOff(map[], 7), 1, 1)
  {
    BeforeInv(map[]);
    TwoSteps(map[], 7, battlesEnd);
    var w := TakenOff(map[], 7);
    var m := MarchOf(Sent(7));
    assert ArriveMarch(w, m, TRAVEL_TIME, NOTHING) == w;
    assert [m][1..] == [] && [NOTHING][1..] == [];
    assert RunArrivals(w, [m], TRAVEL_TIME, [NOTHING], battlesEnd) == Completed(w);
  }

  function Garrison(): map<int, Army> {
    map[5 := Army(5, 2, 7, Defend, Stop, Pos(20, 20), Pos(20, 20), 0, 0, [], [])]
  }

  /** An attack that is vetted meets a garrison: as the code stands the battle fails, the tick ends there, and
      the army is left running without a march. */
  lemma GarrisonStrands()
    ensures Inv(Before(Garrison())) && Vetted(Before(Garrison()), 1, Pos(20, 20), Claimed(0))
    ensures Run(Before(Garrison()), [Attacking(0), Arriving(Garrison(), 0)], TakenOff(Garrison(), 0), false)
    ensures Halts(Arriving(Garrison(), 0), false) && Lost(TakenOff(Garrison(), 0), 1, 1)
  {
    BeforeInv(Garrison());
    TwoSteps(Garrison(), 0, false);
    var w := TakenOff(Garrison(), 0);
    assert Garrisoned(w, Target()) == Some(Garrison()[5]);
    assert MeetsGarrison(w, MarchOf(Sent(0)), TRAVEL_TIME);
  }
}
