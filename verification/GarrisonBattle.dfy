/** An attack that arrives at a garrison, from the march to the battle and back: the rows as intended, the
    rounds fought, and what they leave of the two armies in the world. */
module GarrisonBattles {
  import opened Wrappers
  import opened Battle
  import opened BattleContexts
  import opened Marching

  /** What the generals of the march scheduler's armies stand for in a battle, and what becomes of one whose
      level is set anew afterwards. */
  datatype Muster = Muster(general: int -> General, relevel: int -> int)

  /** How a battle is fought: the damage rules, what the two cities add, the random choices, and the clock. */
  datatype Field = Field(r: Rules, attackerAdds: Adds, defenderAdds: Adds, d: nat -> RoundDice, clock: int)

  function InBattle(mu: Muster, a: Marching.Army): BattleContexts.Army {
    BattleContexts.Army(seq(|a.generals|, i requires 0 <= i < |a.generals| => mu.general(a.generals[i])), a.soldiers)
  }

  /** The places of an army that the battle writes back. */
  predicate Ready(mu: Muster, a: Marching.Army) {
    |a.generals| == 3 && Manned(InBattle(mu, a))
  }

  function AttackRow(mu: Muster, f: Field, a: Marching.Army): Row
    requires Ready(mu, a)
  {
    UnitRow(InBattle(mu, a), f.attackerAdds)
  }

  function DefenceRow(mu: Muster, f: Field, g: Marching.Army): Row
    requires Ready(mu, g)
  {
    UnitRow(InBattle(mu, g), f.defenderAdds)
  }

  function Played(mu: Muster, f: Field, a: Marching.Army, g: Marching.Army): BattleEnd
    requires Ready(mu, a) && Ready(mu, g)
  {
    Rounds(f.r, AttackRow(mu, f, a), DefenceRow(mu, f, g), f.d, MAX_ROUND)
  }

  /** The soldiers of the units that are there replace those of the army. */
  function WrittenBack(soldiers: seq<int>, row: Row): seq<int> {
    seq(|row|, i requires 0 <= i < |row| =>
      if row[i].Some? then row[i].value.soldiers else if i < |soldiers| then soldiers[i] else 0)
  }

  function Relevelled(mu: Muster, a: Marching.Army): seq<int> {
    seq(|a.generals|, i requires 0 <= i < |a.generals| =>
      if mu.general(a.generals[i]).id != 0 then mu.relevel(a.generals[i]) else a.generals[i])
  }

  /** What the battle leaves, or None when it fails to find a unit. */
  function Left(mu: Muster, f: Field, a: Marching.Army, g: Marching.Army): Option<Marching.Outcome>
    requires Ready(mu, a) && Ready(mu, g)
  {
    match Played(mu, f, a, g)
    case Broken => None
    case Fought(att, def, _, _) =>
      if Judge(att, def).None? then None
      else Some(Marching.Outcome(f.clock, 0, Relevelled(mu, a), WrittenBack(a.soldiers, att),
                                 Relevelled(mu, g), WrittenBack(g.soldiers, def)))
  }

  /** The row was made from these soldiers. */
  ghost predicate Carries(soldiers: seq<int>, row: Row) {
    forall i :: 0 <= i < |row| && row[i].Some? ==> i < |soldiers| && soldiers[i] == row[i].value.soldiers
  }

  lemma {:induction false} WriteBackSums(was: seq<int>, row: Row, row': Row)
    requires SameUnits(row, row') && Carries(was, row)
    ensures Sum(Overwrite(was, WrittenBack(was, row'))) == Sum(was) - Troops(row) + Troops(row')
    decreases |row|
  {
    var after := Overwrite(was, WrittenBack(was, row'));
    assert forall i :: 0 <= i < |row| ==> SameUnit(row[i], row'[i]);
    if row == [] {
      assert after == was;
    } else if was == [] {
      assert after == [];
      NobodyThere(row);
      NobodyThere(row');
    } else {
      assert forall i :: 0 <= i < |row| - 1 ==> row[1..][i] == row[i + 1] && row'[1..][i] == row'[i + 1];
      assert after[1..] == Overwrite(was[1..], WrittenBack(was[1..], row'[1..]));
      WriteBackSums(was[1..], row[1..], row'[1..]);
    }
  }

  lemma {:induction false} NobodyThere(row: Row)
    requires forall i :: 0 <= i < |row| ==> row[i].None?
    ensures Troops(row) == 0
  {
    if row != [] {
      NobodyThere(row[1..]);
    }
  }

  lemma WriteBackWanes(was: seq<int>, row: Row, row': Row)
    requires SameUnits(row, row') && Carries(was, row) && NoGain(row, row')
    ensures Fewer(was, Overwrite(was, WrittenBack(was, row')))
  {
    forall i | 0 <= i < |was|
      ensures Overwrite(was, WrittenBack(was, row'))[i] <= was[i]
      ensures was[i] >= 0 ==> Overwrite(was, WrittenBack(was, row'))[i] >= 0
    {
      if i < |row| {
        assert SameUnit(row[i], row'[i]);
      }
    }
  }

  /** No number has grown, and none has fallen below zero. */
  ghost predicate Fewer(was: seq<int>, now: seq<int>) {
    && |now| == |was|
    && forall i :: 0 <= i < |was| ==> now[i] <= was[i] && (was[i] >= 0 ==> now[i] >= 0)
  }

  function Everyone(a: Marching.Army): int {
    Sum(a.soldiers)
  }

  /** The two armies as a battle leaves them. */
  function AfterBattle(a: Marching.Army, g: Marching.Army, o: Marching.Outcome): (Marching.Army, Marching.Army) {
    (Marching.Fought(a, o.attackerGenerals, o.attackerSoldiers),
     Marching.Fought(g, o.defenderGenerals, o.defenderSoldiers))
  }

  ghost predicate EveryRoundReports(e: BattleEnd) {
    e.Fought? && forall k :: 0 <= k < |e.rounds| ==> e.rounds[k].Some?
  }

  /** The soldiers missing from the two armies are those the rounds report; the attacker is beaten exactly if
      nobody is left in its base; and in a sane battle no place gains soldiers. */
  ghost predicate Accounted(
      mu: Muster, f: Field, a: Marching.Army, g: Marching.Army, a': Marching.Army, g': Marching.Army)
    requires Ready(mu, a) && Ready(mu, g)
  {
    var e := Played(mu, f, a, g);
    && e.Fought?
    && (EveryRoundReports(e) ==> Everyone(a') + Everyone(g') == Everyone(a) + Everyone(g) - BattleToll(e.rounds))
    && (Judge(e.att, e.def) == Some(Defeat) <==> |a'.soldiers| > 0 && a'.soldiers[0] == 0)
    && (SaneRules(f.r) && SaneRow(AttackRow(mu, f, a)) && SaneRow(DefenceRow(mu, f, g)) ==>
          Fewer(a.soldiers, a'.soldiers) && Fewer(g.soldiers, g'.soldiers))
  }

  /** A battle that finds its units takes from the soldiers written back exactly those its rounds report. */
  lemma ReportedIsLost(mu: Muster, f: Field, a: Marching.Army, g: Marching.Army)
    requires Ready(mu, a) && Ready(mu, g) && Left(mu, f, a, g).Some?
    ensures var (a', g') := AfterBattle(a, g, Left(mu, f, a, g).value); Accounted(mu, f, a, g, a', g')
  {
    var e := Played(mu, f, a, g);
    var att, def := AttackRow(mu, f, a), DefenceRow(mu, f, g);
    BattleConserves(f.r, att, def, f.d, MAX_ROUND);
    WriteBackSums(a.soldiers, att, e.att);
    WriteBackSums(g.soldiers, def, e.def);
    assert SameUnit(att[0], e.att[0]);
    if SaneRules(f.r) && SaneRow(att) && SaneRow(def) {
      WriteBackWanes(a.soldiers, att, e.att);
      WriteBackWanes(g.soldiers, def, e.def);
    }
  }

  /** Armies without an empty place always fight to the end, and every round reports. */
  lemma FullArmiesFight(mu: Muster, f: Field, a: Marching.Army, g: Marching.Army)
    requires Ready(mu, a) && Ready(mu, g) && NoEmptyPlace(InBattle(mu, a)) && NoEmptyPlace(InBattle(mu, g))
    ensures Left(mu, f, a, g).Some?
    ensures var e := Played(mu, f, a, g); forall k :: 0 <= k < |e.rounds| ==> e.rounds[k].Some?
  {
    FilledRowsFit(InBattle(mu, a), InBattle(mu, g), f.attackerAdds, f.defenderAdds);
    FilledBattleEnds(f.r, InBattle(mu, a), InBattle(mu, g), f.attackerAdds, f.defenderAdds, f.d);
    BattleEndsByBase(f.r, AttackRow(mu, f, a), DefenceRow(mu, f, g), f.d, MAX_ROUND);
  }

  /** An attack by `a` that has arrived and finds the garrison `g`. */
  ghost predicate Meets(w: World, m: March, now: int, a: Marching.Army, c: Cell, g: Marching.Army) {
    && IndexInv(w) && ArmyKeys(w) && Flight(w, m.player, m.army) == None
    && GetArmy(w, m.player, m.army) == Some(a) && HasArmyState(a)
    && a.cmd == Strike && Strikes(w, a, now)
    && c == w.land[ToPosition(a.to)] && Garrisoned(w, c) == Some(g)
  }

  /** With the rows as intended, handling the arrival stores the two armies as the battle leaves them, with
      soldiers accounted for, sends the attacker home, and touches no other army. */
  lemma GarrisonBattle(
      mu: Muster, f: Field, w: World, m: March, now: int, a: Marching.Army, c: Cell, g: Marching.Army)
    requires Meets(w, m, now, a, c, g) && Ready(mu, a) && Ready(mu, g) && Left(mu, f, a, g).Some?
    ensures var w', (a', g') :=
        ArriveMarch(w, m, now, Left(mu, f, a, g).value), AfterBattle(a, g, Left(mu, f, a, g).value);
      && GetArmy(w', a.player, a.id) == Some(Homeward(a', c.pos, f.clock))
      && Flight(w', a.player, a.id) == Some(MarchOf(Homeward(a', c.pos, f.clock)))
      && GetArmy(w', g.player, g.id) == Some(g')
      && Accounted(mu, f, a, g, a', g')
      && (forall p, i :: (p, i) != (a.player, a.id) ==> Untouched(w, w', p, i))
      && (forall p, i :: (p, i) != (a.player, a.id) && (p, i) != (g.player, g.id) ==>
            GetArmy(w', p, i) == GetArmy(w, p, i))
  {
    var o := Left(mu, f, a, g).value;
    var (a', g') := AfterBattle(a, g, o);
    var home := Homeward(a', c.pos, o.clock);
    ReportedIsLost(mu, f, a, g);
    ReplaceEffect(w, a, home);
    ReplaceEffect(ReplaceArmy(w, home), g, g');
    BattleEffect(w, a, c, o);
  }
}
