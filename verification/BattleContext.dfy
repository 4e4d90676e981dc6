/** The context a battle is fought in: the rows of units built from two armies, as the code builds them and
    as it means to. */
module BattleContexts {
  import opened Wrappers
  import opened Battle

  datatype General = General(
    id: int, arms: int, force: int, defense: int, strategy: int, speed: int, destroy: int, exp: int,
    learnt: seq<Learnt>)

  datatype Army = Army(generals: seq<General>, soldiers: seq<int>)

  /** What the facilities of the army's city add. */
  datatype Adds = Adds(force: int, defense: int, speed: int, strategy: int)

  datatype Context = Context(attackers: Row, defenders: Row)

  /** Every general has an entry in the list of soldiers; without it building the context fails. */
  predicate Manned(a: Army) {
    forall i :: 0 <= i < |a.generals| && a.generals[i].id != 0 ==> i < |a.soldiers|
  }

  function UnitAt(a: Army, adds: Adds, i: nat): Option<Unit>
    requires Manned(a) && i < |a.generals|
  {
    var g := a.generals[i];
    if g.id == 0 then None
    else Some(Unit(g.id, g.arms, i, g.force + adds.force, g.defense + adds.defense, g.strategy + adds.strategy,
                   g.speed + adds.speed, g.destroy, g.learnt, a.soldiers[i], g.exp, []))
  }

  /** The row of an army: a unit for each general in its place, none for an empty place. */
  function UnitRow(a: Army, adds: Adds): (row: Row)
    requires Manned(a)
    ensures |row| == |a.generals|
    ensures forall i :: 0 <= i < |row| ==> row[i] == UnitAt(a, adds, i)
  {
    seq(|a.generals|, i requires 0 <= i < |a.generals| => UnitAt(a, adds, i))
  }

  /** A unit fights with its general's arms and skills and the soldiers of its place, and the city adds to force,
      defence, speed and strategy, but not to destruction. */
  lemma UnitStandsFor(a: Army, adds: Adds, i: nat)
    requires Manned(a) && i < |a.generals|
    ensures UnitRow(a, adds)[i].Some? <==> a.generals[i].id != 0
    ensures a.generals[i].id != 0 ==>
      var g, u := a.generals[i], UnitRow(a, adds)[i].value;
      && u.id == g.id && u.arms == g.arms && u.learnt == g.learnt && u.exp == g.exp
      && u.position == i && u.soldiers == a.soldiers[i] && u.skills == []
      && u.force - g.force == adds.force && u.defense - g.defense == adds.defense
      && u.speed - g.speed == adds.speed && u.strategy - g.strategy == adds.strategy && u.destroy == g.destroy
  {
    assert UnitRow(a, adds)[i] == UnitAt(a, adds, i);
  }

  method AppendUnits(units: Row, a: Army, adds: Adds) returns (all: Row)
    requires Manned(a)
    ensures all == units + UnitRow(a, adds)
  {
    all := units;
    for i := 0 to |a.generals|
      invariant all == units + UnitRow(a, adds)[..i]
    {
      all := all + [UnitAt(a, adds, i)];
    }
  }

  /** As written: the context takes the two slices while they are empty, and the units are appended to the
      local slices afterwards. */
  method InitBattleContext(attacker: Army, defender: Army, attackerAdds: Adds, defenderAdds: Adds)
    returns (ctx: Context)
    requires Manned(attacker) && Manned(defender)
    ensures ctx.attackers == [] && ctx.defenders == []
  {
    var attackerUnits: Row, defenderUnits: Row := [], [];
    ctx := Context(attackerUnits, defenderUnits);
    attackerUnits := AppendUnits(attackerUnits, attacker, attackerAdds);
    defenderUnits := AppendUnits(defenderUnits, defender, defenderAdds);
  }

  /** As intended: the context takes the slices once they are filled. */
  method InitFilledContext(attacker: Army, defender: Army, attackerAdds: Adds, defenderAdds: Adds)
    returns (ctx: Context)
    requires Manned(attacker) && Manned(defender)
    ensures ctx == Context(UnitRow(attacker, attackerAdds), UnitRow(defender, defenderAdds))
  {
    var attackerUnits := AppendUnits([], attacker, attackerAdds);
    var defenderUnits := AppendUnits([], defender, defenderAdds);
    ctx := Context(attackerUnits, defenderUnits);
  }

  /** The rounds of a battle and its verdict; None is the failure to find a unit. */
  function Outcome(r: Rules, ctx: Context, d: nat -> RoundDice): Option<Verdict>
    requires |ctx.attackers| == |ctx.defenders|
  {
    match Rounds(r, ctx.attackers, ctx.defenders, d, MAX_ROUND)
    case Broken => None
    case Fought(att, def, _, _) => Judge(att, def)
  }

  /** Whatever the armies and whatever the dice, a battle in the context as written fails. */
  method FightAsWritten(
      r: Rules, attacker: Army, defender: Army, attackerAdds: Adds, defenderAdds: Adds, d: nat -> RoundDice)
    returns (v: Option<Verdict>)
    requires Manned(attacker) && Manned(defender)
    ensures v == None
  {
    var ctx := InitBattleContext(attacker, defender, attackerAdds, defenderAdds);
    EmptyRowsFail(r, d, MAX_ROUND);
    v := Outcome(r, ctx, d);
  }

  predicate NoEmptyPlace(a: Army) {
    forall i :: 0 <= i < |a.generals| ==> a.generals[i].id != 0
  }

  lemma RowComplete(a: Army, adds: Adds)
    requires Manned(a)
    ensures Complete(UnitRow(a, adds)) <==> NoEmptyPlace(a)
  {
    var row := UnitRow(a, adds);
    forall i | 0 <= i < |row|
      ensures row[i].Some? <==> a.generals[i].id != 0
      ensures row[i].Some? ==> row[i].value.position == i
    {
      assert row[i] == UnitAt(a, adds, i);
    }
    if Complete(row) {
      forall i | 0 <= i < |a.generals|
        ensures a.generals[i].id != 0
      {
        assert row[i].Some?;
      }
    }
    if NoEmptyPlace(a) {
      assert forall i :: 0 <= i < |row| ==> row[i].Some?;
    }
  }

  /** The rows as intended are complete and equally long, as the battle's results ask for, exactly when the
      armies have equally many generals and no empty place among them. */
  lemma FilledRowsFit(attacker: Army, defender: Army, attackerAdds: Adds, defenderAdds: Adds)
    requires Manned(attacker) && Manned(defender)
    ensures var att, def := UnitRow(attacker, attackerAdds), UnitRow(defender, defenderAdds);
      |att| == |def| && Complete(att) && Complete(def) <==>
        |attacker.generals| == |defender.generals| && NoEmptyPlace(attacker) && NoEmptyPlace(defender)
  {
    RowComplete(attacker, attackerAdds);
    RowComplete(defender, defenderAdds);
  }

  /** Two such armies of three fight to a verdict. */
  lemma FilledBattleEnds(
      r: Rules, attacker: Army, defender: Army, attackerAdds: Adds, defenderAdds: Adds, d: nat -> RoundDice)
    requires Manned(attacker) && Manned(defender)
    requires |attacker.generals| == |defender.generals| == 3 && NoEmptyPlace(attacker) && NoEmptyPlace(defender)
    ensures Outcome(r, Context(UnitRow(attacker, attackerAdds), UnitRow(defender, defenderAdds)), d).Some?
  {
    FilledRowsFit(attacker, defender, attackerAdds, defenderAdds);
    BattleEndsByBase(r, UnitRow(attacker, attackerAdds), UnitRow(defender, defenderAdds), d, MAX_ROUND);
  }
}
