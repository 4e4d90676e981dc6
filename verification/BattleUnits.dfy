/** Battle units on the heap: the operations of module Battle as they change soldiers, experience
    and skills in place, each proved to do to its row what the function of that module says. */
module BattleUnits {
  import opened Wrappers
  import opened Battle
  import BattleLaws

  datatype Attr = Attr(force: int, defense: int, strategy: int, speed: int, destroy: int)

  /** The attributes of a unit with what skills add; of these, blows read Might and Guard. */
  function Raised(u: Unit, skills: seq<Active>): Attr {
    Attr(u.force + Bonus(skills, FORCE), u.defense + Bonus(skills, DEFENSE), u.strategy + Bonus(skills, STRATEGY),
      u.speed + Bonus(skills, SPEED), u.destroy + Bonus(skills, DESTROY))
  }

  function RealAttr(u: Unit): (a: Attr)
    ensures a.force == Might(u) && a.defense == Guard(u)
  {
    Raised(u, u.skills)
  }

  /** One effect; an unknown kind, and damage, adds nothing. */
  function Effect(a: Attr, kind: int, v: int): Attr {
    if kind == FORCE then a.(force := a.force + v)
    else if kind == DEFENSE then a.(defense := a.defense + v)
    else if kind == STRATEGY then a.(strategy := a.strategy + v)
    else if kind == SPEED then a.(speed := a.speed + v)
    else if kind == DESTROY then a.(destroy := a.destroy + v)
    else a
  }

  function Effected(a: Attr, effects: seq<int>, values: seq<int>): (b: Attr)
    requires |effects| == |values|
    ensures b.force == a.force + EffectBonus(effects, values, FORCE)
    ensures b.defense == a.defense + EffectBonus(effects, values, DEFENSE)
    ensures b.strategy == a.strategy + EffectBonus(effects, values, STRATEGY)
    ensures b.speed == a.speed + EffectBonus(effects, values, SPEED)
    ensures b.destroy == a.destroy + EffectBonus(effects, values, DESTROY)
  {
    if effects == [] then a
    else
      var n := |effects| - 1;
      Effect(Effected(a, effects[..n], values[..n]), effects[n], values[n])
  }

  lemma RaisedByLast(u: Unit, skills: seq<Active>)
    requires skills != []
    ensures var t := skills[|skills| - 1];
      Raised(u, skills) ==
        Effected(Raised(u, skills[..|skills| - 1]), t.conf.effects, t.conf.levels[t.lv - 1].values)
  {
  }

  /** One more skill with one effect raises the attribute the effect is for by its value, and no other. */
  lemma SkillRaises(u: Unit, skills: seq<Active>, a: Active, effect: int, value: int)
    requires a.conf.effects == [effect] && a.conf.levels[a.lv - 1].values == [value]
    ensures var was, now := Raised(u, skills), Raised(u, skills + [a]);
      && now.force - was.force == (if effect == 2 then value else 0)
      && now.defense - was.defense == (if effect == 3 then value else 0)
      && now.strategy - was.strategy == (if effect == 4 then value else 0)
      && now.speed - was.speed == (if effect == 5 then value else 0)
      && now.destroy - was.destroy == (if effect == 6 then value else 0)
  {
    BonusOfOneMore(skills, a, effect, value, 2);
    BonusOfOneMore(skills, a, effect, value, 3);
    BonusOfOneMore(skills, a, effect, value, 4);
    BonusOfOneMore(skills, a, effect, value, 5);
    BonusOfOneMore(skills, a, effect, value, 6);
  }

  lemma BonusOfOneMore(skills: seq<Active>, a: Active, effect: int, value: int, kind: int)
    requires a.conf.effects == [effect] && a.conf.levels[a.lv - 1].values == [value]
    ensures Bonus(skills + [a], kind) == Bonus(skills, kind) + if effect == kind then value else 0
  {
    BattleLaws.BonusAdds(skills, [a], kind);
    BattleLaws.BonusOfOne(a, kind, effect, value);
  }

  /** Without skills a unit fights with its own attributes. */
  lemma BareAttr(u: Unit)
    requires u.skills == []
    ensures RealAttr(u) == Attr(u.force, u.defense, u.strategy, u.speed, u.destroy)
  {
  }

  class BattleUnit {
    const id: int
    const arms: int
    const position: int
    const force: int
    const defense: int
    const strategy: int
    const speed: int
    const destroy: int
    const learnt: seq<Learnt>
    var soldiers: int
    var exp: int
    var skills: seq<Active>

    constructor (u: Unit)
      ensures Value() == u
    {
      id, arms, position, learnt := u.id, u.arms, u.position, u.learnt;
      force, defense, strategy, speed, destroy := u.force, u.defense, u.strategy, u.speed, u.destroy;
      soldiers, exp, skills := u.soldiers, u.exp, u.skills;
    }

    function Value(): Unit
      reads this
    {
      Unit(id, arms, position, force, defense, strategy, speed, destroy, learnt, soldiers, exp, skills)
    }

    /** The attributes with everything the carried skills add to them. */
    method CalRealBattleAttr() returns (attr: Attr)
      ensures attr == RealAttr(Value())
    {
      attr := Attr(force, defense, strategy, speed, destroy);
      for n := 0 to |skills|
        invariant attr == Raised(Value(), skills[..n])
      {
        var t := skills[n];
        var values := t.conf.levels[t.lv - 1].values;
        var effects := t.conf.effects;
        ghost var before := attr;
        for i := 0 to |effects|
          invariant attr == Effected(before, effects[..i], values[..i])
        {
          assert effects[..i + 1][..i] == effects[..i] && values[..i + 1][..i] == values[..i];
          attr := Effect(attr, effects[i], values[i]);
        }
        assert effects[..|effects|] == effects && values[..|effects|] == values;
        assert skills[..n + 1][..n] == skills[..n];
        RaisedByLast(Value(), skills[..n + 1]);
      }
      assert skills[..|skills|] == skills;
    }

    method Kill(r: Rules, hitB: BattleUnit, force: int, defense: int) returns (kill: int)
      requires hitB != this
      modifies this`exp, hitB`soldiers
      ensures kill == Loss(r, old(Value()), old(hitB.Value()), force, defense)
      ensures r.ratio(arms, hitB.arms) >= 0 && old(soldiers) >= 0 && old(hitB.soldiers) >= 0 && force >= 0 && defense > -100 ==>
        BattleLaws.Sized(kill, old(hitB.soldiers), force * old(soldiers) * r.ratio(arms, hitB.arms), 100 * (defense + 100))
      ensures hitB.Value() == old(hitB.Value()).(soldiers := old(hitB.soldiers) - kill)
      ensures Value() == old(Value()).(exp := old(exp) + EXP_PER_KILL * kill)
    {
      kill := Damage(r, Value(), hitB.Value(), force, defense);
      if r.ratio(arms, hitB.arms) >= 0 && soldiers >= 0 && hitB.soldiers >= 0 && force >= 0 && defense > -100 {
        BattleLaws.LossSized(r, Value(), hitB.Value(), force, defense);
      }
      if kill > hitB.soldiers {
        kill := hitB.soldiers;
      }
      hitB.soldiers := hitB.soldiers - kill;
      exp := exp + kill * EXP_PER_KILL;
    }

    method CheckHitSkills()
      modifies this`skills
      ensures skills == Lasting(old(skills))
    {
      var kept: seq<Active> := [];
      for i := 0 to |skills|
        invariant skills == old(skills)
        invariant kept == Lasting(skills[..i])
      {
        assert skills[..i + 1][..i] == skills[..i];
        if skills[i].duration > 0 {
          kept := kept + [skills[i]];
        }
      }
      assert skills[..|skills|] == skills;
      skills := kept;
    }

    method CheckNextRound()
      modifies this`skills
      ensures skills == Aged(old(skills))
    {
      var kept: seq<Active> := [];
      for i := 0 to |skills|
        invariant skills == old(skills)
        invariant kept == Aged(skills[..i])
      {
        assert skills[..i + 1][..i] == skills[..i];
        var t := Older(skills[i]);
        if t.duration > 0 {
          kept := kept + [t];
        }
      }
      assert skills[..|skills|] == skills;
      skills := kept;
    }

    /** The blows of one effect on the standing units with general `to`. */
    method HurtOne(r: Rules, defenders: seq<BattleUnit?>, to: int, v: int) returns (kills: int)
      requires this !in defenders && Distinct(defenders)
      modifies this`exp, defenders`soldiers
      ensures (Value(), RowOf(defenders), kills) == HurtTarget(r, old(Value()), old(RowOf(defenders)), to, v, 0)
    {
      kills := 0;
      for k := 0 to |defenders|
        invariant Plus(HurtTarget(r, Value(), RowOf(defenders), to, v, k), kills)
          == HurtTarget(r, old(Value()), old(RowOf(defenders)), to, v, 0)
      {
        var defender := defenders[k];
        if defender != null && defender.id == to && defender.soldiers > 0 {
          kills := HurtPlace(r, defenders, k, v, kills);
        }
      }
    }

    method SkillKill(r: Rules, defenders: seq<BattleUnit?>, ts: seq<Triggered>) returns (used: seq<Triggered>)
      requires this !in defenders && Distinct(defenders)
      modifies this`exp, defenders`soldiers
      ensures (Value(), RowOf(defenders), used) == Battle.SkillKill(r, old(Value()), old(RowOf(defenders)), ts)
    {
      used := [];
      assert ts[0..] == ts;
      SkillsStart(Battle.SkillKill(r, Value(), RowOf(defenders), ts));
      for n := 0 to |ts|
        invariant After(Battle.SkillKill(r, Value(), RowOf(defenders), ts[n..]), used)
          == Battle.SkillKill(r, old(Value()), old(RowOf(defenders)), ts)
      {
        assert ts[n..][1..] == ts[n + 1..];
        SkillStep(r, Value(), RowOf(defenders), ts[n..], used);
        var kill := HurtBy(r, defenders, ts[n].active, ts[n].toId);
        used := used + [ts[n].(kill := kill)];
      }
      assert used + [] == used;
    }

    /** All damaging effects of one skill. */
    method HurtBy(r: Rules, defenders: seq<BattleUnit?>, t: Active, toId: seq<int>) returns (kill: seq<int>)
      requires this !in defenders && Distinct(defenders)
      modifies this`exp, defenders`soldiers
      ensures (Value(), RowOf(defenders), kill)
        == HurtEffects(r, old(Value()), old(RowOf(defenders)), t, toId, 0, Zeros(|toId|))
    {
      kill := Zeros(|toId|);
      for i := 0 to |t.conf.effects|
        invariant |kill| == |toId|
        invariant HurtEffects(r, Value(), RowOf(defenders), t, toId, i, kill)
          == HurtEffects(r, old(Value()), old(RowOf(defenders)), t, toId, 0, Zeros(|toId|))
      {
        if t.conf.effects[i] == HURT_RATE {
          kill := HurtAll(r, defenders, toId, t.conf.levels[t.lv - 1].values[i], kill);
        }
      }
    }

    /** One damaging effect on all targets of a skill. */
    method HurtAll(r: Rules, defenders: seq<BattleUnit?>, toId: seq<int>, v: int, before: seq<int>)
      returns (kill: seq<int>)
      requires this !in defenders && Distinct(defenders) && |before| == |toId|
      modifies this`exp, defenders`soldiers
      ensures (Value(), RowOf(defenders), kill)
        == HurtTargets(r, old(Value()), old(RowOf(defenders)), toId, v, 0, before)
    {
      kill := before;
      for j := 0 to |toId|
        invariant |kill| == |toId|
        invariant HurtTargets(r, Value(), RowOf(defenders), toId, v, j, kill)
          == HurtTargets(r, old(Value()), old(RowOf(defenders)), toId, v, 0, before)
      {
        var n := HurtOne(r, defenders, toId[j], v);
        kill := kill[j := kill[j] + n];
      }
    }

    /** The targets of a skill of this unit. */
    method AimAt(our: seq<BattleUnit?>, enemy: seq<BattleUnit?>, target: Target, shuffle: Shuffle)
      returns (toId: seq<int>, isEnemy: bool)
      ensures (toId, isEnemy) == Aim(Value(), RowOf(our), RowOf(enemy), target, shuffle)
    {
      isEnemy := target in {EnemySingle, EnemyMostTwo, EnemyMostThree, EnemyAll};
      toId := [];
      match target
      case MySelf => toId := [id];
      case OurSingle => toId := RandomIds(our, 1, shuffle);
      case OurMostTwo => toId := RandomIds(our, 2, shuffle);
      case OurMostThree => toId := RandomIds(our, 3, shuffle);
      case OurAll => toId := RandomIds(our, |our|, shuffle);
      case EnemySingle => toId := RandomIds(enemy, 1, shuffle);
      case EnemyMostTwo => toId := RandomIds(enemy, 2, shuffle);
      case EnemyMostThree => toId := RandomIds(enemy, 3, shuffle);
      case EnemyAll => toId := RandomIds(enemy, |enemy|, shuffle);
      case NoTarget =>
    }

    method TriggerSkills(our: seq<BattleUnit?>, enemy: seq<BattleUnit?>, after: bool, d: Dice)
      returns (ts: seq<Triggered>)
      modifies this`skills
      ensures ts == Triggers(old(Value()), old(RowOf(our)), old(RowOf(enemy)), after, d, |learnt|)
      ensures skills == old(skills) + Carried(ts)
    {
      ts := [];
      ghost var u, o, e := Value(), RowOf(our), RowOf(enemy);
      for n := 0 to |learnt|
        invariant ts == Triggers(u, o, e, after, d, n)
        invariant skills == old(skills) + Carried(ts)
        invariant SameButSkills(o, RowOf(our)) && SameButSkills(e, RowOf(enemy))
      {
        ts := TriggerNth(n, ts, our, enemy, after, d, u, o, e, old(skills));
      }
    }

    method TriggerNth(
        n: nat, before: seq<Triggered>, our: seq<BattleUnit?>, enemy: seq<BattleUnit?>, after: bool, d: Dice,
        ghost u: Unit, ghost o: Row, ghost e: Row, ghost first: seq<Active>)
      returns (ts: seq<Triggered>)
      requires n < |learnt| && u.learnt == learnt && u.id == id
      requires SameButSkills(o, RowOf(our)) && SameButSkills(e, RowOf(enemy))
      requires before == Triggers(u, o, e, after, d, n) && skills == first + Carried(before)
      modifies this`skills
      ensures ts == Triggers(u, o, e, after, d, n + 1) && skills == first + Carried(ts)
      ensures SameButSkills(o, RowOf(our)) && SameButSkills(e, RowOf(enemy))
    {
      ts := before;
      var s := learnt[n];
      if Fires(s, after, d.roll(n)) {
        var t := NewTriggeredSkill(s, our, enemy, d.shuffle(n), u, o, e);
        CarriedAppend(ts, t);
        ts := ts + [t];
      }
    }

    /** One skill is aimed and, unless it has no target, put on this unit.  The rows may have changed
        since the first skill of the call only in what units carry. */
    method NewTriggeredSkill(
        s: Learnt, our: seq<BattleUnit?>, enemy: seq<BattleUnit?>, shuffle: Shuffle,
        ghost u: Unit, ghost o: Row, ghost e: Row)
      returns (t: Triggered)
      requires s.conf.Some? && 1 <= s.lv <= |s.conf.value.levels|
      requires u.id == id && SameButSkills(o, RowOf(our)) && SameButSkills(e, RowOf(enemy))
      modifies this`skills
      ensures t == Trigger1(u, o, e, s, shuffle)
      ensures skills == old(skills) + if s.conf.value.target == NoTarget then [] else [t.active]
      ensures SameButSkills(o, RowOf(our)) && SameButSkills(e, RowOf(enemy))
    {
      AimIgnoresSkills(u, Value(), o, RowOf(our), e, RowOf(enemy), s.conf.value.target, shuffle);
      var toId, isEnemy := AimAt(our, enemy, s.conf.value.target, shuffle);
      var active: Active := RawActive(s.conf.value, s.lv, s.conf.value.duration);
      t := Triggered(active, isEnemy, toId, []);
      if s.conf.value.target != NoTarget {
        skills := skills + [active];
      }
    }

    /** The blow on one place, added to `kills`. */
    method HurtPlace(r: Rules, defenders: seq<BattleUnit?>, k: nat, v: int, kills: int) returns (sum: int)
      requires this !in defenders && Distinct(defenders) && k < |defenders| && defenders[k] != null
      modifies this`exp, defenders`soldiers
      ensures (Value(), RowOf(defenders), sum - kills)
        == Strike(r, old(Value()), old(RowOf(defenders)), k, Quot(Might(old(Value())) * v, 100))
    {
      ghost var before := RowOf(defenders);
      var realA := CalRealBattleAttr();
      var realB := defenders[k].CalRealBattleAttr();
      var kill := Kill(r, defenders[k], Quot(realA.force * v, 100), realB.defense);
      OneChanged(defenders, before, k);
      sum := kills + kill;
    }
  }

  lemma CarriedAppend(ts: seq<Triggered>, t: Triggered)
    ensures Carried(ts + [t]) == Carried(ts) + if t.active.conf.target == NoTarget then [] else [t.active]
  {
    assert (ts + [t])[..|ts|] == ts;
  }

  method StandingPlaces(us: seq<BattleUnit?>) returns (valid: seq<nat>)
    ensures valid == Places(RowOf(us), |us|)
  {
    valid := [];
    for i := 0 to |us|
      invariant valid == Places(RowOf(us), i)
    {
      if us[i] != null && us[i].soldiers > 0 {
        valid := valid + [i];
      }
    }
  }

  /** The ids of up to `n` random standing units. */
  method RandomIds(us: seq<BattleUnit?>, n: nat, shuffle: Shuffle) returns (ids: seq<int>)
    ensures ids == Ids(RowOf(us), RandomPlaces(RowOf(us), n, shuffle))
  {
    var valid := StandingPlaces(us);
    var order := shuffle(valid);
    ghost var row := RowOf(us);
    ghost var places := RandomPlaces(row, n, shuffle);
    assert places == order[..|places|];
    ids := IdsAt(us, order[..Min(n, |valid|)], row);
  }

  method IdsAt(us: seq<BattleUnit?>, places: seq<nat>, ghost row: Row) returns (ids: seq<int>)
    requires row == RowOf(us)
    requires forall i :: 0 <= i < |places| ==> places[i] < |row| && row[places[i]].Some?
    ensures ids == Ids(row, places)
  {
    ids := [];
    for i := 0 to |places|
      invariant |ids| == i && ids == Ids(row, places)[..i]
    {
      ids := ids + [us[places[i]].id];
    }
  }

  /** Rows that differ in what units carry only. */
  ghost predicate SameButSkills(row: Row, row': Row) {
    |row'| == |row| && forall k :: 0 <= k < |row| ==>
      row'[k].Some? == row[k].Some?
      && (row[k].Some? ==> row'[k].value == row[k].value.(skills := row'[k].value.skills))
  }

  lemma {:induction false} PlacesIgnoreSkills(row: Row, row': Row, n: nat)
    requires SameButSkills(row, row') && n <= |row|
    ensures Places(row', n) == Places(row, n)
  {
    if n > 0 {
      PlacesIgnoreSkills(row, row', n - 1);
    }
  }

  lemma IdsIgnoreSkills(row: Row, row': Row, n: nat, shuffle: Shuffle)
    requires SameButSkills(row, row')
    ensures Ids(row', RandomPlaces(row', n, shuffle)) == Ids(row, RandomPlaces(row, n, shuffle))
  {
    PlacesIgnoreSkills(row, row', |row|);
  }

  lemma AimIgnoresSkills(u: Unit, u': Unit, o: Row, o': Row, e: Row, e': Row, target: Target, shuffle: Shuffle)
    requires u'.id == u.id && SameButSkills(o, o') && SameButSkills(e, e')
    ensures Aim(u', o', e', target, shuffle) == Aim(u, o, e, target, shuffle)
  {
    match target
    case MySelf | NoTarget =>
    case OurSingle => IdsIgnoreSkills(o, o', 1, shuffle);
    case OurMostTwo => IdsIgnoreSkills(o, o', 2, shuffle);
    case OurMostThree => IdsIgnoreSkills(o, o', 3, shuffle);
    case OurAll => IdsIgnoreSkills(o, o', |o|, shuffle);
    case EnemySingle => IdsIgnoreSkills(e, e', 1, shuffle);
    case EnemyMostTwo => IdsIgnoreSkills(e, e', 2, shuffle);
    case EnemyMostThree => IdsIgnoreSkills(e, e', 3, shuffle);
    case EnemyAll => IdsIgnoreSkills(e, e', |e|, shuffle);
  }

  function After(x: (Unit, Row, seq<Triggered>), used: seq<Triggered>): (Unit, Row, seq<Triggered>) {
    (x.0, x.1, used + x.2)
  }

  lemma SkillsStart(x: (Unit, Row, seq<Triggered>))
    ensures After(x, []) == x
  {
    assert [] + x.2 == x.2;
  }

  lemma SkillStep(r: Rules, a: Unit, row: Row, ts: seq<Triggered>, used: seq<Triggered>)
    requires ts != []
    ensures var x := HurtEffects(r, a, row, ts[0].active, ts[0].toId, 0, Zeros(|ts[0].toId|));
      After(SkillKill(r, a, row, ts), used)
        == After(SkillKill(r, x.0, x.1, ts[1..]), used + [ts[0].(kill := x.2)])
  {
    var x := HurtEffects(r, a, row, ts[0].active, ts[0].toId, 0, Zeros(|ts[0].toId|));
    var rest := SkillKill(r, x.0, x.1, ts[1..]).2;
    assert used + ([ts[0].(kill := x.2)] + rest) == used + [ts[0].(kill := x.2)] + rest;
  }

  ghost predicate Distinct(us: seq<BattleUnit?>) {
    forall i, j :: 0 <= i < j < |us| && us[i] != null ==> us[i] != us[j]
  }

  ghost function RowOf(us: seq<BattleUnit?>): (row: Row)
    reads us
  {
    seq(|us|, k requires 0 <= k < |us| reads us => if us[k] == null then None else Some(us[k].Value()))
  }

  lemma OneChanged(us: seq<BattleUnit?>, before: Row, k: nat)
    requires |before| == |us| && k < |us| && us[k] != null
    requires forall j :: 0 <= j < |us| && j != k ==> before[j] == if us[j] == null then None else Some(us[j].Value())
    ensures RowOf(us) == before[k := Some(us[k].Value())]
  {
  }

  /** Unit `i` of `ours` triggers skills and uses the damaging ones on `theirs`. */
  method TriggerAndKill(
      r: Rules, ours: seq<BattleUnit?>, theirs: seq<BattleUnit?>, i: nat, our: seq<BattleUnit?>, enemy: seq<BattleUnit?>,
      after: bool, d: Dice)
    returns (used: seq<Triggered>)
    requires Distinct(ours + theirs) && i < |ours| && ours[i] != null
    modifies ours, theirs
    ensures (RowOf(ours), RowOf(theirs), used)
      == SkillPhase(r, old(RowOf(ours)), old(RowOf(theirs)), i, old(RowOf(our)), old(RowOf(enemy)), after, d)
  {
    Halves(ours, theirs);
    ghost var o, t := RowOf(ours), RowOf(theirs);
    var a := ours[i];
    var ts := a.TriggerSkills(our, enemy, after, d);
    assert RowOf(theirs) == t;
    used := a.SkillKill(r, theirs, ts);
    OneChanged(ours, o, i);
  }

  lemma Halves(ours: seq<BattleUnit?>, theirs: seq<BattleUnit?>)
    requires Distinct(ours + theirs)
    ensures Distinct(ours) && Distinct(theirs) && Distinct(theirs + ours)
    ensures forall k :: 0 <= k < |ours| && ours[k] != null ==> ours[k] !in theirs
    ensures forall k :: 0 <= k < |theirs| && theirs[k] != null ==> theirs[k] !in ours
  {
    var both := ours + theirs;
    assert forall k :: 0 <= k < |ours| ==> both[k] == ours[k];
    assert forall k :: 0 <= k < |theirs| ==> both[|ours| + k] == theirs[k];
    var swapped := theirs + ours;
    forall p, q | 0 <= p < q < |swapped| && swapped[p] != null
      ensures swapped[p] != swapped[q]
    {
      var p' := if p < |theirs| then |ours| + p else p - |theirs|;
      var q' := if q < |theirs| then |ours| + q else q - |theirs|;
      assert both[p'] == swapped[p] && both[q'] == swapped[q];
    }
  }

  method BlowAt(r: Rules, ours: seq<BattleUnit?>, theirs: seq<BattleUnit?>, i: nat) returns (loss: int)
    requires Distinct(ours + theirs) && i < |ours| && i < |theirs| && ours[i] != null && theirs[i] != null
    modifies ours, theirs
    ensures (RowOf(ours), RowOf(theirs), loss) == Blow(r, old(RowOf(ours)), old(RowOf(theirs)), i)
  {
    Halves(ours, theirs);
    ghost var o, t := RowOf(ours), RowOf(theirs);
    var hitA, hitB := ours[i], theirs[i];
    loss := 0;
    if hitB.soldiers > 0 {
      var realA := hitA.CalRealBattleAttr();
      var realB := hitB.CalRealBattleAttr();
      loss := hitA.Kill(r, hitB, realA.force, realB.defense);
      OneChanged(ours, o, i);
      OneChanged(theirs, t, i);
    }
  }

  method CheckHitAt(us: seq<BattleUnit?>, i: nat)
    requires Distinct(us) && i < |us| && us[i] != null
    modifies us`skills
    ensures RowOf(us) == CheckHit(old(RowOf(us)), i)
  {
    ghost var row := RowOf(us);
    us[i].CheckHitSkills();
    OneChanged(us, row, i);
  }

  method HitUnit(r: Rules, attackers: seq<BattleUnit?>, defenders: seq<BattleUnit?>, i: nat, d: HitDice)
    returns (h: HitLog, over: bool)
    requires Distinct(attackers + defenders)
    requires i < |attackers| && i < |defenders| && attackers[i] != null && defenders[i] != null
    modifies attackers, defenders
    ensures HitEnd(RowOf(attackers), RowOf(defenders), h, over)
      == Hit(r, old(RowOf(attackers)), old(RowOf(defenders)), i, d)
  {
    h, over := OpenHitUnit(r, attackers, defenders, i, d);
    if over {
      return;
    }
    Halves(attackers, defenders);
    var after := TriggerAndKill(r, attackers, defenders, i, attackers, defenders, true, d.after);
    var counter := TriggerAndKill(r, defenders, attackers, i, attackers, defenders, true, d.counter);
    h := h.(aAfter := after, bAfter := counter);
  }

  method OpenHitUnit(r: Rules, attackers: seq<BattleUnit?>, defenders: seq<BattleUnit?>, i: nat, d: HitDice)
    returns (h: HitLog, over: bool)
    requires Distinct(attackers + defenders)
    requires i < |attackers| && i < |defenders| && attackers[i] != null && defenders[i] != null
    modifies attackers, defenders
    ensures HitEnd(RowOf(attackers), RowOf(defenders), h, over)
      == OpenHit(r, old(RowOf(attackers)), old(RowOf(defenders)), i, d)
  {
    Halves(attackers, defenders);
    var hitA, hitB := attackers[i], defenders[i];
    var before := TriggerAndKill(r, attackers, defenders, i, attackers, defenders, false, d.before);
    var struck := hitB.soldiers > 0;
    var loss := BlowAt(r, attackers, defenders, i);
    ghost var t := RowOf(defenders);
    CheckHitAt(attackers, i);
    assert RowOf(defenders) == t;
    ghost var o := RowOf(attackers);
    CheckHitAt(defenders, i);
    assert RowOf(attackers) == o;
    h := HitLog(if struck then hitA.id else 0, if struck then hitB.id else 0, loss, before, [], []);
    over := hitB.position == 0 && hitB.soldiers == 0;
  }

  ghost function Ended(ok: bool, ours: Row, theirs: Row, log: Option<seq<HitLog>>, over: bool): RoundEnd {
    if ok then Round(ours, theirs, log, over) else Failed
  }

  /** One place of a round. */
  method PlaceUnits(
      r: Rules, ours: seq<BattleUnit?>, theirs: seq<BattleUnit?>, i: nat, hits: seq<HitLog>, d: RoundDice)
    returns (log: Option<seq<HitLog>>, over: bool)
    requires Distinct(ours + theirs) && i < |ours| == |theirs|
    modifies ours, theirs
    ensures Round(RowOf(ours), RowOf(theirs), log, over)
      == Place(r, old(RowOf(ours)), old(RowOf(theirs)), i, hits, d)
  {
    ghost var o, t := RowOf(ours), RowOf(theirs);
    var hitA, hitB := ours[i], theirs[i];
    if hitA == null || hitA.soldiers == 0 {
      return Some(hits), false;
    }
    if hitB == null {
      return None, true;
    }
    var h, fell := HitUnit(r, ours, theirs, i, d.hits(i));
    assert HitEnd(RowOf(ours), RowOf(theirs), h, fell) == Hit(r, o, t, i, d.hits(i));
    assert RowOf(ours)[i].value.soldiers == hitA.soldiers && RowOf(theirs)[i].value.soldiers == hitB.soldiers;
    if fell || hitB.soldiers == 0 || hitA.soldiers == 0 {
      return Some(hits + [h]), fell;
    }
    log, over := ReplyUnits(r, ours, theirs, i, hits + [h], d);
  }

  method ReplyUnits(
      r: Rules, ours: seq<BattleUnit?>, theirs: seq<BattleUnit?>, i: nat, hits: seq<HitLog>, d: RoundDice)
    returns (log: Option<seq<HitLog>>, over: bool)
    requires Distinct(ours + theirs) && i < |ours| == |theirs| && ours[i] != null && theirs[i] != null
    modifies ours, theirs
    ensures Round(RowOf(ours), RowOf(theirs), log, over)
      == Reply(r, old(RowOf(ours)), old(RowOf(theirs)), i, hits, d)
  {
    Halves(ours, theirs);
    var b, fell := HitUnit(r, theirs, ours, i, d.replies(i));
    log, over := Some(hits + [b]), fell;
  }

  /** One round with `ours` moving first.  `ok` is false when the end of the round meets a missing unit. */
  method RoundUnits(r: Rules, ours: seq<BattleUnit?>, theirs: seq<BattleUnit?>, d: RoundDice)
    returns (ok: bool, log: Option<seq<HitLog>>, over: bool)
    requires Distinct(ours + theirs) && |ours| == |theirs|
    modifies ours, theirs
    ensures Ended(ok, RowOf(ours), RowOf(theirs), log, over)
      == RoundFrom(r, old(RowOf(ours)), old(RowOf(theirs)), 0, [], d)
  {
    ghost var o, t := RowOf(ours), RowOf(theirs);
    ghost var goal := RoundFrom(r, o, t, 0, [], d);
    log, over := Some([]), false;
    for i := 0 to |ours|
      invariant log.Some? && RowOf(ours) == o && RowOf(theirs) == t && |o| == |t| == |ours|
      invariant RoundFrom(r, o, t, i, log.value, d) == goal
    {
      RoundGoesOn(r, o, t, i, log.value, d);
      log, over := PlaceUnits(r, ours, theirs, i, log.value, d);
      o, t := RowOf(ours), RowOf(theirs);
      if over {
        return true, log, true;
      }
    }
    RoundEnds(r, o, t, log.value, d);
    ok := EndRoundUnits(ours, theirs);
    return ok, log, false;
  }

  lemma RoundGoesOn(r: Rules, ours: Row, theirs: Row, i: nat, log: seq<HitLog>, d: RoundDice)
    requires i < |ours| == |theirs|
    ensures var p := Place(r, ours, theirs, i, log, d);
      RoundFrom(r, ours, theirs, i, log, d) == if p.over then p else RoundFrom(r, p.ours, p.theirs, i + 1, p.log.value, d)
  {
  }

  lemma RoundEnds(r: Rules, ours: Row, theirs: Row, log: seq<HitLog>, d: RoundDice)
    requires |ours| == |theirs|
    ensures RoundFrom(r, ours, theirs, |ours|, log, d) ==
      if Missing(ours) || Missing(theirs) then Failed
      else RoundEnd.Round(NextRound(ours), NextRound(theirs), Some(log), false)
  {
  }

  method EndRoundUnits(ours: seq<BattleUnit?>, theirs: seq<BattleUnit?>) returns (ok: bool)
    requires Distinct(ours + theirs)
    modifies ours, theirs
    ensures ok <==> !Missing(old(RowOf(ours))) && !Missing(old(RowOf(theirs)))
    ensures ok ==> RowOf(ours) == NextRound(old(RowOf(ours))) && RowOf(theirs) == NextRound(old(RowOf(theirs)))
  {
    Halves(ours, theirs);
    ghost var t := RowOf(theirs);
    ok := AgeRow(ours);
    if ok {
      assert RowOf(theirs) == t;
      ghost var o := RowOf(ours);
      ok := AgeRow(theirs);
      assert RowOf(ours) == o;
    }
  }

  method AgeRow(us: seq<BattleUnit?>) returns (ok: bool)
    requires Distinct(us)
    modifies us
    ensures ok <==> !Missing(old(RowOf(us)))
    ensures ok ==> RowOf(us) == NextRound(old(RowOf(us)))
  {
    ghost var row := RowOf(us);
    for k := 0 to |us|
      invariant forall j :: 0 <= j < k ==> us[j] != null && Some(us[j].Value()) == AgedUnit(row[j])
      invariant forall j :: k <= j < |us| && us[j] != null ==> Some(us[j].Value()) == row[j]
    {
      if us[k] == null {
        assert row[k].None?;
        return false;
      }
      us[k].CheckNextRound();
    }
    AgedRow(row, RowOf(us));
    return true;
  }

  function AgedUnit(u: Option<Unit>): Option<Unit> {
    if u.Some? then Some(u.value.(skills := Aged(u.value.skills))) else None
  }

  lemma {:induction false} AgedRow(row: Row, row': Row)
    requires |row'| == |row| && forall k :: 0 <= k < |row| ==> row[k].Some? && row'[k] == AgedUnit(row[k])
    ensures row' == NextRound(row)
  {
    if row != [] {
      AgedRow(row[1..], row'[1..]);
      assert row' == [row'[0]] + row'[1..];
    }
  }

  method PlayRoundUnits(r: Rules, att: seq<BattleUnit?>, def: seq<BattleUnit?>, d: RoundDice)
    returns (ok: bool, log: Option<seq<HitLog>>, over: bool)
    requires Distinct(att + def) && |att| == |def|
    modifies att, def
    ensures Ended(ok, RowOf(att), RowOf(def), log, over) == PlayRound(r, old(RowOf(att)), old(RowOf(def)), d)
  {
    Halves(att, def);
    if d.first % 2 == 0 {
      ok, log, over := RoundUnits(r, def, att, d);
    } else {
      ok, log, over := RoundUnits(r, att, def, d);
    }
  }

  /** A whole battle in place.  What it leaves is what the rounds of module Battle compute; so in every
      battle that does not break off, five times the soldiers lost are gained as experience. */
  method FightBattle(r: Rules, att: seq<BattleUnit?>, def: seq<BattleUnit?>, d: nat -> RoundDice)
    returns (ok: bool, rounds: seq<Option<seq<HitLog>>>, over: bool)
    requires Distinct(att + def) && |att| == |def|
    modifies att, def
    ensures (if ok then Fought(RowOf(att), RowOf(def), rounds, over) else Broken)
      == Rounds(r, old(RowOf(att)), old(RowOf(def)), d, MAX_ROUND)
    ensures ok ==>
      Exp(RowOf(att)) + Exp(RowOf(def)) - old(Exp(RowOf(att)) + Exp(RowOf(def)))
        == EXP_PER_KILL * Lost(old(RowOf(att)), old(RowOf(def)), RowOf(att), RowOf(def))
  {
    ghost var o, t := RowOf(att), RowOf(def);
    ok, rounds, over := FightRounds(r, att, def, d);
    BattleGains(r, o, t, d);
  }

  method FightRounds(r: Rules, att: seq<BattleUnit?>, def: seq<BattleUnit?>, d: nat -> RoundDice)
    returns (ok: bool, rounds: seq<Option<seq<HitLog>>>, over: bool)
    requires Distinct(att + def) && |att| == |def|
    modifies att, def
    ensures (if ok then Fought(RowOf(att), RowOf(def), rounds, over) else Broken)
      == Rounds(r, old(RowOf(att)), old(RowOf(def)), d, MAX_ROUND)
  {
    ghost var o, t := RowOf(att), RowOf(def);
    ok, rounds, over := true, [], false;
    var i := 0;
    while i < MAX_ROUND && !over
      invariant 0 <= i <= MAX_ROUND
      invariant Rounds(r, o, t, d, i) == Fought(RowOf(att), RowOf(def), rounds, over)
    {
      var log;
      RoundsNext(r, o, t, d, i, RowOf(att), RowOf(def), rounds);
      ok, log, over := PlayRoundUnits(r, att, def, d(i));
      i := i + 1;
      if !ok {
        StaysEnded(r, o, t, d, i, MAX_ROUND);
        return;
      }
      rounds := rounds + [log];
    }
    if over {
      StaysEnded(r, o, t, d, i, MAX_ROUND);
    }
  }

  lemma BattleGains(r: Rules, att: Row, def: Row, d: nat -> RoundDice)
    requires |att| == |def|
    ensures var e := Rounds(r, att, def, d, MAX_ROUND);
      e.Fought? ==> Exp(e.att) + Exp(e.def) - (Exp(att) + Exp(def)) == EXP_PER_KILL * Lost(att, def, e.att, e.def)
  {
    BattleConserves(r, att, def, d, MAX_ROUND);
  }

  lemma RoundsNext(
      r: Rules, o: Row, t: Row, d: nat -> RoundDice, i: nat, att: Row, def: Row, rounds: seq<Option<seq<HitLog>>>)
    requires |o| == |t| && Rounds(r, o, t, d, i) == Fought(att, def, rounds, false)
    ensures Rounds(r, o, t, d, i + 1) ==
      match PlayRound(r, att, def, d(i))
      case Failed => Broken
      case Round(att', def', log, over) => Fought(att', def', rounds + [log], over)
  {
  }

  lemma {:induction false} StaysEnded(r: Rules, att: Row, def: Row, d: nat -> RoundDice, i: nat, n: nat)
    requires |att| == |def| && i <= n
    requires var e := Rounds(r, att, def, d, i); e.Broken? || e.over
    ensures Rounds(r, att, def, d, n) == Rounds(r, att, def, d, i)
  {
    if i < n {
      StaysEnded(r, att, def, d, i, n - 1);
    }
  }
}
