/** Whom the skills of a hit can reach, and in particular those with which the unit hit answers: the code
    reads "our" and "enemy" in them as the attacker does. */
module BattleAnswers {
  import opened Wrappers
  import opened Battle

  // ---------- When a skill kills ----------

  /** A damaging effect of value `v` on the general `to` takes soldiers from the unit in place `p`. */
  predicate Wounds(r: Rules, a: Unit, row: Row, to: int, v: int, p: nat) {
    && p < |row| && IsTarget(row[p], to)
    && Damage(r, a, row[p].value, Quot(Might(a) * v, 100), Guard(row[p].value)) > 0
  }

  ghost predicate SaneFight(r: Rules, a: Unit, row: Row) {
    SaneRules(r) && SaneUnit(a) && SaneRow(row)
  }

  lemma StaysSane(r: Rules, a: Unit, row: Row, a': Unit, row': Row, n: int)
    requires SaneFight(r, a, row) && Hurts(r, a, row, a', row', n, true)
    ensures SaneFight(r, a', row')
  {
    forall k | 0 <= k < |row'| && row'[k].Some?
      ensures SaneUnit(row'[k].value)
    {
      assert SameButSoldiers(row[k], row'[k]);
    }
  }

  lemma StrikeKillsExactly(r: Rules, a: Unit, row: Row, to: int, v: int, k: nat)
    requires SaneFight(r, a, row) && v >= 0 && k < |row| && IsTarget(row[k], to)
    ensures var x := Strike(r, a, row, k, Quot(Might(a) * v, 100));
      && x.2 >= 0 && (x.2 > 0 <==> Wounds(r, a, row, to, v, k))
      && (x.2 == 0 ==> x.0 == a && x.1 == row)
      && SaneFight(r, x.0, x.1)
  {
    var force := Quot(Might(a) * v, 100);
    var x := Strike(r, a, row, k, force);
    SaneForce(a, v);
    SaneLoss(r, a, row[k].value, force);
    StrikeHurts(r, a, row, k, force);
    StaysSane(r, a, row, x.0, x.1, x.2);
  }

  lemma {:induction false} TargetKillsExactly(r: Rules, a: Unit, row: Row, to: int, v: int, k: nat)
    requires SaneFight(r, a, row) && v >= 0 && k <= |row|
    ensures var x := HurtTarget(r, a, row, to, v, k);
      && x.2 >= 0 && (x.2 > 0 <==> exists p: nat :: k <= p && Wounds(r, a, row, to, v, p))
      && (x.2 == 0 ==> x.0 == a && x.1 == row)
    decreases |row| - k
  {
    if k == |row| {
    } else if !IsTarget(row[k], to) {
      TargetKillsExactly(r, a, row, to, v, k + 1);
    } else {
      var (a1, row1, n) := Strike(r, a, row, k, Quot(Might(a) * v, 100));
      StrikeKillsExactly(r, a, row, to, v, k);
      TargetKillsExactly(r, a1, row1, to, v, k + 1);
    }
  }

  /** The same through one of the targets from the `j`-th on. */
  predicate WoundsOne(r: Rules, a: Unit, row: Row, toId: seq<int>, v: int, j: nat, p: nat) {
    j < |toId| && Wounds(r, a, row, toId[j], v, p)
  }

  lemma {:induction false} TargetsKillExactly(
      r: Rules, a: Unit, row: Row, toId: seq<int>, v: int, j: nat, kill: seq<int>)
    requires SaneFight(r, a, row) && v >= 0 && j <= |toId| == |kill|
    ensures var x := HurtTargets(r, a, row, toId, v, j, kill);
      && Sum(x.2) >= Sum(kill)
      && (Sum(x.2) > Sum(kill) <==> exists m: nat, p :: j <= m && WoundsOne(r, a, row, toId, v, m, p))
      && (Sum(x.2) == Sum(kill) ==> x.0 == a && x.1 == row)
    decreases |toId| - j
  {
    if j < |toId| {
      var (a1, row1, n) := HurtTarget(r, a, row, toId[j], v, 0);
      var kill1 := kill[j := kill[j] + n];
      TargetKillsExactly(r, a, row, toId[j], v, 0);
      TargetHurts(r, a, row, toId[j], v, 0);
      StaysSane(r, a, row, a1, row1, n);
      SumUpdate(kill, j, kill[j] + n);
      TargetsKillExactly(r, a1, row1, toId, v, j + 1, kill1);
      if n > 0 {
        var p: nat :| Wounds(r, a, row, toId[j], v, p);
        assert WoundsOne(r, a, row, toId, v, j, p);
      }
    }
  }

  /** Effect `e` of the skill takes soldiers from the unit in place `p`, through its `j`-th target. */
  predicate Bites(r: Rules, a: Unit, row: Row, t: Active, toId: seq<int>, e: nat, j: nat, p: nat) {
    && e < |t.conf.effects| && t.conf.effects[e] == HURT_RATE
    && WoundsOne(r, a, row, toId, t.conf.levels[t.lv - 1].values[e], j, p)
  }

  lemma {:induction false} EffectsKillExactly(
      r: Rules, a: Unit, row: Row, t: Active, toId: seq<int>, i: nat, kill: seq<int>)
    requires SaneFight(r, a, row) && Mild(t.conf) && i <= |t.conf.effects| && |toId| == |kill|
    ensures var x := HurtEffects(r, a, row, t, toId, i, kill);
      && Sum(x.2) >= Sum(kill)
      && (Sum(x.2) > Sum(kill) <==> exists e: nat, j, p :: i <= e && Bites(r, a, row, t, toId, e, j, p))
    decreases |t.conf.effects| - i
  {
    if i == |t.conf.effects| {
    } else if t.conf.effects[i] != HURT_RATE {
      EffectsKillExactly(r, a, row, t, toId, i + 1, kill);
    } else {
      var level := t.conf.levels[t.lv - 1];
      assert level in t.conf.levels;
      var (a1, row1, kill1) := HurtTargets(r, a, row, toId, level.values[i], 0, kill);
      TargetsKillExactly(r, a, row, toId, level.values[i], 0, kill);
      TargetsHurt(r, a, row, toId, level.values[i], 0, kill);
      StaysSane(r, a, row, a1, row1, Sum(kill1) - Sum(kill));
      EffectsKillExactly(r, a1, row1, t, toId, i + 1, kill1);
      if Sum(kill1) > Sum(kill) {
        var j: nat, p :| WoundsOne(r, a, row, toId, level.values[i], j, p);
        assert Bites(r, a, row, t, toId, i, j, p);
      }
    }
  }

  /** A skill of the list is used by its owner, and on the row, as the skills before it have left them. */
  lemma {:induction false} UsedInTurn(r: Rules, a: Unit, row: Row, ts: seq<Triggered>, k: nat)
    requires k < |ts|
    ensures var x := SkillKill(r, a, row, ts[..k]);
      SkillKill(r, a, row, ts).2[k] ==
        ts[k].(kill := HurtEffects(r, x.0, x.1, ts[k].active, ts[k].toId, 0, Zeros(|ts[k].toId|)).2)
    decreases |ts|
  {
    if k > 0 {
      var (a1, row1, _) := HurtEffects(r, a, row, ts[0].active, ts[0].toId, 0, Zeros(|ts[0].toId|));
      UsedInTurn(r, a1, row1, ts[1..], k - 1);
      assert ts[..k][1..] == ts[1..][..k - 1];
    }
  }

  /** In a sane fight a skill kills exactly if one of its damaging effects takes soldiers from a unit that
      stands when the skill is used and whose general the skill is aimed at. */
  lemma SkillKillsExactly(r: Rules, a: Unit, row: Row, ts: seq<Triggered>, k: nat)
    requires SaneFight(r, a, row) && k < |ts| && forall t :: t in ts ==> Mild(t.active.conf)
    ensures var x := SkillKill(r, a, row, ts[..k]);
      && SkillKill(r, a, row, ts).2[k].toId == ts[k].toId && SkillKill(r, a, row, ts).2[k].active == ts[k].active
      && (Sum(SkillKill(r, a, row, ts).2[k].kill) > 0 <==>
            exists e, j, p :: Bites(r, x.0, x.1, ts[k].active, ts[k].toId, e, j, p))
  {
    var x := SkillKill(r, a, row, ts[..k]);
    UsedInTurn(r, a, row, ts, k);
    SkillsHurt(r, a, row, ts[..k], true);
    StaysSane(r, a, row, x.0, x.1, Killed(x.2));
    assert ts[k] in ts;
    EffectsKillExactly(r, x.0, x.1, ts[k].active, ts[k].toId, 0, Zeros(|ts[k].toId|));
  }

  // ---------- The answer of the unit hit ----------

  ghost predicate Misses(row: Row, toId: seq<int>) {
    forall k, j :: 0 <= k < |row| && row[k].Some? && 0 <= j < |toId| ==> row[k].value.id != toId[j]
  }

  lemma {:induction false} MissedTarget(r: Rules, a: Unit, row: Row, toId: seq<int>, j: nat, v: int, k: nat)
    requires Misses(row, toId) && j < |toId| && k <= |row|
    ensures HurtTarget(r, a, row, toId[j], v, k) == (a, row, 0)
    decreases |row| - k
  {
    if k < |row| {
      MissedTarget(r, a, row, toId, j, v, k + 1);
    }
  }

  lemma {:induction false} MissedTargets(r: Rules, a: Unit, row: Row, toId: seq<int>, v: int, j: nat, kill: seq<int>)
    requires Misses(row, toId) && j <= |toId| == |kill|
    ensures HurtTargets(r, a, row, toId, v, j, kill) == (a, row, kill)
    decreases |toId| - j
  {
    if j < |toId| {
      MissedTarget(r, a, row, toId, j, v, 0);
      assert kill[j := kill[j] + 0] == kill;
      MissedTargets(r, a, row, toId, v, j + 1, kill);
    }
  }

  lemma {:induction false} MissedEffects(r: Rules, a: Unit, row: Row, t: Active, toId: seq<int>, i: nat, kill: seq<int>)
    requires Misses(row, toId) && i <= |t.conf.effects| && |toId| == |kill|
    ensures HurtEffects(r, a, row, t, toId, i, kill) == (a, row, kill)
    decreases |t.conf.effects| - i
  {
    if i < |t.conf.effects| {
      if t.conf.effects[i] == HURT_RATE {
        MissedTargets(r, a, row, toId, t.conf.levels[t.lv - 1].values[i], 0, kill);
      }
      MissedEffects(r, a, row, t, toId, i + 1, kill);
    }
  }

  lemma {:induction false} MissedSkill(r: Rules, a: Unit, row: Row, ts: seq<Triggered>, k: nat)
    requires k < |ts| && Misses(row, ts[k].toId)
    ensures Sum(SkillKill(r, a, row, ts).2[k].kill) == 0
    decreases |ts|
  {
    var t := ts[0];
    if k == 0 {
      MissedEffects(r, a, row, t.active, t.toId, 0, Zeros(|t.toId|));
    } else {
      var (a1, row1, _) := HurtEffects(r, a, row, t.active, t.toId, 0, Zeros(|t.toId|));
      EffectsHurt(r, a, row, t.active, t.toId, 0, Zeros(|t.toId|), false);
      assert forall j :: 0 <= j < |row| ==> SameButSoldiers(row[j], row1[j]);
      MissedSkill(r, a1, row1, ts[1..], k - 1);
    }
  }

  /** No unit of one row shares its general's id with a unit of the other. */
  ghost predicate Apart(ours: Row, theirs: Row) {
    forall i, j :: 0 <= i < |ours| && 0 <= j < |theirs| && ours[i].Some? && theirs[j].Some? ==>
      ours[i].value.id != theirs[j].value.id
  }

  lemma {:induction false} AimedAt(u: Unit, our: Row, enemy: Row, after: bool, d: Dice, n: nat, k: nat)
    requires n <= |u.learnt| && k < |Triggers(u, our, enemy, after, d, n)|
    ensures var t := Triggers(u, our, enemy, after, d, n)[k];
      t.isEnemy ==> DrawnFrom(enemy, t.toId)
  {
    var before := Triggers(u, our, enemy, after, d, n - 1);
    if k < |before| {
      AimedAt(u, our, enemy, after, d, n - 1, k);
    }
  }

  /** The skills with which unit `i` of `theirs` answers a hit, with what they killed. "Our" and "enemy" are
      read in them as the attacker does. */
  function Answer(r: Rules, ours: Row, theirs: Row, i: nat, d: Dice): seq<Triggered>
    requires i < |theirs| && theirs[i].Some?
  {
    SkillPhase(r, theirs, ours, i, ours, theirs, true, d).2
  }

  function Drawn(ours: Row, theirs: Row, i: nat, d: Dice): seq<Triggered>
    requires i < |theirs| && theirs[i].Some?
  {
    Triggers(theirs[i].value, ours, theirs, true, d, |theirs[i].value.learnt|)
  }

  /** The answering unit and the attackers' row as the `k`-th of these skills finds them. */
  function InTurn(r: Rules, ours: Row, theirs: Row, i: nat, d: Dice, k: nat): (Unit, Row)
    requires i < |theirs| && theirs[i].Some? && k <= |Drawn(ours, theirs, i, d)|
  {
    var u, ts := theirs[i].value, Drawn(ours, theirs, i, d);
    var x := SkillKill(r, u.(skills := u.skills + Carried(ts)), ours, ts[..k]);
    (x.0, x.1)
  }

  /** A skill meant for the enemy is aimed at the answering unit's own side, and then looked for among the
      attackers. In a sane battle an answering skill kills exactly if one of its damaging effects takes
      soldiers from an attacker standing at that moment who bears one of the ids it is aimed at. */
  lemma CounterKillsExactly(r: Rules, ours: Row, theirs: Row, i: nat, d: Dice, k: nat)
    requires i < |theirs| && theirs[i].Some? && k < |Answer(r, ours, theirs, i, d)|
    requires SaneRules(r) && SaneRow(ours) && SaneRow(theirs)
    ensures |Drawn(ours, theirs, i, d)| == |Answer(r, ours, theirs, i, d)|
    ensures var t, (a, row) := Answer(r, ours, theirs, i, d)[k], InTurn(r, ours, theirs, i, d, k);
      && (t.isEnemy ==> DrawnFrom(theirs, t.toId))
      && (forall p :: 0 <= p < |ours| ==> |row| == |ours| && SameButSoldiers(ours[p], row[p]))
      && (Sum(t.kill) > 0 <==> exists e, j, p :: Bites(r, a, row, t.active, t.toId, e, j, p))
  {
    var u, ts := theirs[i].value, Drawn(ours, theirs, i, d);
    var a := u.(skills := u.skills + Carried(ts));
    CarriedMild(ts);
    SkillKillsExactly(r, a, ours, ts, k);
    SkillsHurt(r, a, ours, ts[..k], true);
    UsedInTurn(r, a, ours, ts, k);
    if ts[k].isEnemy {
      AimedAt(u, ours, theirs, true, d, |u.learnt|, k);
    }
  }

  /** So when the two sides share no general, a skill meant for the enemy never kills anybody, sane or not. */
  lemma CounterMissesEnemies(r: Rules, ours: Row, theirs: Row, i: nat, d: Dice, k: nat)
    requires i < |theirs| && theirs[i].Some? && Apart(ours, theirs)
    requires k < |Answer(r, ours, theirs, i, d)| && Answer(r, ours, theirs, i, d)[k].isEnemy
    ensures Sum(Answer(r, ours, theirs, i, d)[k].kill) == 0
  {
    var u, ts := theirs[i].value, Drawn(ours, theirs, i, d);
    var a := u.(skills := u.skills + Carried(ts));
    UsedInTurn(r, a, ours, ts, k);
    AimedAt(u, ours, theirs, true, d, |u.learnt|, k);
    forall p, j | 0 <= p < |ours| && ours[p].Some? && 0 <= j < |ts[k].toId|
      ensures ours[p].value.id != ts[k].toId[j]
    {
      assert Named(theirs, ts[k].toId[j]);
      var q :| NamedAt(theirs, q, ts[k].toId[j]);
    }
    MissedSkill(r, a, ours, ts, k);
  }

  ghost predicate AimAt(ts: seq<Triggered>, row: Row) {
    forall k :: 0 <= k < |ts| && ts[k].isEnemy ==> DrawnFrom(row, ts[k].toId)
  }

  lemma PhaseAims(r: Rules, ours: Row, theirs: Row, i: nat, our: Row, enemy: Row, after: bool, d: Dice)
    requires i < |ours| && ours[i].Some?
    ensures AimAt(SkillPhase(r, ours, theirs, i, our, enemy, after, d).2, enemy)
  {
    var u := ours[i].value;
    var ts := Triggers(u, our, enemy, after, d, |u.learnt|);
    var a := u.(skills := u.skills + Carried(ts));
    forall k | 0 <= k < |ts|
      ensures ts[k].isEnemy ==> DrawnFrom(enemy, ts[k].toId)
      ensures SkillKill(r, a, theirs, ts).2[k] == ts[k].(kill := SkillKill(r, a, theirs, ts).2[k].kill)
    {
      AimedAt(u, our, enemy, after, d, |u.learnt|, k);
      UsedInTurn(r, a, theirs, ts, k);
    }
  }

  lemma SameAim(ts: seq<Triggered>, row: Row, row': Row)
    requires SameUnits(row, row') && AimAt(ts, row')
    ensures AimAt(ts, row)
  {
    forall k, j | 0 <= k < |ts| && ts[k].isEnemy && 0 <= j < |ts[k].toId|
      ensures Named(row, ts[k].toId[j])
    {
      assert Named(row', ts[k].toId[j]);
      var p :| NamedAt(row', p, ts[k].toId[j]);
      assert SameUnit(row[p], row'[p]);
      assert NamedAt(row, p, ts[k].toId[j]);
    }
  }

  lemma StillApart(ours: Row, theirs: Row, ours': Row, theirs': Row)
    requires Apart(ours, theirs) && SameUnits(ours, ours') && SameUnits(theirs, theirs')
    ensures Apart(ours', theirs')
  {
    forall i, j | 0 <= i < |ours'| && 0 <= j < |theirs'| && ours'[i].Some? && theirs'[j].Some?
      ensures ours'[i].value.id != theirs'[j].value.id
    {
      assert SameUnit(ours[i], ours'[i]) && SameUnit(theirs[j], theirs'[j]);
    }
  }

  lemma AfterAims(r: Rules, ours: Row, theirs: Row, i: nat, d: HitDice)
    requires i < |ours| && i < |theirs| && ours[i].Some? && theirs[i].Some?
    ensures AimAt(SkillPhase(r, ours, theirs, i, ours, theirs, true, d.after).2, theirs)
    ensures var (ours1, theirs1, after) := SkillPhase(r, ours, theirs, i, ours, theirs, true, d.after);
      && SameUnits(ours, ours1) && SameUnits(theirs, theirs1) && i < |theirs1| && theirs1[i].Some?
      && AimAt(Answer(r, ours1, theirs1, i, d.counter), theirs)
  {
    PhaseAims(r, ours, theirs, i, ours, theirs, true, d.after);
    var (ours1, theirs1, after) := SkillPhase(r, ours, theirs, i, ours, theirs, true, d.after);
    assert SameUnit(theirs[i], theirs1[i]);
    PhaseAims(r, theirs1, ours1, i, ours1, theirs1, true, d.counter);
    SameAim(Answer(r, ours1, theirs1, i, d.counter), theirs, theirs1);
  }

  lemma AnswerIsHarmless(r: Rules, ours: Row, theirs: Row, i: nat, d: Dice)
    requires i < |theirs| && theirs[i].Some? && Apart(ours, theirs)
    ensures Harmless(Answer(r, ours, theirs, i, d))
  {
    var ts := Answer(r, ours, theirs, i, d);
    forall k | 0 <= k < |ts| && ts[k].isEnemy
      ensures Sum(ts[k].kill) == 0
    {
      CounterMissesEnemies(r, ours, theirs, i, d, k);
    }
  }

  ghost predicate Harmless(ts: seq<Triggered>) {
    forall k :: 0 <= k < |ts| && ts[k].isEnemy ==> Sum(ts[k].kill) == 0
  }

  /** In the log of a whole hit, skills meant for enemies are aimed at units of the side hit, whoever uses them;
      when the sides share no general those of the answer kill nobody. */
  lemma HitAims(r: Rules, ours: Row, theirs: Row, i: nat, d: HitDice)
    requires i < |ours| && i < |theirs| && ours[i].Some? && theirs[i].Some?
    ensures var log := Hit(r, ours, theirs, i, d).log;
      && AimAt(log.aBefore, theirs) && AimAt(log.aAfter, theirs) && AimAt(log.bAfter, theirs)
      && (Apart(ours, theirs) ==> Harmless(log.bAfter))
  {
    var h := OpenHit(r, ours, theirs, i, d);
    PhaseAims(r, ours, theirs, i, ours, theirs, false, d.before);
    if !h.over {
      AfterAims(r, h.ours, h.theirs, i, d);
      var (ours1, theirs1, after) := SkillPhase(r, h.ours, h.theirs, i, h.ours, h.theirs, true, d.after);
      var counter := Answer(r, ours1, theirs1, i, d.counter);
      assert Hit(r, ours, theirs, i, d).log == h.log.(aAfter := after, bAfter := counter);
      SameAim(after, theirs, h.theirs);
      SameAim(counter, theirs, h.theirs);
      if Apart(ours, theirs) {
        StillApart(ours, theirs, h.ours, h.theirs);
        StillApart(h.ours, h.theirs, ours1, theirs1);
        AnswerIsHarmless(r, ours1, theirs1, i, d.counter);
      }
    }
  }

  // ---------- An input at which that happens ----------

  const RULES := Rules((x, y) => 100, n => 0)

  /** A passive skill that is certain to fire and hurts all enemies. */
  const REVENGE: Conf := RawConf(Passive, EnemyAll, 0, [HURT_RATE], [Level(100, [100])])

  function Soldier(id: int, learnt: seq<Learnt>): Row {
    [Some(Unit(id, 0, 0, 50, 0, 0, 0, 0, learnt, 100, 0, []))]
  }

  const OURS := Soldier(1, [])
  const THEIRS := Soldier(2, [Learnt(9, Some(REVENGE), 1)])

  function Certain(): Dice {
    Dice(n => 99, n => Unshuffled)
  }

  /** It is aimed at the one unit of the row that counts as the enemy. */
  lemma Avenges(our: Row, enemy: Row, id: int)
    requires |enemy| == 1 && Standing(enemy[0]) && enemy[0].value.id == id
    ensures Triggers(THEIRS[0].value, our, enemy, true, Certain(), 1) ==
      [Triggered(RawActive(REVENGE, 1, 0), true, [id], [])]
  {
    var u := THEIRS[0].value;
    assert Places(enemy, 0) == [];
    assert Places(enemy, 1) == [0];
    assert Ids(enemy, RandomPlaces(enemy, 1, Unshuffled)) == [id];
    assert Fires(u.learnt[0], true, 99);
    assert Triggers(u, our, enemy, true, Certain(), 0) == [];
  }

  lemma RevengeIsMild()
    ensures Mild(REVENGE) && SaneRow(OURS) && SaneRow(THEIRS) && SaneRules(RULES)
  {
  }

  /** The sides share no general, the answer is aimed at somebody and goes off, and kills nobody. Read as its
      owner means it, the same skill, with the same dice, kills. */
  lemma AnswerGoesAstray()
    ensures Apart(OURS, THEIRS) && |Answer(RULES, OURS, THEIRS, 0, Certain())| == 1
    ensures var t := Answer(RULES, OURS, THEIRS, 0, Certain())[0];
      t.active.conf == REVENGE && t.isEnemy && t.toId == [2] && Sum(t.kill) == 0
    ensures var meant := SkillPhase(RULES, THEIRS, OURS, 0, THEIRS, OURS, true, Certain()).2;
      |meant| == 1 && meant[0].active.conf == REVENGE && meant[0].toId == [1] && Sum(meant[0].kill) > 0
  {
    Avenges(OURS, THEIRS, 2);
    Avenges(THEIRS, OURS, 1);
    CounterMissesEnemies(RULES, OURS, THEIRS, 0, Certain(), 0);
    RevengeIsMild();
    MeantRevengeKills();
  }

  function Meant(): Triggered {
    Triggered(RawActive(REVENGE, 1, 0), true, [1], [])
  }

  lemma MeantRevengeKills()
    ensures Sum(SkillPhase(RULES, THEIRS, OURS, 0, THEIRS, OURS, true, Certain()).2[0].kill) > 0
  {
    Avenges(THEIRS, OURS, 1);
    assert Carried([Meant()][..0]) == [];
    assert Carried([Meant()]) == [Meant().active];
    AvengerKills();
  }

  lemma AvengerKills()
    ensures Sum(SkillKill(RULES, Avenger(), OURS, [Meant()]).2[0].kill) > 0
  {
    RevengeIsMild();
    assert SaneFight(RULES, Avenger(), OURS);
    SkillKillsExactly(RULES, Avenger(), OURS, [Meant()], 0);
    assert [Meant()][..0] == [];
    AvengerWounds();
    assert Bites(RULES, Avenger(), OURS, Meant().active, [1], 0, 0, 0);
  }

  function Avenger(): Unit {
    Unit(2, 0, 0, 50, 0, 0, 0, 0, THEIRS[0].value.learnt, 100, 0, [RawActive(REVENGE, 1, 0)])
  }

  lemma AvengerWounds()
    ensures Wounds(RULES, Avenger(), OURS, 1, 100, 0)
  {
    var carried := Avenger().skills;
    assert Bonus(carried[..0], FORCE) == 0;
    assert EffectBonus([HURT_RATE][..0], [100][..0], FORCE) == 0;
    assert Might(Avenger()) == 50;
    assert Quot(50 * 100, 100) == 50;
    assert Guard(OURS[0].value) == 0;
    assert Quot(50 * 100 * 100, 100 * 100) == 50;
  }
}
